/**
 * The allfxevents analysis: a visitor that prunes and mutates as it walks, and what it reports. Types are
 * identifiers that are equal when the types are identical.
 */
module AllFxEvents {
  import opened Errors

  type TypeId = nat

  /** What can occur below a declaration; the types of expressions that have none are None. */
  datatype Node =
    | CaseClause(types: seq<Option<TypeId>>, kids: seq<Node>)
    | TypeAssert(typ: Option<TypeId>, kids: seq<Node>)
    | Other(kids: seq<Node>)

  /** recv is None for a plain function, and holds None if the receiver has no type. */
  datatype Decl =
    | FuncDecl(pos: nat, recv: Option<Option<TypeId>>, name: string, body: seq<Node>)
    | GenDecl(kids: seq<Node>)

  datatype File = File(name: string, decls: seq<Decl>)

  datatype Diagnostic = Diagnostic(pos: nat, logger: TypeId, missing: set<TypeId>)

  // ----- What the analysis means -----

  predicate IsTestFile(name: string) {
    |name| >= 8 && name[|name| - 8..] == "_test.go"
  }

  /** The declared loggers: methods named LogEvent of a type that implements fxevent.Logger. */
  predicate IsLogger(d: Decl, implements: set<TypeId>) {
    d.FuncDecl? && d.name == "LogEvent" && d.recv.Some? && d.recv.value.Some? && d.recv.value.value in implements
  }

  function TypesIn(ts: seq<Option<TypeId>>): set<TypeId> {
    if ts == [] then {}
    else TypesIn(ts[..|ts| - 1]) + if ts[|ts| - 1].Some? then {ts[|ts| - 1].value} else {}
  }

  /** The types named by the outermost case clauses and type assertions of a node. */
  function Named(n: Node): set<TypeId> {
    match n
    case CaseClause(ts, _) => TypesIn(ts)
    case TypeAssert(t, _) => if t.Some? then {t.value} else {}
    case Other(kids) => AllNamed(kids)
  }

  function AllNamed(ns: seq<Node>): set<TypeId> {
    if ns == [] then {} else Named(ns[0]) + AllNamed(ns[1..])
  }

  /** The node that a path of child indices leads to, through nodes that are walked through. */
  function NodeAt(ns: seq<Node>, path: seq<nat>): Option<Node>
    decreases |path|
  {
    if path == [] || path[0] >= |ns| then None
    else if |path| == 1 then Some(ns[path[0]])
    else if ns[path[0]].Other? then NodeAt(ns[path[0]].kids, path[1..])
    else None
  }

  /** A case clause or type assertion that is reached without going through another one names the type. */
  ghost predicate Names(ns: seq<Node>, t: TypeId) {
    exists path :: NodeAt(ns, path).Some? &&
      match NodeAt(ns, path).value
      case CaseClause(types, _) => Some(t) in types
      case TypeAssert(typ, _) => typ == Some(t)
      case Other(_) => false
  }

  function DeclNodes(d: Decl): seq<Node> {
    if d.FuncDecl? then d.body else d.kids
  }

  function Missing(d: Decl, events: set<TypeId>): set<TypeId> {
    events - AllNamed(DeclNodes(d))
  }

  /** A logger is reported if it handles some of the events, but not all. */
  function Report(d: Decl, events: set<TypeId>, implements: set<TypeId>): seq<Diagnostic> {
    if IsLogger(d, implements) && 0 < |Missing(d, events)| < |events|
    then [Diagnostic(d.pos, d.recv.value.value, Missing(d, events))]
    else []
  }

  function Reports(ds: seq<Decl>, events: set<TypeId>, implements: set<TypeId>): seq<Diagnostic> {
    if ds == [] then []
    else Reports(ds[..|ds| - 1], events, implements) + Report(ds[|ds| - 1], events, implements)
  }

  function HasLogger(ds: seq<Decl>, implements: set<TypeId>): (b: bool)
    ensures b <==> exists i :: 0 <= i < |ds| && IsLogger(ds[i], implements)
  {
    ds != [] && (HasLogger(ds[..|ds| - 1], implements) || IsLogger(ds[|ds| - 1], implements))
  }

  /** A declaration that is not a function names a type at its outermost level. */
  predicate Stray(d: Decl) {
    d.GenDecl? && AllNamed(d.kids) != {}
  }

  /** No stray declaration comes before the first logger. */
  predicate NoEarlyStray(ds: seq<Decl>, implements: set<TypeId>) {
    ds == [] || (NoEarlyStray(ds[..|ds| - 1], implements) &&
                 (Stray(ds[|ds| - 1]) ==> HasLogger(ds[..|ds| - 1], implements)))
  }

  /** The declarations that are looked at. */
  function Decls(fs: seq<File>): seq<Decl> {
    if fs == [] then []
    else Decls(fs[..|fs| - 1]) + if IsTestFile(fs[|fs| - 1].name) then [] else fs[|fs| - 1].decls
  }

  // ----- Type sets -----

  class TypeSet {
    var m: set<TypeId>

    constructor ()
      ensures m == {}
    {
      m := {};
    }

    method Len() returns (n: nat)
      ensures n == |m|
    {
      n := |m|;
    }

    method Put(t: TypeId)
      modifies this
      ensures m == old(m) + {t}
    {
      m := m + {t};
    }

    method Remove(t: TypeId) returns (found: bool)
      modifies this
      ensures m == old(m) - {t} && found == (t in old(m))
    {
      found := t in m;
      m := m - {t};
    }

    /** A copy that shares nothing with this set. */
    method Clone() returns (out: TypeSet)
      ensures fresh(out) && out.m == m
    {
      out := new TypeSet();
      var rest := m;
      while rest != {}
        invariant fresh(out) && rest <= m && out.m == m - rest
        decreases rest
      {
        var t :| t in rest;
        out.Put(t);
        rest := rest - {t};
      }
    }
  }

  // ----- The visitor -----

  class Visitor {
    const events: TypeSet
    const implements: set<TypeId>
    var loggerType: Option<TypeId>
    var funcEvents: TypeSet?          // types not yet referenced by the current function
    var reported: seq<Diagnostic>

    ghost predicate Valid()
      reads this
    {
      funcEvents != events
    }

    constructor (events: TypeSet, implements: set<TypeId>)
      ensures Valid() && this.events == events && this.implements == implements
      ensures funcEvents == null && reported == []
    {
      this.events, this.implements := events, implements;
      loggerType, funcEvents, reported := None, null, [];
    }

    /** Removes the type of an expression; ok is false where Go would dereference a nil type set. */
    method RemoveType(t: Option<TypeId>) returns (ok: bool)
      requires Valid()
      modifies funcEvents
      ensures ok <==> funcEvents != null || t.None?
      ensures funcEvents != null ==> funcEvents.m == old(funcEvents.m) - if t.Some? then {t.value} else {}
    {
      ok := true;
      if t.Some? {
        if funcEvents == null {
          return false;
        }
        var _ := funcEvents.Remove(t.value);
      }
    }

    method VisitCaseClause(n: Node) returns (ok: bool)
      requires Valid() && n.CaseClause?
      modifies funcEvents
      ensures ok <==> funcEvents != null || Named(n) == {}
      ensures funcEvents != null ==> funcEvents.m == old(funcEvents.m) - Named(n)
    {
      ok := true;
      var i := 0;
      while i < |n.types|
        invariant 0 <= i <= |n.types|
        invariant ok <==> funcEvents != null || TypesIn(n.types[..i]) == {}
        invariant funcEvents != null ==> funcEvents.m == old(funcEvents.m) - TypesIn(n.types[..i])
        invariant ok
      {
        assert n.types[..i + 1][..i] == n.types[..i];
        ok := RemoveType(n.types[i]);
        if !ok {
          TypesInGrows(n.types, i + 1);
          return;
        }
        i := i + 1;
      }
      assert n.types[..i] == n.types;
    }

    /** Visit on a case clause or type assertion; it prunes what is below. */
    method Visit(n: Node) returns (ok: bool)
      requires Valid() && !n.Other?
      modifies funcEvents
      ensures ok <==> funcEvents != null || Named(n) == {}
      ensures funcEvents != null ==> funcEvents.m == old(funcEvents.m) - Named(n)
      ensures forall t :: t in Named(n) <==> if n.CaseClause? then Some(t) in n.types else n.typ == Some(t)
    {
      match n {
        case CaseClause(types, _) =>
          ok := VisitCaseClause(n);
          TypesInMeans(types);
        case TypeAssert(t, _) => ok := RemoveType(t);
      }
    }

    /** The inspector on nodes below a declaration: nodes that do not match the filter are walked through. */
    method Walk(ns: seq<Node>) returns (ok: bool)
      requires Valid()
      modifies funcEvents
      ensures ok <==> funcEvents != null || AllNamed(ns) == {}
      ensures funcEvents != null ==> funcEvents.m == old(funcEvents.m) - AllNamed(ns)
      ensures forall t :: t in AllNamed(ns) <==> Names(ns, t)
      decreases ns
    {
      hide Names;
      AllNamedMeans(ns);
      ok := true;
      var i := 0;
      while i < |ns|
        invariant 0 <= i <= |ns|
        invariant ok && (funcEvents == null ==> AllNamed(ns[..i]) == {})
        invariant funcEvents != null ==> funcEvents.m == old(funcEvents.m) - AllNamed(ns[..i])
      {
        AllNamedNext(ns, i);
        if ns[i].Other? {
          ok := Walk(ns[i].kids);
        } else {
          ok := Visit(ns[i]);
        }
        if !ok {
          return;
        }
        i := i + 1;
      }
      assert ns[..i] == ns;
    }

    /** Visit on entering a function: only loggers are looked into, each with its own copy of the events. */
    method FuncDeclEnter(d: Decl) returns (recurse: bool)
      requires Valid() && d.FuncDecl?
      modifies this`loggerType, this`funcEvents
      ensures Valid()
      ensures recurse <==> d.name == "LogEvent" && exists t :: d.recv == Some(Some(t)) && t in implements
      ensures recurse ==> funcEvents != null && fresh(funcEvents) && funcEvents.m == events.m
      ensures recurse ==> loggerType == d.recv.value
      ensures !recurse ==> funcEvents == old(funcEvents)
    {
      if d.recv.None? || d.name != "LogEvent" {
        return false;
      }
      var t := d.recv.value;
      if t.None? || t.value !in implements {
        return false;
      }
      assert d.recv == Some(Some(t.value));
      loggerType := t;
      funcEvents := events.Clone();
      return true;
    }

    /** Visit on leaving a function that was entered. */
    method FuncDeclExit(d: Decl)
      requires Valid() && d.FuncDecl? && funcEvents != null && loggerType.Some?
      modifies this`reported
      ensures reported == old(reported) +
        if 0 < |funcEvents.m| != |events.m| then [Diagnostic(d.pos, loggerType.value, funcEvents.m)] else []
    {
      var n := funcEvents.Len();
      if n == 0 {
        return;
      }
      var all := events.Len();
      if n == all {
        return;
      }
      reported := reported + [Diagnostic(d.pos, loggerType.value, funcEvents.m)];
    }

    method WalkDecl(d: Decl) returns (ok: bool)
      requires Valid()
      modifies this, funcEvents
      ensures Valid() && (funcEvents == old(funcEvents) || (funcEvents != null && fresh(funcEvents)))
      ensures ok <==> !(Stray(d) && old(funcEvents) == null)
      ensures ok ==> reported == old(reported) + Report(d, events.m, implements)
      ensures funcEvents != null <==> old(funcEvents) != null || IsLogger(d, implements)
    {
      if d.GenDecl? {
        ok := Walk(d.kids);
      } else {
        ok := true;
        var recurse := FuncDeclEnter(d);
        if recurse {
          ok := Walk(d.body);
          MissingIsSmaller(events.m, AllNamed(d.body));
          FuncDeclExit(d);
        }
      }
    }

    method WalkDecls(ds: seq<Decl>, ghost before: seq<Decl>) returns (ok: bool)
      requires Valid() && (funcEvents != null <==> HasLogger(before, implements))
      requires NoEarlyStray(before, implements) && reported == Reports(before, events.m, implements)
      modifies this, funcEvents
      ensures Valid() && (funcEvents == old(funcEvents) || (funcEvents != null && fresh(funcEvents)))
      ensures ok <==> NoEarlyStray(before + ds, implements)
      ensures ok ==> reported == Reports(before + ds, events.m, implements)
      ensures ok ==> (funcEvents != null <==> HasLogger(before + ds, implements))
    {
      hide NoEarlyStray, Reports, Report, HasLogger, Stray, IsLogger;
      ok := true;
      var i := 0;
      assert before + ds[..0] == before;
      while i < |ds|
        invariant 0 <= i <= |ds|
        invariant Valid() && (funcEvents == old(funcEvents) || (funcEvents != null && fresh(funcEvents)))
        invariant ok && NoEarlyStray(before + ds[..i], implements)
        invariant reported == Reports(before + ds[..i], events.m, implements)
        invariant funcEvents != null <==> HasLogger(before + ds[..i], implements)
      {
        ghost var seen := before + ds[..i];
        OneMoreDecl(seen, ds[i], events.m, implements);
        assert before + ds[..i + 1] == seen + [ds[i]];
        ok := WalkDecl(ds[i]);
        if !ok {
          assert before + ds == seen + [ds[i]] + ds[i + 1..];
          EarlyStrayStays(seen + [ds[i]], ds[i + 1..], implements);
          return;
        }
        i := i + 1;
      }
      assert before + ds[..i] == before + ds;
    }

    /**
     * The whole pass over the files of a package. If no stray declaration comes before the first logger,
     * it reports exactly the loggers that handle some but not all of the events, each on its own merits;
     * otherwise it fails on a nil type set.
     */
    method RunPass(fs: seq<File>) returns (ok: bool)
      requires funcEvents == null && reported == []
      modifies this
      ensures ok <==> NoEarlyStray(Decls(fs), implements)
      ensures ok ==> reported == Reports(Decls(fs), events.m, implements)
      ensures ok ==> forall x :: x in reported <==> ReportedIn(fs, events.m, implements, x)
      ensures events.m == old(events.m)
    {
      hide NoEarlyStray, Reports, HasLogger, Decls, ReportedIn;
      ok := true;
      var i := 0;
      NoDecls(fs, events.m, implements);
      while i < |fs|
        invariant 0 <= i <= |fs|
        invariant Valid() && (funcEvents != null ==> fresh(funcEvents)) && events.m == old(events.m)
        invariant ok && NoEarlyStray(Decls(fs[..i]), implements)
        invariant reported == Reports(Decls(fs[..i]), events.m, implements)
        invariant funcEvents != null <==> HasLogger(Decls(fs[..i]), implements)
      {
        DeclsNext(fs, i);
        assert Decls(fs[..i]) + [] == Decls(fs[..i]);
        if !IsTestFile(fs[i].name) {
          ok := WalkDecls(fs[i].decls, Decls(fs[..i]));
          if !ok {
            DeclsSplit(fs, i + 1);
            EarlyStrayStays(Decls(fs[..i + 1]), Decls(fs[i + 1..]), implements);
            return;
          }
        }
        i := i + 1;
      }
      assert fs[..i] == fs;
      forall x
        ensures x in reported <==> ReportedIn(fs, events.m, implements, x)
      {
        PassReportsExactly(fs, events.m, implements, x);
      }
    }
  }

  // ----- Lemmas -----

  lemma {:induction false} TypesInGrows(ts: seq<Option<TypeId>>, i: nat)
    requires i <= |ts|
    ensures TypesIn(ts[..i]) <= TypesIn(ts)
    decreases |ts| - i
  {
    if i == |ts| {
      assert ts[..i] == ts;
    } else {
      assert ts[..i + 1][..i] == ts[..i];
      TypesInGrows(ts, i + 1);
    }
  }

  lemma {:induction false} TypesInMeans(ts: seq<Option<TypeId>>)
    ensures forall t :: t in TypesIn(ts) <==> Some(t) in ts
  {
    if ts != [] {
      TypesInMeans(ts[..|ts| - 1]);
      assert ts == ts[..|ts| - 1] + [ts[|ts| - 1]];
    }
  }

  lemma {:induction false} NamedHasPath(ns: seq<Node>, t: TypeId) returns (path: seq<nat>)
    requires t in AllNamed(ns)
    ensures path != [] && NodeAt(ns, path).Some?
    ensures
      match NodeAt(ns, path).value
      case CaseClause(types, _) => Some(t) in types
      case TypeAssert(typ, _) => typ == Some(t)
      case Other(_) => false
    decreases ns
  {
    if t in Named(ns[0]) {
      path := [0];
      match ns[0]
      case CaseClause(types, _) => TypesInMeans(types);
      case TypeAssert(_, _) =>
      case Other(kids) =>
        var below := NamedHasPath(kids, t);
        path := [0] + below;
        assert path[1..] == below;
    } else {
      var later := NamedHasPath(ns[1..], t);
      path := [later[0] + 1] + later[1..];
      assert path[1..] == later[1..];
    }
  }

  lemma {:induction false} PathIsNamed(ns: seq<Node>, path: seq<nat>, t: TypeId)
    requires NodeAt(ns, path).Some?
    requires
      match NodeAt(ns, path).value
      case CaseClause(types, _) => Some(t) in types
      case TypeAssert(typ, _) => typ == Some(t)
      case Other(_) => false
    ensures t in AllNamed(ns)
    decreases |path|
  {
    var n := ns[path[0]];
    AllNamedNext(ns, path[0]);
    match n
    case CaseClause(types, _) => TypesInMeans(types);
    case TypeAssert(_, _) =>
    case Other(kids) => PathIsNamed(kids, path[1..], t);
  }

  /**
   * A type is named exactly if some case clause lists it, or some type assertion asserts it, that is reached
   * without going through another case clause or type assertion.
   */
  lemma AllNamedMeans(ns: seq<Node>)
    ensures forall t :: t in AllNamed(ns) <==> Names(ns, t)
  {
    forall t
      ensures t in AllNamed(ns) <==> Names(ns, t)
    {
      if t in AllNamed(ns) {
        var path := NamedHasPath(ns, t);
      } else if Names(ns, t) {
        var path :| NodeAt(ns, path).Some? &&
          match NodeAt(ns, path).value
          case CaseClause(types, _) => Some(t) in types
          case TypeAssert(typ, _) => typ == Some(t)
          case Other(_) => false;
        PathIsNamed(ns, path, t);
      }
    }
  }

  lemma {:induction false} AllNamedConcat(a: seq<Node>, b: seq<Node>)
    ensures AllNamed(a + b) == AllNamed(a) + AllNamed(b)
  {
    if a == [] {
      assert a + b == b;
    } else {
      assert (a + b)[1..] == a[1..] + b;
      AllNamedConcat(a[1..], b);
    }
  }

  lemma AllNamedNext(ns: seq<Node>, i: nat)
    requires i < |ns|
    ensures AllNamed(ns[..i + 1]) == AllNamed(ns[..i]) + Named(ns[i])
    ensures AllNamed(ns[..i + 1]) <= AllNamed(ns)
  {
    assert AllNamed([ns[i]]) == Named(ns[i]) by {
      assert [ns[i]][1..] == [];
    }
    hide AllNamed, Named;
    AllNamedConcat(ns[..i], [ns[i]]);
    AllNamedConcat(ns[..i + 1], ns[i + 1..]);
    assert ns[..i + 1] == ns[..i] + [ns[i]] && ns == ns[..i + 1] + ns[i + 1..];
  }

  lemma OneMoreDecl(ds: seq<Decl>, d: Decl, events: set<TypeId>, implements: set<TypeId>)
    ensures NoEarlyStray(ds + [d], implements) <==>
      NoEarlyStray(ds, implements) && (Stray(d) ==> HasLogger(ds, implements))
    ensures Reports(ds + [d], events, implements) == Reports(ds, events, implements) + Report(d, events, implements)
    ensures HasLogger(ds + [d], implements) <==> HasLogger(ds, implements) || IsLogger(d, implements)
  {
    assert (ds + [d])[..|ds|] == ds;
  }

  /** A subset has fewer elements exactly if it lacks one. */
  lemma MissingIsSmaller(events: set<TypeId>, named: set<TypeId>)
    ensures |events - named| <= |events|
    ensures |events - named| == |events| <==> events !! named
  {
    assert events == (events - named) + (events * named);
    assert |events| == |events - named| + |events * named|;
  }

  lemma {:induction false} EarlyStrayStays(ds: seq<Decl>, more: seq<Decl>, implements: set<TypeId>)
    requires !NoEarlyStray(ds, implements)
    ensures !NoEarlyStray(ds + more, implements)
  {
    if more == [] {
      assert ds + more == ds;
    } else {
      assert (ds + more)[..|ds + more| - 1] == ds + more[..|more| - 1];
      EarlyStrayStays(ds, more[..|more| - 1], implements);
    }
  }

  lemma NoDecls(fs: seq<File>, events: set<TypeId>, implements: set<TypeId>)
    ensures Decls(fs[..0]) == []
    ensures NoEarlyStray([], implements) && Reports([], events, implements) == [] && !HasLogger([], implements)
  {
  }

  lemma DeclsNext(fs: seq<File>, i: nat)
    requires i < |fs|
    ensures Decls(fs[..i + 1]) == Decls(fs[..i]) + if IsTestFile(fs[i].name) then [] else fs[i].decls
  {
    assert fs[..i + 1][..i] == fs[..i];
  }

  lemma {:induction false} DeclsSplit(fs: seq<File>, i: nat)
    requires i <= |fs|
    ensures Decls(fs) == Decls(fs[..i]) + Decls(fs[i..])
    decreases |fs|
  {
    if i == |fs| {
      assert fs[..i] == fs;
    } else {
      var before := fs[..|fs| - 1];
      DeclsSplit(before, i);
      assert before[..i] == fs[..i] && fs[i..][..|fs[i..]| - 1] == before[i..];
    }
  }

  /**
   * A diagnostic is reported exactly for each logger that handles at least one event and misses at least
   * one; it names exactly the events that none of its outermost case clauses and type assertions names.
   */
  lemma {:induction false} ReportsExactly(ds: seq<Decl>, events: set<TypeId>, implements: set<TypeId>, x: Diagnostic)
    ensures x in Reports(ds, events, implements) <==>
      exists i :: 0 <= i < |ds| && ReportedFor(ds[i], events, implements, x)
  {
    hide ReportedFor, Report;
    if ds != [] {
      var before, d := ds[..|ds| - 1], ds[|ds| - 1];
      ReportsExactly(before, events, implements, x);
      assert forall i | 0 <= i < |before| :: before[i] == ds[i];
      ReportExactly(d, events, implements, x);
    }
  }

  lemma ReportExactly(d: Decl, events: set<TypeId>, implements: set<TypeId>, x: Diagnostic)
    ensures x in Report(d, events, implements) <==> ReportedFor(d, events, implements, x)
  {
    hide Names;
    if IsLogger(d, implements) {
      var missing := Missing(d, events);
      AllNamedMeans(d.body);
      MissingIsSmaller(events, AllNamed(d.body));
      assert missing != {} <==> exists e :: e in events && !Names(d.body, e) by {
        assert forall e :: e in missing <==> e in events && !Names(d.body, e);
      }
      assert x.missing == missing <==> forall e :: e in x.missing <==> e in events && !Names(d.body, e);
    }
  }

  ghost predicate ReportedFor(d: Decl, events: set<TypeId>, implements: set<TypeId>, x: Diagnostic) {
    && d.FuncDecl? && d.name == "LogEvent"
    && d.recv == Some(Some(x.logger)) && x.logger in implements && x.pos == d.pos
    && (forall e :: e in x.missing <==> e in events && !Names(d.body, e))
    && (exists e :: e in events && Names(d.body, e))
    && (exists e :: e in events && !Names(d.body, e))
  }

  /** Reported for a declaration of a file that is not a test. */
  ghost predicate ReportedIn(fs: seq<File>, events: set<TypeId>, implements: set<TypeId>, x: Diagnostic) {
    exists i, j | 0 <= i < |fs| && 0 <= j < |fs[i].decls| ::
      ReportedFor(fs[i].decls[j], events, implements, x) && !HasSuffix(fs[i].name, "_test.go")
  }

  ghost predicate HasSuffix(s: string, suffix: string) {
    exists k | 0 <= k <= |s| :: s[k..] == suffix
  }

  lemma TestFileMeans(name: string)
    ensures IsTestFile(name) <==> HasSuffix(name, "_test.go")
  {
    if |name| >= 8 {
      assert forall k | 0 <= k <= |name| :: |name[k..]| == |name| - k;
    }
  }

  lemma {:induction false} DeclsMeans(fs: seq<File>, d: Decl)
    ensures d in Decls(fs) <==> exists i :: 0 <= i < |fs| && d in fs[i].decls && !HasSuffix(fs[i].name, "_test.go")
  {
    hide HasSuffix, IsTestFile;
    if fs != [] {
      var before, last := fs[..|fs| - 1], fs[|fs| - 1];
      DeclsMeans(before, d);
      TestFileMeans(last.name);
      assert forall i | 0 <= i < |before| :: before[i] == fs[i];
    }
  }

  /** What the whole pass reports: exactly for the loggers of files that are not tests. */
  lemma PassReportsExactly(fs: seq<File>, events: set<TypeId>, implements: set<TypeId>, x: Diagnostic)
    ensures x in Reports(Decls(fs), events, implements) <==> ReportedIn(fs, events, implements, x)
  {
    hide Reports, Decls, ReportedFor, HasSuffix;
    var ds := Decls(fs);
    ReportsExactly(ds, events, implements, x);
    if ReportedIn(fs, events, implements, x) {
      var i, j :| 0 <= i < |fs| && 0 <= j < |fs[i].decls| &&
        ReportedFor(fs[i].decls[j], events, implements, x) && !HasSuffix(fs[i].name, "_test.go");
      DeclsMeans(fs, fs[i].decls[j]);
    }
    if k :| 0 <= k < |ds| && ReportedFor(ds[k], events, implements, x) {
      DeclsMeans(fs, ds[k]);
    }
  }

  /** A declaration is stray exactly if it is no function and names some type. */
  lemma StrayMeans(d: Decl)
    ensures Stray(d) <==> d.GenDecl? && exists t :: Names(d.kids, t)
  {
    hide Names;
    if d.GenDecl? {
      AllNamedMeans(d.kids);
      assert AllNamed(d.kids) != {} <==> exists t :: t in AllNamed(d.kids);
    }
  }

  /** The pass fails exactly if some stray declaration has no logger before it. */
  lemma {:induction false} NoEarlyStrayMeans(ds: seq<Decl>, implements: set<TypeId>)
    ensures NoEarlyStray(ds, implements) <==>
      forall i | 0 <= i < |ds| && ds[i].GenDecl? && (exists t :: Names(ds[i].kids, t)) ::
        exists j :: 0 <= j < i && IsLogger(ds[j], implements)
  {
    hide Names, Stray, IsLogger;
    if ds != [] {
      var before := ds[..|ds| - 1];
      StrayMeans(ds[|ds| - 1]);
      NoEarlyStrayMeans(before, implements);
      assert forall i | 0 <= i < |before| :: before[i] == ds[i];
    }
  }

  /** A package-level variable initialized by a type assertion, in a package that has no logger. */
  lemma StrayAssertionFails(t: TypeId)
    ensures !NoEarlyStray(Decls([File("a.go", [GenDecl([TypeAssert(Some(t), [])])])]), {})
  {
    var n := TypeAssert(Some(t), []);
    var d := GenDecl([n]);
    var fs := [File("a.go", [d])];
    assert Decls(fs) == [d] by {
      assert fs[..0] == [];
    }
    assert Stray(d) by {
      assert t in Named(n) && d.kids[0] == n;
    }
    hide Decls, Stray;
    OneMoreDecl([], d, {}, {});
    assert [] + [d] == [d];
  }
}
