/** fx.Extract: choosing the fields of a struct, and scattering injected values back into them. */
module Extract {
  type Value = nat

  /** A struct field; typeName is the name of its type, or of the type it points to. */
  datatype Field = Field(name: string, pkgPath: string, typ: nat, typeName: string, tag: string, anonymous: bool)

  /** A field of the generated parameter struct: the embedded fx.In, or a field named F<index>. */
  datatype ArgField = In | ArgField(index: nat, typ: nat, tag: string)

  datatype TargetType = PointerToStruct(fields: seq<Field>) | OtherType(typ: nat)

  /** What Extract invokes: a function over a generated struct, or an error for a bad target. */
  datatype Extraction = BadTarget(typ: nat) | Extraction(args: seq<ArgField>, targets: seq<nat>)

  /** isUpper is unicode.IsUpper. */
  predicate IsExported(id: string, isUpper: char -> bool) {
    |id| > 0 && isUpper(id[0])
  }

  /** An embedded field counts as exported by its type's name, any other by its package path. */
  predicate Selected(f: Field, isUpper: char -> bool) {
    if f.anonymous then IsExported(f.typeName, isUpper) else f.pkgPath == ""
  }

  /** The indices of the selected fields, in order. */
  function Selection(fields: seq<Field>, isUpper: char -> bool): seq<nat> {
    if fields == [] then []
    else
      var last := |fields| - 1;
      Selection(fields[..last], isUpper) + if Selected(fields[last], isUpper) then [last] else []
  }

  function Arg(fields: seq<Field>, i: nat): ArgField
    requires i < |fields|
  {
    ArgField(i, fields[i].typ, fields[i].tag)
  }

  /** The parameter field after the first and the target at the same position belong to the same field. */
  predicate Aligned(args: seq<ArgField>, targets: seq<nat>, fields: seq<Field>) {
    && |args| == |targets| + 1 && args[0] == In
    && forall j | 0 <= j < |targets| ::
         && targets[j] < |fields|
         && args[j + 1] == ArgField(targets[j], fields[targets[j]].typ, fields[targets[j]].tag)
  }

  /** Builds the parameter fields and the targets, side by side. */
  method Extract(target: TargetType, isUpper: char -> bool) returns (e: Extraction)
    ensures target.OtherType? ==> e == BadTarget(target.typ)
    ensures target.PointerToStruct? ==>
      && e.Extraction?
      && e.targets == Selection(target.fields, isUpper)
      && Aligned(e.args, e.targets, target.fields)
  {
    if target.OtherType? {
      return BadTarget(target.typ);
    }
    var fields := target.fields;
    var args: seq<ArgField>, targets: seq<nat> := [In], [];
    var i := 0;
    assert fields[..0] == [];
    while i < |fields|
      invariant 0 <= i <= |fields|
      invariant targets == Selection(fields[..i], isUpper) && Aligned(args, targets, fields)
    {
      assert fields[..i + 1][..i] == fields[..i];
      if Selected(fields[i], isUpper) {
        args, targets := args + [Arg(fields, i)], targets + [i];
      }
      i := i + 1;
    }
    assert fields[..i] == fields;
    e := Extraction(args, targets);
  }

  /** The index map is injective and ascending, and reaches exactly the selected fields. */
  lemma {:induction false} SelectionIsExact(fields: seq<Field>, isUpper: char -> bool)
    ensures forall j, k | 0 <= j < k < |Selection(fields, isUpper)| ::
      Selection(fields, isUpper)[j] < Selection(fields, isUpper)[k]
    ensures forall i: nat :: i in Selection(fields, isUpper) <==>
      && i < |fields|
      && if fields[i].anonymous then fields[i].typeName != "" && isUpper(fields[i].typeName[0])
         else fields[i].pkgPath == ""
  {
    if fields != [] {
      var last := |fields| - 1;
      SelectionIsExact(fields[..last], isUpper);
      var before := Selection(fields[..last], isUpper);
      assert forall j | 0 <= j < |before| :: before[j] in before;
    }
  }

  /** The generated function: it copies every parameter field after the first to its target. */
  method Scatter(struct: array<Value>, targets: seq<nat>, args: seq<Value>)
    requires |args| == |targets| + 1
    requires forall j | 0 <= j < |targets| :: targets[j] < struct.Length
    requires forall j, k | 0 <= j < k < |targets| :: targets[j] != targets[k]
    modifies struct
    ensures forall j | 0 <= j < |targets| :: struct[targets[j]] == args[j + 1]
    ensures forall i | 0 <= i < struct.Length && i !in targets :: struct[i] == old(struct[i])
  {
    var n := 1;
    while n < |args|
      invariant 1 <= n <= |args|
      invariant forall j | 0 <= j < n - 1 :: struct[targets[j]] == args[j + 1]
      invariant forall i | 0 <= i < struct.Length && i !in targets :: struct[i] == old(struct[i])
    {
      struct[targets[n - 1]] := args[n];
      n := n + 1;
    }
  }

  /** The values the container supplies for the parameter fields. */
  function Supply(args: seq<ArgField>, container: ArgField -> Value): (vs: seq<Value>)
    ensures |vs| == |args|
    ensures forall j | 0 <= j < |vs| :: vs[j] == container(args[j])
  {
    if args == [] then [] else [container(args[0])] + Supply(args[1..], container)
  }

  /**
   * Extracting into a struct: afterwards every embedded field whose type has an exported name, and every other
   * exported field, holds the value the container supplied for its type and tag; any other field is as it was.
   */
  method ExtractInto(struct: array<Value>, fields: seq<Field>, isUpper: char -> bool, container: ArgField -> Value)
    requires struct.Length == |fields|
    modifies struct
    ensures forall i | 0 <= i < |fields| ::
      var f := fields[i];
      struct[i] ==
      if (if f.anonymous then f.typeName != "" && isUpper(f.typeName[0]) else f.pkgPath == "")
      then container(ArgField(i, f.typ, f.tag)) else old(struct[i])
  {
    var e := Extract(PointerToStruct(fields), isUpper);
    SelectionIsExact(fields, isUpper);
    Scatter(struct, e.targets, Supply(e.args, container));
    forall i | 0 <= i < |fields|
      ensures struct[i] == if Selected(fields[i], isUpper) then container(Arg(fields, i)) else old(struct[i])
    {
      if Selected(fields[i], isUpper) {
        assert i in e.targets;
        var j :| 0 <= j < |e.targets| && e.targets[j] == i;
        assert struct[e.targets[j]] == Supply(e.args, container)[j + 1];
      } else {
        assert i !in e.targets;
      }
    }
  }
}
