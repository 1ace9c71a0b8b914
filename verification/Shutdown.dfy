/** Done channels and the broadcast of a shutdown signal to all of them. */
module Shutdown {
  import opened Errors

  type Signal = nat

  // ----- One broadcast -----

  /** A channel of capacity one. */
  class Channel {
    var buf: Option<Signal>

    constructor ()
      ensures buf == None
    {
      buf := None;
    }

    /** Sends without blocking: a full channel keeps what it holds. */
    method TrySend(signal: Signal) returns (sent: bool)
      modifies this
      ensures sent <==> old(buf).None?
      ensures buf == if sent then Some(signal) else old(buf)
    {
      sent := buf.None?;
      if sent {
        buf := Some(signal);
      }
    }
  }

  /** What each channel holds after a signal was offered to it. */
  function Fill(bufs: seq<Option<Signal>>, signal: Signal): (r: seq<Option<Signal>>)
    ensures |r| == |bufs|
    ensures forall c | 0 <= c < |r| :: r[c] == if bufs[c].Some? then bufs[c] else Some(signal)
  {
    if bufs == [] then []
    else
      Fill(bufs[..|bufs| - 1], signal) +
      [if bufs[|bufs| - 1].Some? then bufs[|bufs| - 1] else Some(signal)]
  }

  function NumFull(bufs: seq<Option<Signal>>): (n: nat)
    ensures n <= |bufs|
  {
    if bufs == [] then 0
    else NumFull(bufs[..|bufs| - 1]) + if bufs[|bufs| - 1].Some? then 1 else 0
  }

  lemma NoneFull(bufs: seq<Option<Signal>>)
    ensures NumFull(bufs[..0]) == 0
  {
  }

  lemma NumFullNext(bufs: seq<Option<Signal>>, i: nat)
    requires i < |bufs|
    ensures NumFull(bufs[..i + 1]) == NumFull(bufs[..i]) + if bufs[i].Some? then 1 else 0
  {
    assert bufs[..i + 1][..i] == bufs[..i];
  }

  /** How many channels did not take the signal, out of how many. */
  datatype BroadcastError = BroadcastError(signal: Signal, unsent: nat, total: nat)

  class Dones {
    var channels: seq<Channel>

    ghost predicate Valid()
      reads this
    {
      forall i, j | 0 <= i < j < |channels| :: channels[i] != channels[j]
    }

    ghost function Buffers(): (bufs: seq<Option<Signal>>)
      reads this, channels
      ensures |bufs| == |channels|
      ensures forall i | 0 <= i < |bufs| :: bufs[i] == channels[i].buf
    {
      seq(|channels|, i requires 0 <= i < |channels| reads this, channels => channels[i].buf)
    }

    constructor ()
      ensures Valid() && channels == []
    {
      channels := [];
    }

    /** Registers a new empty channel. */
    method Done() returns (c: Channel)
      requires Valid()
      modifies this
      ensures Valid() && fresh(c) && c.buf == None && channels == old(channels) + [c]
    {
      c := new Channel();
      channels := channels + [c];
    }

    /** Offers the signal to every channel, and reports how many were still full. */
    method BroadcastSignal(signal: Signal) returns (err: Option<BroadcastError>)
      requires Valid()
      modifies channels
      ensures channels == old(channels)
      ensures Buffers() == Fill(old(Buffers()), signal)
      ensures err ==
        if NumFull(old(Buffers())) == 0 then None
        else Some(BroadcastError(signal, NumFull(old(Buffers())), |channels|))
    {
      var unsent := OfferAll(signal);
      if unsent != 0 {
        return Some(BroadcastError(signal, unsent, |channels|));
      }
      return None;
    }

    /** The loop of BroadcastSignal. */
    method OfferAll(signal: Signal) returns (unsent: nat)
      requires Valid()
      modifies channels
      ensures channels == old(channels)
      ensures Buffers() == Fill(old(Buffers()), signal)
      ensures unsent == NumFull(old(Buffers()))
    {
      hide Fill, NumFull;
      ghost var bufs := Buffers();
      unsent := 0;
      var i := 0;
      NoneFull(bufs);
      while i < |channels|
        invariant 0 <= i <= |channels|
        invariant forall j | 0 <= j < i :: channels[j].buf == Fill(bufs, signal)[j]
        invariant forall j | i <= j < |channels| :: channels[j].buf == bufs[j]
        invariant unsent == NumFull(bufs[..i])
      {
        var sent := channels[i].TrySend(signal);
        if !sent {
          unsent := unsent + 1;
        }
        NumFullNext(bufs, i);
        i := i + 1;
      }
      assert bufs[..i] == bufs;
    }
  }

  // ----- Many broadcasts at once -----

  /** A channel, with everything ever accepted into it and received from it. */
  datatype Chan = Chan(buf: Option<Signal>, accepted: seq<Signal>, received: seq<Signal>) {
    function Offer(signal: Signal): Chan {
      if buf.Some? then this else this.(buf := Some(signal), accepted := accepted + [signal])
    }

    function Take(): Chan
      requires buf.Some?
    {
      this.(buf := None, received := received + [buf.value])
    }
  }

  /** A call of broadcastSignal: it offered its signal to the first pos of total channels. */
  datatype Broadcaster = Broadcaster(signal: Signal, pos: nat, unsent: nat, total: nat)

  datatype System = System(chans: seq<Chan>, broadcasters: seq<Broadcaster>, osAccepted: nat)

  datatype Action =
    | Register                          // Done
    | Begin(signal: Signal)             // a call of broadcastSignal takes the read lock
    | Offer(b: nat)                     // a broadcaster goes on to its next channel
    | Deliver(c: nat, signal: Signal)   // the operating system
    | Receive(c: nat)

  predicate Active(b: Broadcaster) {
    b.pos < b.total
  }

  /** Done needs the write lock, so it waits for all broadcasters, who share the read lock. */
  predicate Enabled(s: System, a: Action) {
    match a
    case Register => forall b | 0 <= b < |s.broadcasters| :: !Active(s.broadcasters[b])
    case Begin(_) => true
    case Offer(b) => b < |s.broadcasters| && Active(s.broadcasters[b]) && s.broadcasters[b].pos < |s.chans|
    case Deliver(c, _) => c < |s.chans|
    case Receive(c) => c < |s.chans| && s.chans[c].buf.Some?
  }

  function Act(s: System, a: Action): System
    requires Enabled(s, a)
  {
    match a
    case Register => s.(chans := s.chans + [Chan(None, [], [])])
    case Begin(signal) => s.(broadcasters := s.broadcasters + [Broadcaster(signal, 0, 0, |s.chans|)])
    case Offer(i) =>
      var b := s.broadcasters[i];
      var c := s.chans[b.pos];
      var b' := b.(pos := b.pos + 1, unsent := b.unsent + if c.buf.Some? then 1 else 0);
      s.(chans := s.chans[b.pos := c.Offer(b.signal)], broadcasters := s.broadcasters[i := b'])
    case Deliver(i, signal) =>
      var c := s.chans[i];
      s.(chans := s.chans[i := c.Offer(signal)], osAccepted := s.osAccepted + if c.buf.Some? then 0 else 1)
    case Receive(i) => s.(chans := s.chans[i := s.chans[i].Take()])
  }

  predicate CanRun(s: System, acts: seq<Action>)
    decreases |acts|
  {
    acts == [] || (Enabled(s, acts[0]) && CanRun(Act(s, acts[0]), acts[1..]))
  }

  function Run(s: System, acts: seq<Action>): System
    requires CanRun(s, acts)
    decreases |acts|
  {
    if acts == [] then s else Run(Act(s, acts[0]), acts[1..])
  }

  // ----- Sums -----

  function Sum<T>(xs: seq<T>, f: T -> nat): nat {
    if xs == [] then 0 else Sum(xs[..|xs| - 1], f) + f(xs[|xs| - 1])
  }

  lemma {:induction false} SumUpdate<T>(xs: seq<T>, i: nat, x: T, f: T -> nat)
    requires i < |xs|
    ensures Sum(xs[i := x], f) + f(xs[i]) == Sum(xs, f) + f(x)
  {
    var before := xs[..|xs| - 1];
    if i == |xs| - 1 {
      assert xs[i := x][..|xs| - 1] == before;
    } else {
      assert xs[i := x][..|xs| - 1] == before[i := x];
      SumUpdate(before, i, x, f);
    }
  }

  lemma SumAppend<T>(xs: seq<T>, x: T, f: T -> nat)
    ensures Sum(xs + [x], f) == Sum(xs, f) + f(x)
  {
    assert (xs + [x])[..|xs|] == xs;
  }

  lemma {:induction false} SumOfConstant<T>(xs: seq<T>, f: T -> nat, k: nat)
    requires forall i | 0 <= i < |xs| :: f(xs[i]) == k
    ensures Sum(xs, f) == |xs| * k
  {
    if xs != [] {
      SumOfConstant(xs[..|xs| - 1], f, k);
    }
  }

  function Accepted(c: Chan): nat { |c.accepted| }
  function Received(c: Chan): nat { |c.received| }
  function Pending(c: Chan): nat { if c.buf.Some? then 1 else 0 }
  function Position(b: Broadcaster): nat { b.pos }
  function Unsent(b: Broadcaster): nat { b.unsent }

  // ----- Every interleaving -----

  /** A channel has delivered what it accepted, in order, except for the one signal it may still hold. */
  predicate Faithful(c: Chan) {
    c.accepted == c.received + AsSeq(c.buf)
  }

  function AsSeq(buf: Option<Signal>): seq<Signal> {
    if buf.Some? then [buf.value] else []
  }

  predicate InBounds(b: Broadcaster, numChans: nat) {
    b.unsent <= b.pos <= b.total <= numChans && (Active(b) ==> b.total == numChans)
  }

  ghost predicate Inv(s: System) {
    && (forall c | 0 <= c < |s.chans| :: Faithful(s.chans[c]))
    && (forall b | 0 <= b < |s.broadcasters| :: InBounds(s.broadcasters[b], |s.chans|))
    && (forall b | 0 <= b < |s.broadcasters| ::
          forall c | 0 <= c < s.broadcasters[b].pos :: s.chans[c].accepted != [])
    && Sum(s.broadcasters, Position) + s.osAccepted == Sum(s.chans, Accepted) + Sum(s.broadcasters, Unsent)
  }

  /** The books stay balanced when a broadcaster goes on. */
  lemma OfferKeepsBalance(s: System, i: nat)
    requires Enabled(s, Offer(i))
    ensures
      var s' := Act(s, Offer(i));
      Sum(s'.broadcasters, Position) + Sum(s.chans, Accepted) + Sum(s.broadcasters, Unsent) ==
      Sum(s.broadcasters, Position) + Sum(s'.chans, Accepted) + Sum(s'.broadcasters, Unsent)
  {
    var b, s' := s.broadcasters[i], Act(s, Offer(i));
    var b' := s'.broadcasters[i];
    SumUpdate(s.broadcasters, i, b', Position);
    SumUpdate(s.broadcasters, i, b', Unsent);
    SumUpdate(s.chans, b.pos, s'.chans[b.pos], Accepted);
  }

  lemma OfferKeepsInv(s: System, i: nat)
    requires Inv(s) && Enabled(s, Offer(i))
    ensures Inv(Act(s, Offer(i)))
  {
    hide Sum;
    OfferKeepsBalance(s, i);
  }

  lemma RegisterKeepsInv(s: System)
    requires Inv(s) && Enabled(s, Register)
    ensures Inv(Act(s, Register))
  {
    SumAppend(s.chans, Chan(None, [], []), Accepted);
  }

  lemma BeginKeepsInv(s: System, signal: Signal)
    requires Inv(s)
    ensures Inv(Act(s, Begin(signal)))
  {
    SumAppend(s.broadcasters, Broadcaster(signal, 0, 0, |s.chans|), Position);
    SumAppend(s.broadcasters, Broadcaster(signal, 0, 0, |s.chans|), Unsent);
  }

  lemma ChannelKeepsInv(s: System, a: Action)
    requires Inv(s) && Enabled(s, a) && (a.Deliver? || a.Receive?)
    ensures Inv(Act(s, a))
  {
    SumUpdate(s.chans, a.c, Act(s, a).chans[a.c], Accepted);
  }

  lemma ActKeepsInv(s: System, a: Action)
    requires Inv(s) && Enabled(s, a)
    ensures Inv(Act(s, a))
  {
    hide Inv;
    match a
    case Register => RegisterKeepsInv(s);
    case Begin(signal) => BeginKeepsInv(s, signal);
    case Offer(i) => OfferKeepsInv(s, i);
    case Deliver(_, _) => ChannelKeepsInv(s, a);
    case Receive(_) => ChannelKeepsInv(s, a);
  }

  lemma NothingYet()
    ensures Inv(System([], [], 0))
  {
  }

  lemma {:induction false} RunKeepsInv(s: System, acts: seq<Action>)
    requires Inv(s) && CanRun(s, acts)
    ensures Inv(Run(s, acts))
    decreases |acts|
  {
    if acts != [] {
      ActKeepsInv(s, acts[0]);
      RunKeepsInv(Act(s, acts[0]), acts[1..]);
    }
  }

  lemma {:induction false} RunAppended(s: System, acts: seq<Action>, a: Action)
    requires CanRun(s, acts)
    ensures CanRun(s, acts + [a]) <==> Enabled(Run(s, acts), a)
    ensures Enabled(Run(s, acts), a) ==> Run(s, acts + [a]) == Act(Run(s, acts), a)
    decreases |acts|
  {
    var all := acts + [a];
    hide Act, Enabled;
    if acts == [] {
      assert all[0] == a && all[1..] == [];
    } else {
      assert all[0] == acts[0] && all[1..] == acts[1..] + [a];
      RunAppended(Act(s, acts[0]), acts[1..], a);
    }
  }

  /**
   * Whatever happened so far, broadcasts begin and go on at any time, whoever else broadcasts, signals arrive
   * at any time, a full channel can be received from, and Done waits only until no broadcast is under way.
   */
  lemma WhatCanHappen(acts: seq<Action>, a: Action)
    requires CanRun(System([], [], 0), acts)
    ensures
      var s := Run(System([], [], 0), acts);
      CanRun(System([], [], 0), acts + [a]) <==>
      match a
      case Register => forall b | 0 <= b < |s.broadcasters| :: s.broadcasters[b].pos == s.broadcasters[b].total
      case Begin(_) => true
      case Offer(b) => b < |s.broadcasters| && s.broadcasters[b].pos < s.broadcasters[b].total
      case Deliver(c, _) => c < |s.chans|
      case Receive(c) => c < |s.chans| && s.chans[c].buf.Some?
  {
    hide Run, CanRun, Sum;
    NothingYet();
    RunKeepsInv(System([], [], 0), acts);
    RunAppended(System([], [], 0), acts, a);
    var s := Run(System([], [], 0), acts);
    assert forall b | 0 <= b < |s.broadcasters| :: InBounds(s.broadcasters[b], |s.chans|);
  }

  lemma {:induction false} AcceptedIsReceivedPlusPending(chans: seq<Chan>)
    requires forall c | 0 <= c < |chans| :: Faithful(chans[c])
    ensures Sum(chans, Accepted) == Sum(chans, Received) + Sum(chans, Pending)
  {
    if chans != [] {
      assert Faithful(chans[|chans| - 1]);
      AcceptedIsReceivedPlusPending(chans[..|chans| - 1]);
    }
  }

  /**
   * Signals are conserved under every interleaving of broadcasters, the operating system, receivers and
   * registrations: every channel delivers exactly what it accepted, in order, and the accepted sends are
   * the receives plus the channels that are full. A broadcaster's accepted sends are the channels it
   * visited less those it reports as unsent.
   */
  lemma SignalsAreConserved(acts: seq<Action>)
    requires CanRun(System([], [], 0), acts)
    ensures
      var s := Run(System([], [], 0), acts);
      && (forall c | 0 <= c < |s.chans| :: Faithful(s.chans[c]))
      && Sum(s.broadcasters, Position) - Sum(s.broadcasters, Unsent) + s.osAccepted ==
           Sum(s.chans, Received) + Sum(s.chans, Pending)
  {
    NothingYet();
    RunKeepsInv(System([], [], 0), acts);
    AcceptedIsReceivedPlusPending(Run(System([], [], 0), acts).chans);
  }

  /** A pending signal is never overwritten: only receiving it changes a full channel. */
  lemma PendingIsKept(s: System, a: Action, c: nat)
    requires Enabled(s, a) && c < |s.chans| && s.chans[c].buf.Some?
    ensures c < |Act(s, a).chans|
    ensures Act(s, a).chans[c].buf == s.chans[c].buf <==> a != Receive(c)
  {
  }

  /** An empty channel takes whatever is offered to it, by a broadcaster or the operating system, and no more. */
  lemma EmptyIsFilled(s: System, a: Action, c: nat)
    requires Enabled(s, a) && c < |s.chans| && s.chans[c].buf.None?
    ensures c < |Act(s, a).chans|
    ensures
      var taken := Act(s, a).chans[c].buf;
      if a.Deliver? && a.c == c then taken == Some(a.signal)
      else if a.Offer? && s.broadcasters[a.b].pos == c then taken == Some(s.broadcasters[a.b].signal)
      else taken == None
  {
  }

  lemma {:induction false} AllPending(chans: seq<Chan>)
    requires forall c | 0 <= c < |chans| :: Faithful(chans[c]) && chans[c].received == [] && chans[c].accepted != []
    ensures Sum(chans, Accepted) == |chans|
  {
    if chans != [] {
      assert Faithful(chans[|chans| - 1]);
      AllPending(chans[..|chans| - 1]);
    }
  }

  /** Some broadcaster offered the signal. */
  ghost predicate Offered(s: System, signal: Signal) {
    exists b | 0 <= b < |s.broadcasters| :: s.broadcasters[b].signal == signal
  }

  /** Without deliveries by the operating system channels accept only what broadcasters offer. */
  ghost predicate AcceptsOffered(s: System) {
    s.osAccepted == 0 ==>
      forall c, i | 0 <= c < |s.chans| && 0 <= i < |s.chans[c].accepted| :: Offered(s, s.chans[c].accepted[i])
  }

  lemma ActKeepsOffered(s: System, a: Action, signal: Signal)
    requires Enabled(s, a) && Offered(s, signal)
    ensures Offered(Act(s, a), signal)
  {
    var b :| 0 <= b < |s.broadcasters| && s.broadcasters[b].signal == signal;
    assert Act(s, a).broadcasters[b].signal == signal;
  }

  lemma ActKeepsAcceptsOffered(s: System, a: Action)
    requires Enabled(s, a) && AcceptsOffered(s)
    ensures AcceptsOffered(Act(s, a))
  {
    var s' := Act(s, a);
    if s'.osAccepted == 0 {
      forall c, i | 0 <= c < |s'.chans| && 0 <= i < |s'.chans[c].accepted|
        ensures Offered(s', s'.chans[c].accepted[i])
      {
        if c < |s.chans| && i < |s.chans[c].accepted| {
          ActKeepsOffered(s, a, s.chans[c].accepted[i]);
        } else {
          assert s'.broadcasters[a.b].signal == s'.chans[c].accepted[i];
        }
      }
    }
  }

  lemma {:induction false} RunKeepsAcceptsOffered(s: System, acts: seq<Action>)
    requires CanRun(s, acts) && AcceptsOffered(s)
    ensures AcceptsOffered(Run(s, acts))
    decreases |acts|
  {
    if acts != [] {
      hide AcceptsOffered;
      ActKeepsAcceptsOffered(s, acts[0]);
      RunKeepsAcceptsOffered(Act(s, acts[0]), acts[1..]);
    }
  }

  /** Every broadcaster visited every channel, and nothing else happened to the channels. */
  ghost predicate OnlyBroadcasts(s: System) {
    && s.osAccepted == 0 && s.broadcasters != []
    && (forall b | 0 <= b < |s.broadcasters| :: s.broadcasters[b].pos == |s.chans|)
    && (forall c | 0 <= c < |s.chans| :: s.chans[c].received == [])
  }

  lemma OnlyBroadcastsCount(s: System)
    requires Inv(s) && OnlyBroadcasts(s)
    ensures Sum(s.broadcasters, Unsent) + |s.chans| == |s.broadcasters| * |s.chans|
    ensures forall c | 0 <= c < |s.chans| :: |s.chans[c].accepted| == 1
  {
    hide Sum;
    SumOfConstant(s.broadcasters, Position, |s.chans|);
    assert s.broadcasters[0].pos == |s.chans|;
    AllPending(s.chans);
  }

  /**
   * k broadcasters over n channels that start empty: when all have returned and nothing was received or
   * delivered by the operating system, together they report (k - 1) * n unsent signals, whatever the
   * interleaving. Each channel took exactly one signal, that of one of them.
   */
  lemma ConcurrentBroadcastsCount(acts: seq<Action>)
    requires CanRun(System([], [], 0), acts) && OnlyBroadcasts(Run(System([], [], 0), acts))
    ensures
      var s := Run(System([], [], 0), acts);
      && Sum(s.broadcasters, Unsent) == (|s.broadcasters| - 1) * |s.chans|
      && forall c | 0 <= c < |s.chans| ::
           |s.chans[c].accepted| == 1 && Offered(s, s.chans[c].accepted[0])
  {
    hide Run, CanRun, Inv, Sum, Offered;
    NothingYet();
    RunKeepsInv(System([], [], 0), acts);
    RunKeepsAcceptsOffered(System([], [], 0), acts);
    OnlyBroadcastsCount(Run(System([], [], 0), acts));
  }

  // ----- One broadcast among the many -----

  function Buffers(chans: seq<Chan>): (bufs: seq<Option<Signal>>)
    ensures |bufs| == |chans|
    ensures forall c | 0 <= c < |bufs| :: bufs[c] == chans[c].buf
  {
    if chans == [] then [] else Buffers(chans[..|chans| - 1]) + [chans[|chans| - 1].buf]
  }

  /** Broadcaster i runs to its end with nothing happening in between. */
  function Finish(s: System, i: nat): System
    requires i < |s.broadcasters| && s.broadcasters[i].total <= |s.chans|
    decreases s.broadcasters[i].total - s.broadcasters[i].pos
  {
    if Active(s.broadcasters[i]) then Finish(Act(s, Offer(i)), i) else s
  }

  lemma {:induction false} FinishFills(s: System, i: nat, bufs: seq<Option<Signal>>)
    requires i < |s.broadcasters| && s.broadcasters[i].pos <= s.broadcasters[i].total == |s.chans| == |bufs|
    requires
      var b := s.broadcasters[i];
      && b.unsent == NumFull(bufs[..b.pos])
      && (forall c | 0 <= c < b.pos :: s.chans[c].buf == Fill(bufs, b.signal)[c])
      && forall c | b.pos <= c < |bufs| :: s.chans[c].buf == bufs[c]
    ensures
      var s', signal := Finish(s, i), s.broadcasters[i].signal;
      && Buffers(s'.chans) == Fill(bufs, signal)
      && i < |s'.broadcasters| && s'.broadcasters[i].unsent == NumFull(bufs)
    decreases s.broadcasters[i].total - s.broadcasters[i].pos
  {
    var b := s.broadcasters[i];
    if Active(b) {
      assert bufs[..b.pos + 1][..b.pos] == bufs[..b.pos];
      FinishFills(Act(s, Offer(i)), i, bufs);
    } else {
      assert bufs[..b.pos] == bufs;
    }
  }

  /** Undisturbed, a broadcaster does what BroadcastSignal promises: it is the same broadcast. */
  lemma UndisturbedBroadcast(s: System, signal: Signal)
    ensures
      var begun, i := Act(s, Begin(signal)), |s.broadcasters|;
      var s' := Finish(begun, i);
      && Buffers(s'.chans) == Fill(Buffers(s.chans), signal)
      && i < |s'.broadcasters| && s'.broadcasters[i].unsent == NumFull(Buffers(s.chans))
  {
    assert Buffers(s.chans)[..0] == [];
    FinishFills(Act(s, Begin(signal)), |s.broadcasters|, Buffers(s.chans));
  }
}
