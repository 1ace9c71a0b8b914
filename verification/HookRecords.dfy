/** Sorting hook records for a timeout report, through Len, Less and Swap alone. */
module HookRecords {
  import opened Events

  /** Longer runtimes come first. */
  predicate Less(rs: seq<HookRecord>, i: nat, j: nat)
    requires i < |rs| && j < |rs|
  {
    rs[i].runtime > rs[j].runtime
  }

  /** Neither of two records comes first. */
  predicate Tied(rs: seq<HookRecord>, i: nat, j: nat)
    requires i < |rs| && j < |rs|
  {
    !Less(rs, i, j) && !Less(rs, j, i)
  }

  /**
   * Less is a strict weak order, as sorting algorithms require: records are tied exactly if they took equally
   * long, and of two others the one that took longer comes first.
   */
  lemma LessIsStrictWeakOrder(rs: seq<HookRecord>, i: nat, j: nat, k: nat)
    requires i < |rs| && j < |rs| && k < |rs|
    ensures !Less(rs, i, i)
    ensures Less(rs, i, j) && Less(rs, j, k) ==> Less(rs, i, k)
    ensures Tied(rs, i, j) && Tied(rs, j, k) ==> Tied(rs, i, k)
    ensures Tied(rs, i, j) <==> rs[i].runtime == rs[j].runtime
    ensures !Tied(rs, i, j) ==> (Less(rs, i, j) <==> rs[j].runtime < rs[i].runtime)
  {
  }

  /** Runtimes never increase. */
  ghost predicate Sorted(rs: seq<HookRecord>) {
    forall i, j | 0 <= i < j < |rs| :: rs[i].runtime >= rs[j].runtime
  }

  /** That is what a sort through Less achieves: no record comes before an earlier one. */
  lemma SortedThroughLess(rs: seq<HookRecord>)
    ensures Sorted(rs) <==> forall i, j | 0 <= i < j < |rs| :: !Less(rs, j, i)
  {
    if forall i, j | 0 <= i < j < |rs| :: !Less(rs, j, i) {
      forall i, j | 0 <= i < j < |rs|
        ensures rs[i].runtime >= rs[j].runtime
      {
        assert !Less(rs, j, i);
      }
    }
  }

  predicate InOrder(rs: seq<HookRecord>, m: nat)
    requires m + 1 < |rs|
  {
    !Less(rs, m + 1, m)
  }

  /** No record is less than the one right before it: what a sorting algorithm can check with Less. */
  ghost predicate NoInversion(rs: seq<HookRecord>) {
    forall m | 0 <= m < |rs| - 1 :: InOrder(rs, m)
  }

  function Swapped(rs: seq<HookRecord>, i: nat, j: nat): seq<HookRecord>
    requires i < |rs| && j < |rs|
  {
    rs[i := rs[j]][j := rs[i]]
  }

  method Swap(a: array<HookRecord>, i: nat, j: nat)
    requires i < a.Length && j < a.Length
    modifies a
    ensures a[..] == Swapped(old(a[..]), i, j)
  {
    a[i], a[j] := a[j], a[i];
  }

  lemma SwappedIsPermutation(rs: seq<HookRecord>, i: nat, j: nat)
    requires i < |rs| && j < |rs|
    ensures multiset(Swapped(rs, i, j)) == multiset(rs)
  {
  }

  /** The result of any sequence of swaps, whoever chooses them. */
  function AfterSwaps(rs: seq<HookRecord>, swaps: seq<(nat, nat)>): (r: seq<HookRecord>)
    requires forall p | p in swaps :: p.0 < |rs| && p.1 < |rs|
    ensures |r| == |rs|
  {
    if swaps == [] then rs
    else
      var last := swaps[|swaps| - 1];
      Swapped(AfterSwaps(rs, swaps[..|swaps| - 1]), last.0, last.1)
  }

  lemma {:induction false} NeighboursSuffice(rs: seq<HookRecord>, i: nat, j: nat)
    requires i < j < |rs|
    requires NoInversion(rs)
    ensures !Less(rs, j, i)
  {
    if i + 1 < j {
      NeighboursSuffice(rs, i, j - 1);
    }
    assert InOrder(rs, j - 1);
  }

  /**
   * Whatever swaps a sorting algorithm makes, once Less holds of no neighbour pair the outcome is a
   * permutation of the input with runtimes that never increase.
   */
  lemma {:induction false} AnySwapSortSorts(rs: seq<HookRecord>, swaps: seq<(nat, nat)>)
    requires forall p | p in swaps :: p.0 < |rs| && p.1 < |rs|
    ensures multiset(AfterSwaps(rs, swaps)) == multiset(rs)
    ensures
      var r := AfterSwaps(rs, swaps);
      NoInversion(r) <==> forall i, j | 0 <= i < j < |r| :: r[i].runtime >= r[j].runtime
  {
    var r := AfterSwaps(rs, swaps);
    if swaps != [] {
      var before, last := swaps[..|swaps| - 1], swaps[|swaps| - 1];
      AnySwapSortSorts(rs, before);
      SwappedIsPermutation(AfterSwaps(rs, before), last.0, last.1);
    }
    if NoInversion(r) {
      forall i, j | 0 <= i < j < |r|
        ensures !Less(r, j, i)
      {
        NeighboursSuffice(r, i, j);
      }
      SortedThroughLess(r);
    }
  }

  /** The records are ordered up to i, except that the one at j may belong further left. */
  ghost predicate Sinking(rs: seq<HookRecord>, j: nat, i: nat)
    requires j <= i < |rs|
  {
    forall p, q | 0 <= p < q <= i && q != j :: !Less(rs, q, p)
  }

  lemma SinkOne(rs: seq<HookRecord>, j: nat, i: nat)
    requires 0 < j <= i < |rs| && Sinking(rs, j, i) && Less(rs, j, j - 1)
    ensures Sinking(Swapped(rs, j, j - 1), j - 1, i)
  {
    var r := Swapped(rs, j, j - 1);
    forall p, q | 0 <= p < q <= i && q != j - 1
      ensures !Less(r, q, p)
    {
      if q == j && p != j - 1 {
        assert !Less(rs, j - 1, p);
      } else if q > j {
        assert !Less(rs, q, j) && !Less(rs, q, j - 1) && !Less(rs, q, p);
      } else if q < j - 1 {
        assert !Less(rs, q, p);
      }
    }
  }

  lemma SortedIsSinking(rs: seq<HookRecord>, i: nat)
    requires i < |rs| && Sorted(rs[..i])
    ensures Sinking(rs, i, i)
  {
    forall p, q | 0 <= p < q < i
      ensures !Less(rs, q, p)
    {
      assert rs[..i][p].runtime >= rs[..i][q].runtime;
    }
  }

  /** A record that does not come before the one to its left has found its place. */
  lemma SunkIsSorted(rs: seq<HookRecord>, j: nat, i: nat)
    requires j <= i < |rs| && Sinking(rs, j, i) && (j > 0 ==> !Less(rs, j, j - 1))
    ensures Sorted(rs[..i + 1])
  {
    var t := rs[..i + 1];
    forall p, q | 0 <= p < q < |t|
      ensures !Less(t, q, p)
    {
      if q != j {
        assert !Less(rs, q, p);
      } else if p < j - 1 {
        assert !Less(rs, j - 1, p);
      }
    }
    SortedThroughLess(t);
  }

  /** An in-place sort that looks at the records only through Less and moves them only through Swap. */
  method Sort(a: array<HookRecord>)
    modifies a
    ensures forall i, j | 0 <= i < j < a.Length :: a[i].runtime >= a[j].runtime
    ensures multiset(a[..]) == multiset(old(a[..]))
  {
    var i := 1;
    while i < a.Length
      invariant 1 <= i
      invariant Sorted(a[..if i <= a.Length then i else a.Length])
      invariant multiset(a[..]) == multiset(old(a[..]))
    {
      SinkIn(a, i);
      i := i + 1;
    }
    assert a[..a.Length] == a[..];
  }

  /** Moves the record at i to its place among the sorted records before it. */
  method SinkIn(a: array<HookRecord>, i: nat)
    requires 0 < i < a.Length && Sorted(a[..i])
    modifies a
    ensures Sorted(a[..i + 1]) && multiset(a[..]) == multiset(old(a[..]))
  {
    hide Sorted, Sinking, Swapped;
    var j := i;
    assert a[..][..i] == a[..i];
    SortedIsSinking(a[..], i);
    while j > 0 && Less(a[..], j, j - 1)
      invariant j <= i && Sinking(a[..], j, i)
      invariant multiset(a[..]) == multiset(old(a[..]))
      decreases j
    {
      SinkOne(a[..], j, i);
      SwappedIsPermutation(a[..], j, j - 1);
      Swap(a, j, j - 1);
      j := j - 1;
    }
    SunkIsSorted(a[..], j, i);
    assert a[..][..i + 1] == a[..i + 1];
  }
}
