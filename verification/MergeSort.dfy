/** The generic list merge sort: a binary counter of LISTSIZE bins of sorted lists. */
module MergeSort {

  const LISTSIZE: nat := 30

  /** Any two elements compare one way or the other. */
  ghost predicate Total<T(!new)>(cmp: (T, T) -> int) {
    forall x, y :: cmp(x, y) <= 0 || cmp(y, x) <= 0
  }

  ghost predicate Transitive<T(!new)>(cmp: (T, T) -> int) {
    forall x, y, z :: cmp(x, y) <= 0 && cmp(y, z) <= 0 ==> cmp(x, z) <= 0
  }

  /** Each element is no greater than the next one. */
  ghost predicate Sorted<T>(cmp: (T, T) -> int, s: seq<T>) {
    forall i :: 0 < i < |s| ==> cmp(s[i - 1], s[i]) <= 0
  }

  function Pow2(n: nat): nat {
    if n == 0 then 1 else 2 * Pow2(n - 1)
  }

  /** All elements of all bins. */
  ghost function Pool<T>(bins: seq<seq<T>>): multiset<T> {
    if bins == [] then multiset{} else Pool(bins[..|bins| - 1]) + multiset(bins[|bins| - 1])
  }

  /** Bin i is empty or holds a sorted list of 2^i elements. */
  ghost predicate Counter<T>(cmp: (T, T) -> int, bins: seq<seq<T>>) {
    forall i :: 0 <= i < |bins| ==> Sorted(cmp, bins[i]) && (bins[i] == [] || |bins[i]| == Pow2(i))
  }

  lemma {:induction false} PoolUpdate<T>(bins: seq<seq<T>>, i: nat, s: seq<T>)
    requires i < |bins|
    ensures Pool(bins[i := s]) + multiset(bins[i]) == Pool(bins) + multiset(s)
  {
    var n := |bins| - 1;
    var b := bins[i := s];
    if i < n {
      assert b[..n] == bins[..n][i := s] && b[n] == bins[n];
      PoolUpdate(bins[..n], i, s);
      calc {
        Pool(b) + multiset(bins[i]);
        (Pool(b[..n]) + multiset(bins[n])) + multiset(bins[i]);
        (Pool(b[..n]) + multiset(bins[..n][i])) + multiset(bins[n]);
        (Pool(bins[..n]) + multiset(s)) + multiset(bins[n]);
        Pool(bins) + multiset(s);
      }
    } else {
      assert b[..n] == bins[..n];
    }
  }

  /** The counter never holds more than 2^k - 1 elements, and exactly that many when every bin is full. */
  lemma {:induction false} PoolSize<T>(cmp: (T, T) -> int, bins: seq<seq<T>>)
    requires Counter(cmp, bins)
    ensures |Pool(bins)| < Pow2(|bins|)
    ensures (forall i :: 0 <= i < |bins| ==> bins[i] != []) ==> |Pool(bins)| == Pow2(|bins|) - 1
  {
    if bins != [] {
      var n := |bins| - 1;
      var b := bins[..n];
      assert Counter(cmp, b) by {
        forall i | 0 <= i < |b| ensures Sorted(cmp, b[i]) && (b[i] == [] || |b[i]| == Pow2(i)) {
          assert b[i] == bins[i];
        }
      }
      PoolSize(cmp, b);
      assert |Pool(bins)| == |Pool(b)| + |bins[n]|;
    }
  }

  lemma {:induction false} PoolEmpty<T>(bins: seq<seq<T>>)
    requires forall i :: 0 <= i < |bins| ==> bins[i] == []
    ensures Pool(bins) == multiset{}
  {
    if bins != [] {
      PoolEmpty(bins[..|bins| - 1]);
    }
  }

  /** The merge of two lists, element by element. */
  function Merged<T>(cmp: (T, T) -> int, a: seq<T>, b: seq<T>): seq<T> {
    if a == [] then b
    else if b == [] then a
    else if cmp(a[0], b[0]) <= 0 then [a[0]] + Merged(cmp, a[1..], b)
    else [b[0]] + Merged(cmp, a, b[1..])
  }

  lemma HeadElements<T>(x: T, s: seq<T>)
    ensures multiset([x] + s) == multiset{x} + multiset(s)
  {
  }

  lemma {:induction false} MergedElements<T>(cmp: (T, T) -> int, a: seq<T>, b: seq<T>)
    ensures multiset(Merged(cmp, a, b)) == multiset(a) + multiset(b)
    decreases |a| + |b|
  {
    if a != [] && b != [] {
      if cmp(a[0], b[0]) <= 0 {
        MergedElements(cmp, a[1..], b);
        HeadElements(a[0], Merged(cmp, a[1..], b));
        HeadElements(a[0], a[1..]);
        assert a == [a[0]] + a[1..];
      } else {
        MergedElements(cmp, a, b[1..]);
        HeadElements(b[0], Merged(cmp, a, b[1..]));
        HeadElements(b[0], b[1..]);
        assert b == [b[0]] + b[1..];
      }
    }
  }

  lemma {:induction false} MergedSorted<T(!new)>(cmp: (T, T) -> int, a: seq<T>, b: seq<T>)
    requires Total(cmp) && Sorted(cmp, a) && Sorted(cmp, b)
    ensures Sorted(cmp, Merged(cmp, a, b))
    decreases |a| + |b|
  {
    if a != [] && b != [] {
      if cmp(a[0], b[0]) <= 0 {
        MergedSorted(cmp, a[1..], b);
      } else {
        MergedSorted(cmp, a, b[1..]);
      }
    }
  }

  /** merge: relinks one node at a time. */
  method Merge<T>(cmp: (T, T) -> int, a0: seq<T>, b0: seq<T>) returns (head: seq<T>)
    ensures head == Merged(cmp, a0, b0)
  {
    var a, b := a0, b0;
    head := [];
    while a != [] && b != []
      invariant head + Merged(cmp, a, b) == Merged(cmp, a0, b0)
      decreases |a| + |b|
    {
      if cmp(a[0], b[0]) <= 0 {
        head, a := head + [a[0]], a[1..];
      } else {
        head, b := head + [b[0]], b[1..];
      }
    }
    head := head + (if a != [] then a else b);
  }

  /** One carry of the counter from bin i: full bins below the last one are merged into
      `ep` and emptied, and what results replaces the bin where the carry stops. */
  function Carried<T>(cmp: (T, T) -> int, bins: seq<seq<T>>, ep: seq<T>, i: nat): seq<seq<T>>
    requires i < |bins|
    decreases |bins| - i
  {
    if i < |bins| - 1 && bins[i] != [] then
      Carried(cmp, bins[i := []], Merged(cmp, ep, bins[i]), i + 1)
    else
      bins[i := ep]
  }

  lemma {:induction false} CarriedCounter<T(!new)>(cmp: (T, T) -> int, bins: seq<seq<T>>, ep: seq<T>, i: nat)
    requires Total(cmp) && i < |bins| && Counter(cmp, bins)
    requires Sorted(cmp, ep) && |ep| == Pow2(i)
    ensures |Carried(cmp, bins, ep, i)| == |bins|
    ensures Counter(cmp, Carried(cmp, bins, ep, i))
    decreases |bins| - i
  {
    if i < |bins| - 1 && bins[i] != [] {
      MergedSorted(cmp, ep, bins[i]);
      MergedElements(cmp, ep, bins[i]);
      assert |Merged(cmp, ep, bins[i])| == |multiset(Merged(cmp, ep, bins[i]))|;
      CarriedCounter(cmp, bins[i := []], Merged(cmp, ep, bins[i]), i + 1);
    }
  }

  /** A carry conserves the elements unless it has to overwrite the last bin. */
  lemma {:induction false} CarriedPool<T(!new)>(cmp: (T, T) -> int, bins: seq<seq<T>>, ep: seq<T>, i: nat)
    requires i < |bins|
    ensures Pool(Carried(cmp, bins, ep, i)) <= Pool(bins) + multiset(ep)
    ensures (exists k :: i <= k < |bins| && bins[k] == []) ==>
              Pool(Carried(cmp, bins, ep, i)) == Pool(bins) + multiset(ep)
    decreases |bins| - i
  {
    if i < |bins| - 1 && bins[i] != [] {
      var b, e := bins[i := []], Merged(cmp, ep, bins[i]);
      PoolUpdate(bins, i, []);
      MergedElements(cmp, ep, bins[i]);
      CarriedPool(cmp, b, e, i + 1);
      assert Pool(b) + multiset(e) == Pool(bins) + multiset(ep) by {
        assert Pool(b) + (multiset(ep) + multiset(bins[i])) == (Pool(b) + multiset(bins[i])) + multiset(ep);
      }
      if k :| i <= k < |bins| && bins[k] == [] {
        assert b[k] == [];
      }
    } else {
      PoolUpdate(bins, i, ep);
    }
  }

  method Carry<T>(cmp: (T, T) -> int, bins: array<seq<T>>, x: T)
    requires bins.Length == LISTSIZE
    modifies bins
    ensures bins[..] == Carried(cmp, old(bins[..]), [x], 0)
  {
    var ep := [x];
    var i := 0;
    while i < LISTSIZE - 1 && bins[i] != []
      invariant 0 <= i < LISTSIZE
      invariant Carried(cmp, bins[..], ep, i) == Carried(cmp, old(bins[..]), [x], 0)
    {
      ghost var before := bins[..];
      ep := Merge(cmp, ep, bins[i]);
      bins[i] := [];
      assert bins[..] == before[i := []];
      i := i + 1;
    }
    ghost var before := bins[..];
    bins[i] := ep;
    assert bins[..] == before[i := ep];
  }

  /** What one more element does to the counter. */
  lemma CarryStep<T(!new)>(cmp: (T, T) -> int, bins: seq<seq<T>>, x: T)
    requires Total(cmp) && bins != [] && Counter(cmp, bins)
    ensures var b := Carried(cmp, bins, [x], 0);
      && |b| == |bins| && Counter(cmp, b)
      && Pool(b) <= Pool(bins) + multiset{x}
      && (|Pool(bins)| + 1 < Pow2(|bins|) ==> Pool(b) == Pool(bins) + multiset{x})
  {
    CarriedCounter(cmp, bins, [x], 0);
    CarriedPool(cmp, bins, [x], 0);
    PoolSize(cmp, bins);
    assert multiset([x]) == multiset{x};
  }

  /** The final sweep over the bins. */
  method Collect<T(!new)>(cmp: (T, T) -> int, bins: seq<seq<T>>) returns (r: seq<T>)
    requires Total(cmp) && Counter(cmp, bins)
    ensures Sorted(cmp, r) && multiset(r) == Pool(bins)
  {
    r := [];
    for i := 0 to |bins|
      invariant Sorted(cmp, r)
      invariant multiset(r) == Pool(bins[..i])
    {
      assert bins[..i+1][..i] == bins[..i];
      MergedSorted(cmp, bins[i], r);
      MergedElements(cmp, bins[i], r);
      if bins[i] != [] {
        r := Merge(cmp, bins[i], r);
      }
    }
    assert bins[..|bins|] == bins;
  }

  /** The counter after the first k elements: nothing is invented, and nothing is lost while
      k is below the counter's capacity. */
  ghost predicate Consumed<T>(cmp: (T, T) -> int, bins: seq<seq<T>>, list: seq<T>, k: nat)
    requires k <= |list|
  {
    && bins != [] && Counter(cmp, bins)
    && Pool(bins) <= multiset(list[..k])
    && (k < Pow2(|bins|) ==> Pool(bins) == multiset(list[..k]))
  }

  lemma ConsumedStep<T(!new)>(cmp: (T, T) -> int, bins: seq<seq<T>>, list: seq<T>, k: nat)
    requires Total(cmp) && k < |list| && Consumed(cmp, bins, list, k)
    ensures |Carried(cmp, bins, [list[k]], 0)| == |bins|
    ensures Consumed(cmp, Carried(cmp, bins, [list[k]], 0), list, k + 1)
  {
    CarryStep(cmp, bins, list[k]);
    PrefixElements(list, k);
    if k < Pow2(|bins|) {
      assert |Pool(bins)| == k;
    }
  }

  lemma PrefixElements<T>(list: seq<T>, k: nat)
    requires k < |list|
    ensures multiset(list[..k + 1]) == multiset(list[..k]) + multiset{list[k]} && |multiset(list[..k])| == k
  {
    assert list[..k + 1] == list[..k] + [list[k]];
  }

  lemma ConsumedAll<T>(cmp: (T, T) -> int, bins: seq<seq<T>>, list: seq<T>)
    requires Consumed(cmp, bins, list, |list|)
    ensures Pool(bins) <= multiset(list)
    ensures Pool(bins) == multiset(list) <==> |list| < Pow2(|bins|)
  {
    assert list[..|list|] == list;
    PoolSize(cmp, bins);
    assert |list| == |multiset(list)|;
  }

  /** msort: sorted always; a permutation of the input exactly when it has fewer than
      2^LISTSIZE elements. */
  method Msort<T(!new)>(cmp: (T, T) -> int, list: seq<T>) returns (r: seq<T>)
    requires Total(cmp)
    ensures Sorted(cmp, r)
    ensures multiset(r) <= multiset(list)
    ensures multiset(r) == multiset(list) <==> |list| < Pow2(LISTSIZE)
  {
    var bins := new seq<T>[LISTSIZE](_ => []);
    PoolEmpty(bins[..]);
    for k := 0 to |list|
      invariant Consumed(cmp, bins[..], list, k)
    {
      ConsumedStep(cmp, bins[..], list, k);
      Carry(cmp, bins, list[k]);
    }
    ConsumedAll(cmp, bins[..], list);
    r := Collect(cmp, bins[..]);
  }

  lemma {:induction false} SortedPairs<T(!new)>(cmp: (T, T) -> int, s: seq<T>, i: nat, j: nat)
    requires Transitive(cmp) && Sorted(cmp, s) && i < j < |s|
    ensures cmp(s[i], s[j]) <= 0
    decreases j
  {
    if i < j - 1 {
      SortedPairs(cmp, s, i, j - 1);
    }
  }

  lemma InsertedOne<T(!new)>(cmp: (T, T) -> int, r: seq<T>, list: seq<T>, k: nat)
    requires Total(cmp) && Sorted(cmp, r) && k < |list| && multiset(r) == multiset(list[..k])
    ensures Sorted(cmp, Merged(cmp, [list[k]], r)) && multiset(Merged(cmp, [list[k]], r)) == multiset(list[..k + 1])
  {
    MergedSorted(cmp, [list[k]], r);
    MergedElements(cmp, [list[k]], r);
    PrefixElements(list, k);
  }

  /** The C library's qsort, which the sources rely on for arrays: any sorted permutation will do. */
  method Qsort<T(!new)>(cmp: (T, T) -> int, list: seq<T>) returns (r: seq<T>)
    requires Total(cmp)
    ensures Sorted(cmp, r) && multiset(r) == multiset(list)
  {
    r := [];
    for k := 0 to |list|
      invariant Sorted(cmp, r) && multiset(r) == multiset(list[..k])
    {
      InsertedOne(cmp, r, list, k);
      r := Merge(cmp, [list[k]], r);
    }
    assert list[..|list|] == list;
  }
}
