/** The chained hash tables x1 to x4: nodes in insertion order, and one chain per bucket that runs from
the latest node of the bucket to the earliest. Each refines a finite map. */
module HashTable {

  import opened Options

  /** One node; `next` is the position of the next node of its chain, or -1. */
  datatype Node<K, V> = Node(key: K, data: V, next: int)

  /** The bucket of a key in a table of a given size: the hash masked with size - 1, for sizes that
      are powers of two. */
  type Hashing<!K> = (K, nat) -> nat

  ghost predicate InRange<K(!new)>(slot: Hashing<K>) {
    forall k: K, size: nat :: size > 0 ==> slot(k, size) < size
  }

  /** The latest of the first n nodes that falls into bucket b, or -1. */
  function Latest<K, V>(slot: Hashing<K>, size: nat, tbl: seq<Node<K, V>>, n: nat, b: nat): (r: int)
    requires size > 0 && n <= |tbl|
    ensures -1 <= r < n
    ensures r >= 0 ==> slot(tbl[r].key, size) == b
    ensures forall j :: r < j < n ==> slot(tbl[j].key, size) != b
  {
    if n == 0 then -1
    else if slot(tbl[n - 1].key, size) == b then n - 1
    else Latest(slot, size, tbl, n - 1, b)
  }

  lemma {:induction false} LatestPrefix<K, V>(slot: Hashing<K>, size: nat, tbl: seq<Node<K, V>>, tbl': seq<Node<K,
          V>>, n: nat, b: nat)
    requires size > 0 && n <= |tbl| && n <= |tbl'| && forall j :: 0 <= j < n ==> tbl[j].key == tbl'[j].key
    ensures Latest(slot, size, tbl, n, b) == Latest(slot, size, tbl', n, b)
  {
    if n > 0 { LatestPrefix(slot, size, tbl, tbl', n - 1, b); }
  }

  /** Every chain is in order: heads and links lead to the latest earlier node of the bucket. */
  ghost predicate Chained<K, V>(slot: Hashing<K>, size: nat, tbl: seq<Node<K, V>>, ht: seq<int>) {
    && size > 0 && |ht| == size
    && (forall b :: 0 <= b < size ==> HeadOk(slot, size, tbl, ht, b))
    && (forall i :: 0 <= i < |tbl| ==> LinkOk(slot, size, tbl, i))
  }

  ghost predicate HeadOk<K, V>(slot: Hashing<K>, size: nat, tbl: seq<Node<K, V>>, ht: seq<int>, b: nat)
    requires size > 0 && b < |ht|
  {
    ht[b] == Latest(slot, size, tbl, |tbl|, b)
  }

  ghost predicate LinkOk<K, V>(slot: Hashing<K>, size: nat, tbl: seq<Node<K, V>>, i: nat)
    requires size > 0 && i < |tbl|
  {
    tbl[i].next == Latest(slot, size, tbl, i, slot(tbl[i].key, size))
  }

  /** No key twice. */
  ghost predicate KeysDiffer<K, V>(tbl: seq<Node<K, V>>) {
    forall i, j :: 0 <= i < j < |tbl| ==> tbl[i].key != tbl[j].key
  }

  /** The map that the nodes stand for. */
  ghost function MapOf<K(!new), V>(tbl: seq<Node<K, V>>): map<K, V> {
    if tbl == [] then map[] else MapOf(tbl[..|tbl| - 1])[tbl[|tbl| - 1].key := tbl[|tbl| - 1].data]
  }

  lemma {:induction false} MapHas<K(!new), V>(tbl: seq<Node<K, V>>, i: nat)
    requires i < |tbl| && KeysDiffer(tbl)
    ensures tbl[i].key in MapOf(tbl) && MapOf(tbl)[tbl[i].key] == tbl[i].data
  {
    if i < |tbl| - 1 { MapHas(tbl[..|tbl| - 1], i); }
  }

  lemma {:induction false} MapHasNot<K(!new), V>(tbl: seq<Node<K, V>>, key: K)
    requires forall i :: 0 <= i < |tbl| ==> tbl[i].key != key
    ensures key !in MapOf(tbl)
  {
    if tbl != [] { MapHasNot(tbl[..|tbl| - 1], key); }
  }

  lemma {:induction false} MapOfSame<K(!new), V>(a: seq<Node<K, V>>, b: seq<Node<K, V>>)
    requires |a| == |b| && forall i :: 0 <= i < |a| ==> a[i].key == b[i].key && a[i].data == b[i].data
    ensures MapOf(a) == MapOf(b)
  {
    if a != [] { MapOfSame(a[..|a| - 1], b[..|b| - 1]); }
  }

  /** Linking one more node at the head of its chain. */
  lemma ChainedAppend<K(!new), V>(slot: Hashing<K>, size: nat, tbl: seq<Node<K, V>>, ht: seq<int>, key: K, data: V)
    requires InRange(slot) && Chained(slot, size, tbl, ht)
    ensures var b := slot(key, size);
      b < size && Chained(slot, size, tbl + [Node(key, data, ht[b])], ht[b := |tbl|])
  {
    var b := slot(key, size);
    var tbl', ht' := tbl + [Node(key, data, ht[b])], ht[b := |tbl|];
    forall c | 0 <= c < size ensures HeadOk(slot, size, tbl', ht', c) {
      assert HeadOk(slot, size, tbl, ht, c);
      LatestPrefix(slot, size, tbl, tbl', |tbl|, c);
    }
    forall i | 0 <= i < |tbl'| ensures LinkOk(slot, size, tbl', i) {
      assert if i < |tbl| then LinkOk(slot, size, tbl, i) else HeadOk(slot, size, tbl, ht, b);
      LatestPrefix(slot, size, tbl, tbl', i, slot(tbl'[i].key, size));
    }
  }

  class Table<K(==, !new), V> {
    const slot: Hashing<K>
    var size: nat
    var tbl: seq<Node<K, V>>
    var ht: array<int>

    /** The initial allocation. */
    constructor (slot: Hashing<K>, size: nat)
      requires size > 0 && InRange(slot)
      ensures Valid() && this.slot == slot && this.size == size && Model() == map[] && tbl == [] && fresh(ht)
    {
      this.slot, this.size, tbl := slot, size, [];
      ht := new int[size](_ => -1);
    }

    ghost predicate Valid()
      reads this, ht
    {
      InRange(slot) && Chained(slot, size, tbl, ht[..]) && KeysDiffer(tbl) && |tbl| <= size
    }

    ghost function Model(): map<K, V>
      reads this
    {
      MapOf(tbl)
    }

    /** Walk the chain of the key's bucket: the node with that key, or -1. */
    method Search(key: K) returns (np: int)
      requires Valid()
      ensures -1 <= np < |tbl|
      ensures np >= 0 ==> tbl[np].key == key && key in Model() && Model()[key] == tbl[np].data
      ensures np < 0 ==> key !in Model() && forall j :: 0 <= j < |tbl| ==> tbl[j].key != key
    {
      var h := slot(key, size);
      assert HeadOk(slot, size, tbl, ht[..], h);
      np := ht[h];
      while np >= 0 && tbl[np].key != key
        invariant -1 <= np < |tbl|
        invariant np >= 0 ==> slot(tbl[np].key, size) == h
        invariant forall j :: np < j < |tbl| ==> tbl[j].key != key
        decreases np
      {
        assert LinkOk(slot, size, tbl, np);
        np := tbl[np].next;
      }
      if np < 0 { MapHasNot(tbl, key); } else { MapHas(tbl, np); }
    }

    /** Find: the value first inserted under the key. */
    method Find(key: K) returns (r: Option<V>)
      requires Valid()
      ensures r == if key in Model() then Some(Model()[key]) else None
    {
      var np := Search(key);
      if np >= 0 { r := Some(tbl[np].data); } else { r := None; }
    }

    /** Insert: fails exactly on a key that is present, and changes nothing then. */
    method Insert(key: K, data: V) returns (ok: bool)
      requires Valid()
      modifies this, ht
      ensures Valid() && (ht == old(ht) || fresh(ht))
      ensures ok <==> key !in old(Model())
      ensures Model() == if ok then old(Model())[key := data] else old(Model())
      ensures |tbl| == |old(tbl)| + (if ok then 1 else 0)
      ensures forall i :: 0 <= i < |old(tbl)| ==> tbl[i].key == old(tbl)[i].key && tbl[i].data == old(tbl)[i].data
      ensures ok ==> tbl[|tbl| - 1].key == key && tbl[|tbl| - 1].data == data
    {
      var np := Search(key);
      if np >= 0 { return false; }
      if |tbl| >= size {
        Grow();
      }
      var h := slot(key, size);
      ChainedAppend(slot, size, tbl, ht[..], key, data);
      ghost var before := tbl;
      tbl := tbl + [Node(key, data, ht[h])];
      ghost var heads := ht[..];
      ht[h] := |tbl| - 1;
      assert ht[..] == heads[h := |before|];
      assert tbl[..|tbl| - 1] == before;
      ok := true;
    }

    /** Twice as many buckets; the nodes keep their places, keys and values, and are linked anew. */
    method Grow()
      requires Valid()
      modifies this
      ensures Valid() && size == 2 * old(size) && fresh(ht) && Model() == old(Model()) && |tbl| == |old(tbl)|
      ensures forall i :: 0 <= i < |tbl| ==> tbl[i].key == old(tbl)[i].key && tbl[i].data == old(tbl)[i].data
    {
      var arrSize, was := 2 * size, tbl;
      var ht' := new int[arrSize](_ => -1);
      var tbl': seq<Node<K, V>> := [];
      for i := 0 to |was|
        invariant |tbl'| == i && Chained(slot, arrSize, tbl', ht'[..])
        invariant forall j :: 0 <= j < i ==> tbl'[j].key == was[j].key && tbl'[j].data == was[j].data
      {
        var h := slot(was[i].key, arrSize);
        ChainedAppend(slot, arrSize, tbl', ht'[..], was[i].key, was[i].data);
        tbl' := tbl' + [Node(was[i].key, was[i].data, ht'[h])];
        ghost var before := ht'[..];
        ht'[h] := i;
        assert ht'[..] == before[h := i];
      }
      MapOfSame(was, tbl');
      size, tbl, ht := arrSize, tbl', ht';
    }

    /** The values in the order of their insertion. */
    method ArrayOf() returns (r: seq<V>)
      requires Valid()
      ensures |r| == |tbl| && forall i ::
        0 <= i < |r| ==> r[i] == tbl[i].data && tbl[i].key in Model() && Model()[tbl[i].key] == r[i]
    {
      r := [];
      for i := 0 to |tbl|
        invariant |r| == i && forall j ::
          0 <= j < i ==> r[j] == tbl[j].data && tbl[j].key in Model() && Model()[tbl[j].key] == r[j]
      {
        MapHas(tbl, i);
        r := r + [tbl[i].data];
      }
    }

    /** Clear: all buckets empty, the size kept. */
    method Clear()
      requires Valid()
      modifies this, ht
      ensures Valid() && size == old(size) && ht == old(ht) && Model() == map[] && tbl == []
    {
      for i := 0 to size
        invariant size == old(size) && ht == old(ht) && tbl == old(tbl) && i <= ht.Length == size
        invariant forall b :: 0 <= b < i ==> ht[b] == -1
      {
        ht[i] := -1;
      }
      tbl := [];
    }
  }
}
