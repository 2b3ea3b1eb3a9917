/** The packed action table (acttab_*): many sparse rows overlaid in one array. A filled slot k with
lookahead la is visible at exactly one offset, k - la. */
module Acttab {
  import opened Seals

  datatype Slot = Slot(lookahead: int, action: int)

  const EMPTY := Slot(-1, -1)

  // ---- rows in a table ----

  /** Slot k answers a lookup at offset o. */
  predicate Visible(tab: seq<Slot>, k: int, o: int) {
    0 <= k < |tab| && tab[k].lookahead >= 0 && tab[k].lookahead == k - o
  }

  /** Row t is readable at offset o: each of its entries is found there, and nothing else is. */
  ghost predicate Holds(tab: seq<Slot>, o: int, t: seq<Slot>) {
    && (forall j :: 0 <= j < |t| ==> 0 <= o + t[j].lookahead < |tab| && tab[o + t[j].lookahead] == t[j])
    && (forall k :: Visible(tab, k, o) ==> HasEntry(t, k - o))
  }

  /** Nothing is visible at offset o. */
  ghost predicate Clear(tab: seq<Slot>, o: int) {
    forall k :: !Visible(tab, k, o)
  }

  /** A row: at least one entry, lookaheads distinct and in range. */
  ghost predicate RowOk(nsymbol: nat, t: seq<Slot>) {
    && t != []
    && (forall j :: 0 <= j < |t| ==> 0 <= t[j].lookahead < nsymbol)
    && (forall i, j :: 0 <= i < j < |t| ==> t[i].lookahead != t[j].lookahead)
  }

  /** All filled slots lie below n. */
  ghost predicate FilledBelow(tab: seq<Slot>, n: int) {
    forall k :: 0 <= k < |tab| ==> tab[k].lookahead >= -1 && (tab[k].lookahead >= 0 ==> k < n)
  }

  // ---- writing a row ----

  /** The table after writing the first n entries of t at offset o. */
  function Written(tab: seq<Slot>, o: int, t: seq<Slot>, n: nat): (r: seq<Slot>)
    requires n <= |t| && forall j :: 0 <= j < |t| ==> 0 <= o + t[j].lookahead < |tab|
    ensures |r| == |tab|
  {
    if n == 0 then tab else Written(tab, o, t, n - 1)[o + t[n - 1].lookahead := t[n - 1]]
  }

  lemma {:induction false} WrittenAt(tab: seq<Slot>, o: int, t: seq<Slot>, n: nat, k: int)
    requires n <= |t| && (forall j :: 0 <= j < |t| ==> 0 <= o + t[j].lookahead < |tab|) && 0 <= k < |tab|
    requires forall i, j :: 0 <= i < j < |t| ==> t[i].lookahead != t[j].lookahead
    ensures (forall j :: 0 <= j < n ==> t[j].lookahead != k - o) ==> Written(tab, o, t, n)[k] == tab[k]
    ensures forall j :: 0 <= j < n && t[j].lookahead == k - o ==> Written(tab, o, t, n)[k] == t[j]
  {
    if n > 0 {
      WrittenAt(tab, o, t, n - 1, k);
    }
  }

  /** The slots of the row are empty. */
  ghost predicate Vacant(tab: seq<Slot>, o: int, t: seq<Slot>) {
    forall j :: 0 <= j < |t| ==> 0 <= o + t[j].lookahead < |tab| && tab[o + t[j].lookahead].lookahead < 0
  }

  /** A row written into empty slots is readable exactly when nothing was visible at its offset. */
  lemma WrittenHolds(nsymbol: nat, tab: seq<Slot>, o: int, t: seq<Slot>)
    requires RowOk(nsymbol, t) && Vacant(tab, o, t)
    ensures Holds(Written(tab, o, t, |t|), o, t) <==> Clear(tab, o)
  {
    OwnPresent(nsymbol, tab, o, t);
    if Clear(tab, o) {
      forall k | Visible(Written(tab, o, t, |t|), k, o) ensures HasEntry(t, k - o) {
        WrittenVisible(nsymbol, tab, o, t, k);
      }
    } else {
      var k :| Visible(tab, k, o);
      WrittenVisible(nsymbol, tab, o, t, k);
    }
  }

  ghost predicate HasEntry(t: seq<Slot>, la: int) {
    exists j :: 0 <= j < |t| && t[j].lookahead == la
  }

  /** What is visible at the row's own offset afterwards: what was before, and the row. */
  lemma WrittenVisible(nsymbol: nat, tab: seq<Slot>, o: int, t: seq<Slot>, k: int)
    requires RowOk(nsymbol, t) && Vacant(tab, o, t)
    ensures Visible(Written(tab, o, t, |t|), k, o) <==> Visible(tab, k, o) || HasEntry(t, k - o)
    ensures Visible(tab, k, o) ==> !HasEntry(t, k - o)
  {
    if 0 <= k < |tab| { WrittenAt(tab, o, t, |t|, k); }
  }

  /** ... and then every other row stays readable. */
  lemma WrittenKeeps(nsymbol: nat, tab: seq<Slot>, o: int, t: seq<Slot>, o': int, t': seq<Slot>)
    requires RowOk(nsymbol, t) && RowOk(nsymbol, t') && Vacant(tab, o, t) && Clear(tab, o) && Holds(tab, o', t')
    ensures Holds(Written(tab, o, t, |t|), o', t')
  {
    var w := Written(tab, o, t, |t|);
    OtherOffset(nsymbol, tab, o, o', t');
    forall j | 0 <= j < |t'| ensures w[o' + t'[j].lookahead] == t'[j] {
      WrittenAt(tab, o, t, |t|, o' + t'[j].lookahead);
    }
    forall k | Visible(w, k, o') ensures HasEntry(t', k - o') {
      WrittenElsewhere(nsymbol, tab, o, t, o', k);
    }
  }

  lemma OtherOffset(nsymbol: nat, tab: seq<Slot>, o: int, o': int, t': seq<Slot>)
    requires RowOk(nsymbol, t') && Clear(tab, o) && Holds(tab, o', t')
    ensures o != o'
  {
    assert Visible(tab, o' + t'[0].lookahead, o');
  }

  /** At another offset nothing new becomes visible. */
  lemma WrittenElsewhere(nsymbol: nat, tab: seq<Slot>, o: int, t: seq<Slot>, o': int, k: int)
    requires RowOk(nsymbol, t) && Vacant(tab, o, t) && o != o' && Visible(Written(tab, o, t, |t|), k, o')
    ensures Visible(tab, k, o')
  {
    WrittenAt(tab, o, t, |t|, k);
  }

  lemma WrittenFilled(nsymbol: nat, tab: seq<Slot>, o: int, t: seq<Slot>, n: int, n': int)
    requires RowOk(nsymbol, t) && FilledBelow(tab, n) && n <= n'
    requires forall j :: 0 <= j < |t| ==> 0 <= o + t[j].lookahead < |tab| && o + t[j].lookahead < n'
    ensures FilledBelow(Written(tab, o, t, |t|), n')
  {
    var w := Written(tab, o, t, |t|);
    forall k | 0 <= k < |w| ensures w[k].lookahead >= -1 && (w[k].lookahead >= 0 ==> k < n') {
      WrittenAt(tab, o, t, |t|, k);
      if j :| 0 <= j < |t| && t[j].lookahead == k - o { }
    }
  }

  // ---- the duplicate test: matching entries, and as many visible slots as entries ----

  ghost function VisibleBelow(tab: seq<Slot>, o: int, n: nat): set<int> {
    set k | 0 <= k < n && Visible(tab, k, o)
  }

  ghost function SlotsOf(t: seq<Slot>, o: int, n: nat): set<int>
    requires n <= |t|
  {
    set j | 0 <= j < n :: o + t[j].lookahead
  }

  lemma {:induction false} SlotsCount(t: seq<Slot>, o: int, n: nat)
    requires n <= |t| && forall i, j :: 0 <= i < j < |t| ==> t[i].lookahead != t[j].lookahead
    ensures |SlotsOf(t, o, n)| == n
  {
    if n > 0 {
      SlotsCount(t, o, n - 1);
      SlotsStep(t, o, n);
    }
  }

  lemma SlotsStep(t: seq<Slot>, o: int, n: nat)
    requires 0 < n <= |t| && forall i, j :: 0 <= i < j < |t| ==> t[i].lookahead != t[j].lookahead
    ensures o + t[n - 1].lookahead !in SlotsOf(t, o, n - 1)
    ensures SlotsOf(t, o, n) == SlotsOf(t, o, n - 1) + {o + t[n - 1].lookahead}
  {
  }

  lemma VisibleCount(tab: seq<Slot>, o: int, n: nat)
    ensures |VisibleBelow(tab, o, n + 1)| == |VisibleBelow(tab, o, n)| + if Visible(tab, n, o) then 1 else 0
  {
    if Visible(tab, n, o) {
      assert VisibleBelow(tab, o, n + 1) == VisibleBelow(tab, o, n) + {n};
    } else {
      assert VisibleBelow(tab, o, n + 1) == VisibleBelow(tab, o, n);
    }
  }

  lemma SubsetEqual(a: set<int>, b: set<int>)
    requires a <= b && |a| == |b|
    ensures a == b
  {
    assert b == a + (b - a);
  }

  /** Counting suffices: the row is readable at o. */
  lemma MatchHolds(nsymbol: nat, tab: seq<Slot>, o: int, t: seq<Slot>, n: nat)
    requires RowOk(nsymbol, t) && FilledBelow(tab, n) && |VisibleBelow(tab, o, n)| == |t|
    requires forall j ::
      0 <= j < |t| ==> 0 <= o + t[j].lookahead < n && o + t[j].lookahead < |tab| && tab[o + t[j].lookahead] == t[j]
    ensures Holds(tab, o, t)
  {
    SlotsCount(t, o, |t|);
    forall k | k in SlotsOf(t, o, |t|) ensures k in VisibleBelow(tab, o, n) {
      var j :| 0 <= j < |t| && k == o + t[j].lookahead;
    }
    SubsetEqual(SlotsOf(t, o, |t|), VisibleBelow(tab, o, n));
    forall k | Visible(tab, k, o) ensures HasEntry(t, k - o) {
      assert k in VisibleBelow(tab, o, n);
      var j :| 0 <= j < |t| && k == o + t[j].lookahead;
    }
  }

  /** Writing a row over itself changes nothing. */
  lemma {:induction false} WrittenSame(tab: seq<Slot>, o: int, t: seq<Slot>, n: nat)
    requires n <= |t| && forall j :: 0 <= j < |t| ==> 0 <= o + t[j].lookahead < |tab| && tab[o + t[j].lookahead] == t[j]
    ensures Written(tab, o, t, n) == tab
  {
    if n > 0 { WrittenSame(tab, o, t, n - 1); }
  }

  // ---- the table under construction ----

  /** A committed row and the offset that was returned for it. */
  datatype Placed = Placed(offset: int, row: seq<Slot>)

  /** The smallest and largest lookahead of a row. */
  ghost predicate IsMin(t: seq<Slot>, mn: int) {
    (exists j :: 0 <= j < |t| && t[j].lookahead == mn) && forall j :: 0 <= j < |t| ==> mn <= t[j].lookahead
  }

  ghost predicate IsMax(t: seq<Slot>, mx: int) {
    (exists j :: 0 <= j < |t| && t[j].lookahead == mx) && forall j :: 0 <= j < |t| ==> t[j].lookahead <= mx
  }

  /** Every committed row is readable at its offset. */
  ghost predicate AllHold(nsymbol: nat, tab: seq<Slot>, rows: seq<Placed>) {
    forall i :: 0 <= i < |rows| ==> RowOk(nsymbol, rows[i].row) && Holds(tab, rows[i].offset, rows[i].row)
  }

  /** Search 1 looks at offset i - mn, where every entry of the row would have to match. */
  ghost predicate Matches(tab: seq<Slot>, n: nat, o: int, t: seq<Slot>) {
    && |VisibleBelow(tab, o, n)| == |t|
    && forall j :: 0 <= j < |t| ==>
          0 <= o + t[j].lookahead < n && o + t[j].lookahead < |tab| && tab[o + t[j].lookahead] == t[j]
  }

  /** Do all entries of the row match the table at offset o? */
  method EntriesMatch(a: array<Slot>, n: nat, o: int, t: seq<Slot>) returns (same: bool)
    requires n <= a.Length
    ensures same <==> forall j :: 0 <= j < |t| ==> 0 <= o + t[j].lookahead < n && a[o + t[j].lookahead] == t[j]
  {
    var j := 0;
    while j < |t|
      invariant 0 <= j <= |t|
      invariant forall i :: 0 <= i < j ==> 0 <= o + t[i].lookahead < n && a[o + t[i].lookahead] == t[i]
    {
      var k := o + t[j].lookahead;
      if k < 0 || k >= n { break; }
      if t[j].lookahead != a[k].lookahead { break; }
      if t[j].action != a[k].action { break; }
      j := j + 1;
    }
    same := j == |t|;
  }

  /** How many slots below n are visible at offset o? */
  method CountVisible(a: array<Slot>, n: nat, o: int) returns (count: nat)
    requires n <= a.Length
    ensures count == |VisibleBelow(a[..], o, n)|
  {
    count := 0;
    assert VisibleBelow(a[..], o, 0) == {};
    for j := 0 to n
      invariant count == |VisibleBelow(a[..], o, j)|
    {
      VisibleCount(a[..], o, j);
      if a[j].lookahead >= 0 && a[j].lookahead == j - o { count := count + 1; }
    }
  }

  /** The row fits into the empty slots at offset o, and no slot below n holds j - o. The last test also
      rejects an empty slot just below the offset, whose lookahead is -1. */
  ghost predicate Fits(tab: seq<Slot>, n: nat, o: int, t: seq<Slot>) {
    Vacant(tab, o, t) && forall j :: 0 <= j < n && j < |tab| ==> tab[j].lookahead != j - o
  }

  ghost predicate NoMatch(tab: seq<Slot>, n: nat, t: seq<Slot>, lo: int, hi: int) {
    forall o :: lo <= o < hi ==> !Matches(tab, n, o, t)
  }

  ghost predicate NoFit(tab: seq<Slot>, n: nat, t: seq<Slot>, lo: int, hi: int) {
    forall o :: lo <= o < hi ==> !Fits(tab, n, o, t)
  }

  /** The row has an entry with the smallest lookahead and this action. */
  ghost predicate HasMin(t: seq<Slot>, mn: int, mnAction: int) {
    exists j :: 0 <= j < |t| && t[j] == Slot(mn, mnAction)
  }

  /** The first search of acttab_insert, from the top down: the last offset where the row already is. */
  method FindDuplicate(a: array<Slot>, n: nat, t: seq<Slot>, mn: int, mnAction: int, end: int) returns (i: int)
    requires n <= a.Length && 0 <= end && HasMin(t, mn, mnAction)
    ensures i < end ==> NoMatch(a[..], n, t, end - mn, n - mn)
    ensures i >= end ==> i < n && Matches(a[..], n, i - mn, t) && NoMatch(a[..], n, t, i - mn + 1, n - mn)
  {
    i := n - 1;
    while i >= end
      invariant i < n && NoMatch(a[..], n, t, (if i < end then end else i + 1) - mn, n - mn)
    {
      if a[i].lookahead == mn && a[i].action == mnAction {
        var same := EntriesMatch(a, n, i - mn, t);
        if same {
          var count := CountVisible(a, n, i - mn);
          if count == |t| { return; }
        }
      }
      assert !Matches(a[..], n, i - mn, t);
      i := i - 1;
    }
  }

  /** Are all slots of the row empty at offset o? */
  method SlotsVacant(a: array<Slot>, o: int, t: seq<Slot>) returns (vacant: bool)
    requires forall j :: 0 <= j < |t| ==> 0 <= o + t[j].lookahead < a.Length
    ensures vacant <==> Vacant(a[..], o, t)
  {
    var j := 0;
    while j < |t| && a[o + t[j].lookahead].lookahead < 0
      invariant 0 <= j <= |t|
      invariant forall i :: 0 <= i < j ==> a[o + t[i].lookahead].lookahead < 0
    {
      j := j + 1;
    }
    vacant := j == |t|;
  }

  /** The last test of the second search. */
  method NothingAt(a: array<Slot>, n: nat, o: int) returns (none: bool)
    requires n <= a.Length
    ensures none <==> forall j :: 0 <= j < n ==> a[..][j].lookahead != j - o
  {
    var j := 0;
    while j < n && a[j].lookahead != j - o
      invariant 0 <= j <= n
      invariant forall i :: 0 <= i < j ==> a[..][i].lookahead != i - o
    {
      j := j + 1;
    }
    if j < n { assert a[..][j].lookahead == j - o; }
    none := j == n;
  }

  /** One candidate of the second search. */
  method FitsAt(a: array<Slot>, n: nat, t: seq<Slot>, mn: int, i: int) returns (fits: bool)
    requires 0 <= i < a.Length && n <= a.Length && IsMin(t, mn)
    requires forall j :: 0 <= j < |t| ==> 0 <= i - mn + t[j].lookahead < a.Length
    ensures fits <==> Fits(a[..], n, i - mn, t)
  {
    fits := false;
    if a[i].lookahead < 0 {
      var vacant := SlotsVacant(a, i - mn, t);
      if vacant {
        fits := NothingAt(a, n, i - mn);
      }
    }
  }

  /** Where the second search stops when nothing fits. */
  function Bound(size: nat, mx: int, start: int): int {
    if start < size - mx then size - mx else start
  }

  /** The second search of acttab_insert: the first hole for the row, or the end of the range. */
  method FindHole(a: array<Slot>, n: nat, nsymbol: nat, t: seq<Slot>, mn: int, mx: int, start: int)
    returns (i: int, found: bool)
    requires n <= a.Length && RowOk(nsymbol, t) && IsMin(t, mn) && IsMax(t, mx) && 0 <= start
    ensures found ==> start <= i < a.Length - mx && Fits(a[..], n, i - mn, t) && NoFit(a[..], n, t, start - mn, i - mn)
    ensures !found ==> i == Bound(a.Length, mx, start) && NoFit(a[..], n, t, start - mn, a.Length - mx - mn)
  {
    i := start;
    found := false;
    while i < a.Length - mx
      invariant start <= i && (i <= a.Length - mx || i == start)
      invariant NoFit(a[..], n, t, start - mn, i - mn)
    {
      found := FitsAt(a, n, t, mn, i);
      if found { return; }
      i := i + 1;
    }
  }

  lemma ClearBelow(tab: seq<Slot>, n: nat, o: int)
    requires FilledBelow(tab, n) && forall j :: 0 <= j < n && j < |tab| ==> tab[j].lookahead != j - o
    ensures Clear(tab, o)
  {
  }

  /** Just past the end of the used slots the row always fits. */
  lemma HoleAtEnd(tab: seq<Slot>, n: nat, t: seq<Slot>)
    requires FilledBelow(tab, n)
    requires forall j :: 0 <= j < |t| ==> 0 <= t[j].lookahead && n + 1 + t[j].lookahead < |tab|
    ensures Fits(tab, n, n + 1, t)
  {
  }

  /** When the second search runs off its bound, it is past all used slots. */
  lemma BeyondEnd(tab: seq<Slot>, n: nat, nsymbol: nat, t: seq<Slot>, mn: int, mx: int, i: int)
    requires n + nsymbol + 1 < |tab| && RowOk(nsymbol, t) && IsMin(t, mn) && IsMax(t, mx) && FilledBelow(tab, n)
    requires i >= |tab| - mx && (i == |tab| - mx || i == 0 || i == mn) && mn + mx > nsymbol
    ensures i > n && Vacant(tab, i - mn, t)
  {
  }

  // ---- the two searches together ----

  /** What acttab_insert chooses: the last offset where the row already is; else the first one where it fits;
      else the end of the range searched. */
  ghost predicate Chosen(tab: seq<Slot>, n: nat, t: seq<Slot>, mn: int, mx: int, end: int, o: int, found: bool) {
    || (found && end - mn <= o < n - mn && Matches(tab, n, o, t) && NoMatch(tab, n, t, o + 1, n - mn))
    || (NoMatch(tab, n, t, end - mn, n - mn)
        && if found then end - mn <= o < |tab| - mx - mn && Fits(tab, n, o, t) && NoFit(tab, n, t, end - mn, o)
           else o == Bound(|tab|, mx, end) - mn && NoFit(tab, n, t, end - mn, |tab| - mx - mn))
  }

  /** The outcome of placing row t at offset o in a table whose slots below n are in use. */
  ghost predicate Placeable(tab: seq<Slot>, n: nat, o: int, t: seq<Slot>, found: bool) {
    || (found && Matches(tab, n, o, t))
    || (Vacant(tab, o, t) && (found ==> Clear(tab, o)))
  }

  /** Wherever the searches lead, the row can be written there; and the second one must succeed by index
      n + mn + 1 when mn + mx <= nsymbol. */
  lemma ChosenPlaceable(nsymbol: nat, tab: seq<Slot>, n: nat, t: seq<Slot>, mn: int, mx: int, end: int, o: int,
          found: bool)
    requires n + nsymbol + 1 < |tab| && RowOk(nsymbol, t) && IsMin(t, mn) && IsMax(t, mx) && FilledBelow(tab, n)
    requires (end == 0 || end == mn) && Chosen(tab, n, t, mn, mx, end, o, found)
    ensures Placeable(tab, n, o, t, found) && o >= end - mn
    ensures mn + mx <= nsymbol ==> found && (Matches(tab, n, o, t) || o <= n + 1)
  {
    if mn + mx <= nsymbol { HoleAtEnd(tab, n, t); }
    if found {
      if !Matches(tab, n, o, t) { ClearBelow(tab, n, o); }
    } else if mn + mx > nsymbol {
      BeyondEnd(tab, n, nsymbol, t, mn, mx, o + mn);
    }
  }

  lemma PlacedHolds(nsymbol: nat, tab: seq<Slot>, n: nat, o: int, t: seq<Slot>, found: bool)
    requires RowOk(nsymbol, t) && FilledBelow(tab, n) && Placeable(tab, n, o, t, found)
    ensures forall j :: 0 <= j < |t| ==> 0 <= o + t[j].lookahead < |tab|
    ensures Holds(Written(tab, o, t, |t|), o, t) <==> found || Clear(tab, o)
  {
    if found && Matches(tab, n, o, t) {
      MatchHolds(nsymbol, tab, o, t, n);
      WrittenSame(tab, o, t, |t|);
    } else {
      WrittenHolds(nsymbol, tab, o, t);
    }
  }

  // ---- many rows ----

  /** All entries of the row are in their slots; other slots may be visible beside them. */
  ghost predicate Present(tab: seq<Slot>, o: int, t: seq<Slot>) {
    forall j :: 0 <= j < |t| ==> 0 <= o + t[j].lookahead < |tab| && tab[o + t[j].lookahead] == t[j]
  }

  /** No entry of a committed row is ever overwritten. */
  ghost predicate AllPresent(nsymbol: nat, tab: seq<Slot>, rows: seq<Placed>) {
    forall i :: 0 <= i < |rows| ==> RowOk(nsymbol, rows[i].row) && Present(tab, rows[i].offset, rows[i].row)
  }

  lemma WrittenPresent(nsymbol: nat, tab: seq<Slot>, o: int, t: seq<Slot>, o': int, t': seq<Slot>)
    requires RowOk(nsymbol, t) && RowOk(nsymbol, t') && Vacant(tab, o, t) && Present(tab, o', t')
    ensures Present(Written(tab, o, t, |t|), o', t')
  {
    forall j | 0 <= j < |t'| ensures Written(tab, o, t, |t|)[o' + t'[j].lookahead] == t'[j] {
      WrittenAt(tab, o, t, |t|, o' + t'[j].lookahead);
    }
  }

  /** A row that is not readable never becomes readable again. */
  lemma StaysUnreadable(nsymbol: nat, tab: seq<Slot>, o: int, t: seq<Slot>, o': int, t': seq<Slot>)
    requires RowOk(nsymbol, t) && Vacant(tab, o, t) && Present(tab, o', t') && Holds(Written(tab, o, t, |t|), o', t')
    ensures Holds(tab, o', t')
  {
    forall k | Visible(tab, k, o') ensures HasEntry(t', k - o') {
      WrittenAt(tab, o, t, |t|, k);
      assert Visible(Written(tab, o, t, |t|), k, o');
    }
  }

  /** What inserting row t at offset o does to the readability of rows: t is readable exactly when the
      search ended in a break or nothing was visible at its offset; and all rows are readable afterwards
      exactly when they all were before, and t is. */
  ghost predicate Inserted(nsymbol: nat, tab0: seq<Slot>, tab: seq<Slot>, rows: seq<Placed>, o: int, t: seq<Slot>,
          found: bool) {
    && (Holds(tab, o, t) <==> found || Clear(tab0, o))
    && (AllPresent(nsymbol, tab0, rows) ==>
          && AllPresent(nsymbol, tab, rows + [Placed(o, t)])
          && (AllHold(nsymbol, tab, rows + [Placed(o, t)]) <==>
               AllHold(nsymbol, tab0, rows) && (found || Clear(tab0, o))))
  }

  lemma KeptRows(nsymbol: nat, tab: seq<Slot>, tab': seq<Slot>, rows: seq<Placed>, o: int, t: seq<Slot>, ok: bool)
    requires RowOk(nsymbol, t) && Present(tab', o, t) && (Holds(tab', o, t) <==> ok)
    requires forall i :: 0 <= i < |rows| ==> RowOk(nsymbol, rows[i].row) && Present(tab', rows[i].offset, rows[i].row)
    requires forall i ::
      0 <= i < |rows| && Holds(tab', rows[i].offset, rows[i].row) ==> Holds(tab, rows[i].offset, rows[i].row)
    requires ok ==> forall i ::
      0 <= i < |rows| && Holds(tab, rows[i].offset, rows[i].row) ==> Holds(tab', rows[i].offset, rows[i].row)
    ensures AllPresent(nsymbol, tab', rows + [Placed(o, t)])
    ensures AllHold(nsymbol, tab', rows + [Placed(o, t)]) <==> AllHold(nsymbol, tab, rows) && ok
  {
    var all := rows + [Placed(o, t)];
    assert all[|rows|] == Placed(o, t) && forall i :: 0 <= i < |rows| ==> all[i] == rows[i];
  }

  lemma PlacedInserted(nsymbol: nat, tab: seq<Slot>, n: nat, o: int, t: seq<Slot>, found: bool, rows: seq<Placed>)
    requires RowOk(nsymbol, t) && FilledBelow(tab, n) && Placeable(tab, n, o, t, found)
    requires forall j :: 0 <= j < |t| ==> 0 <= o + t[j].lookahead < |tab|
    ensures Inserted(nsymbol, tab, Written(tab, o, t, |t|), rows, o, t, found)
  {
    PlacedHolds(nsymbol, tab, n, o, t, found);
    var w := Written(tab, o, t, |t|);
    OwnPresent(nsymbol, tab, o, t);
    if AllPresent(nsymbol, tab, rows) {
      if found && Matches(tab, n, o, t) {
        WrittenSame(tab, o, t, |t|);
      } else {
        forall i | 0 <= i < |rows|
          ensures Present(w, rows[i].offset, rows[i].row)
          ensures Holds(w, rows[i].offset, rows[i].row) ==> Holds(tab, rows[i].offset, rows[i].row)
          ensures Clear(tab, o) && Holds(tab, rows[i].offset, rows[i].row) ==> Holds(w, rows[i].offset, rows[i].row)
        {
          OtherRow(nsymbol, tab, o, t, rows[i].offset, rows[i].row);
        }
      }
      KeptRows(nsymbol, tab, w, rows, o, t, found || Clear(tab, o));
    }
  }

  lemma OwnPresent(nsymbol: nat, tab: seq<Slot>, o: int, t: seq<Slot>)
    requires RowOk(nsymbol, t) && forall j :: 0 <= j < |t| ==> 0 <= o + t[j].lookahead < |tab|
    ensures Present(Written(tab, o, t, |t|), o, t)
  {
    forall j | 0 <= j < |t| ensures Written(tab, o, t, |t|)[o + t[j].lookahead] == t[j] {
      WrittenAt(tab, o, t, |t|, o + t[j].lookahead);
    }
  }

  lemma OtherRow(nsymbol: nat, tab: seq<Slot>, o: int, t: seq<Slot>, o': int, t': seq<Slot>)
    requires RowOk(nsymbol, t) && RowOk(nsymbol, t') && Vacant(tab, o, t) && Present(tab, o', t')
    ensures Present(Written(tab, o, t, |t|), o', t')
    ensures Holds(Written(tab, o, t, |t|), o', t') ==> Holds(tab, o', t')
    ensures Clear(tab, o) && Holds(tab, o', t') ==> Holds(Written(tab, o, t, |t|), o', t')
  {
    WrittenPresent(nsymbol, tab, o, t, o', t');
    if Holds(Written(tab, o, t, |t|), o', t') { StaysUnreadable(nsymbol, tab, o, t, o', t'); }
    if Clear(tab, o) && Holds(tab, o', t') { WrittenKeeps(nsymbol, tab, o, t, o', t'); }
  }

  // ---- growth ----

  /** The table after the growth step of acttab_insert. */
  function Grown(tab: seq<Slot>, n: nat, nsymbol: nat): (r: seq<Slot>)
    ensures tab <= r && n + nsymbol + 1 < |r| && forall k :: |tab| <= k < |r| ==> r[k] == EMPTY
  {
    if n + nsymbol + 1 >= |tab| then tab + seq(n + nsymbol + 21, _ => EMPTY) else tab
  }

  lemma GrownInserted(nsymbol: nat, tab: seq<Slot>, grown: seq<Slot>, after: seq<Slot>, rows: seq<Placed>, o: int,
          t: seq<Slot>, found: bool)
    requires tab <= grown && forall k :: |tab| <= k < |grown| ==> grown[k] == EMPTY
    requires Inserted(nsymbol, grown, after, rows, o, t, found)
    ensures Inserted(nsymbol, tab, after, rows, o, t, found)
  {
    GrowClear(tab, grown, o);
    if AllPresent(nsymbol, tab, rows) {
      forall i | 0 <= i < |rows|
        ensures Present(grown, rows[i].offset, rows[i].row)
        ensures Holds(grown, rows[i].offset, rows[i].row) <==> Holds(tab, rows[i].offset, rows[i].row)
      {
        GrowHolds(tab, grown, rows[i].offset, rows[i].row);
      }
    }
  }

  lemma GrowHolds(tab: seq<Slot>, tab': seq<Slot>, o: int, t: seq<Slot>)
    requires Present(tab, o, t) && tab <= tab' && forall k :: |tab| <= k < |tab'| ==> tab'[k] == EMPTY
    ensures Present(tab', o, t) && (Holds(tab', o, t) <==> Holds(tab, o, t))
  {
    forall k ensures Visible(tab', k, o) <==> Visible(tab, k, o) {
    }
  }

  lemma GrowClear(tab: seq<Slot>, tab': seq<Slot>, o: int)
    requires tab <= tab' && forall k :: |tab| <= k < |tab'| ==> tab'[k] == EMPTY
    ensures Clear(tab', o) <==> Clear(tab, o)
  {
    forall k ensures Visible(tab', k, o) <==> Visible(tab, k, o) {
    }
  }

  lemma GrowFilled(tab: seq<Slot>, tab': seq<Slot>, n: nat)
    requires FilledBelow(tab, n) && tab <= tab' && forall k :: |tab| <= k < |tab'| ==> tab'[k] == EMPTY
    ensures FilledBelow(tab', n)
  {
  }

  // ---- one insertion as a whole ----

  /** The table and its logical length. */
  datatype Stage = Stage(slots: seq<Slot>, nAction: nat)

  /** nAction after the row has been stored. */
  function Stored(n: nat, o: int, mx: int): int {
    if o + mx >= n then o + mx + 1 else n
  }

  /** ... and padded for tokens. */
  function Padded(n: int, nterminal: nat, safe: bool, o: int, mn: int): int {
    if safe && o + mn + nterminal >= n then o + mn + nterminal + 1 else n
  }

  /** Chosen, sealed. */
  ghost predicate Picked(tab: seq<Slot>, n: nat, t: seq<Slot>, mn: int, mx: int, end: int, o: int, found: bool) {
    forall q {:trigger Open(q)} :: Open(q) && q == tab ==> Chosen(q, n, t, mn, mx, end, o, found)
  }

  /** The searches and the copy of acttab_insert. */
  ghost predicate Places(nsymbol: nat, s: Stage, t: seq<Slot>, mn: int, mx: int, safe: bool, o: int, found: bool,
          s': Stage) {
    match s
    case Stage(slots, n) =>
      var g := Grown(slots, n, nsymbol);
      && IsMin(t, mn) && IsMax(t, mx)
      && Picked(g, n, t, mn, mx, if safe then mn else 0, o, found)
      && (forall j :: 0 <= j < |t| ==> 0 <= o + t[j].lookahead < |g|) && s'.slots == Written(g, o, t, |t|)
      && s'.nAction == Stored(n, o, mx)
  }

  /** acttab_insert from beginning to end. */
  ghost predicate Inserts(nsymbol: nat, nterminal: nat, s: Stage, t: seq<Slot>, mn: int, mx: int, safe: bool, o: int,
          found: bool, s': Stage) {
    exists n: nat :: Places(nsymbol, s, t, mn, mx, safe, o, found, Stage(s'.slots, n))
      && s'.nAction == Padded(n, nterminal, safe, o, mn)
  }

  lemma ChosenInside(nsymbol: nat, tab: seq<Slot>, n: nat, t: seq<Slot>, mn: int, mx: int, end: int, o: int,
          found: bool)
    requires n + nsymbol + 1 < |tab| && RowOk(nsymbol, t) && IsMin(t, mn) && IsMax(t, mx) && FilledBelow(tab, n)
    requires (end == 0 || end == mn) && Chosen(tab, n, t, mn, mx, end, o, found)
    ensures forall j :: 0 <= j < |t| ==> 0 <= o + t[j].lookahead < |tab|
  {
    ChosenPlaceable(nsymbol, tab, n, t, mn, mx, end, o, found);
    PlacedHolds(nsymbol, tab, n, o, t, found);
  }

  /** What an insertion means for all rows, and the safety of token rows. */
  lemma InsertsMeans(nsymbol: nat, nterminal: nat, s: Stage, t: seq<Slot>, mn: int, mx: int, safe: bool, o: int,
          found: bool, s': Stage, rows: seq<Placed>)
    requires RowOk(nsymbol, t) && FilledBelow(s.slots, s.nAction)
    requires Inserts(nsymbol, nterminal, s, t, mn, mx, safe, o, found, s')
    ensures Inserted(nsymbol, s.slots, s'.slots, rows, o, t, found)
    ensures FilledBelow(s'.slots, s'.nAction) && s'.nAction >= s.nAction && InTable(t, o, s'.nAction)
    ensures safe ==> 0 <= o && o + nterminal < s'.nAction
    ensures mn + mx <= nsymbol ==> found
  {
    var n: nat :| Places(nsymbol, s, t, mn, mx, safe, o, found, Stage(s'.slots, n))
      && s'.nAction == Padded(n, nterminal, safe, o, mn);
    var g := Grown(s.slots, s.nAction, nsymbol);
    GrowFilled(s.slots, g, s.nAction);
    assert Open(g);
    ChosenPlaceable(nsymbol, g, s.nAction, t, mn, mx, if safe then mn else 0, o, found);
    PlacedInserted(nsymbol, g, s.nAction, o, t, found, rows);
    GrownInserted(nsymbol, s.slots, g, s'.slots, rows, o, t, found);
    WrittenFilled(nsymbol, g, o, t, s.nAction, s'.nAction);
  }

  /** After an insertion nAction passes the allocation exactly when a token row is padded beyond it. Then
      acttab_action_size, and the loop that writes the lookaheads, would read past the allocation. */
  lemma PastAllocation(nsymbol: nat, nterminal: nat, s: Stage, t: seq<Slot>, mn: int, mx: int, safe: bool, o: int,
          found: bool, s': Stage)
    requires RowOk(nsymbol, t) && Inserts(nsymbol, nterminal, s, t, mn, mx, safe, o, found, s')
    ensures s'.nAction > |s'.slots| <==> safe && o + mn + nterminal >= |s'.slots|
  {
    var n: nat :| Places(nsymbol, s, t, mn, mx, safe, o, found, Stage(s'.slots, n))
      && s'.nAction == Padded(n, nterminal, safe, o, mn);
    var j :| 0 <= j < |t| && t[j].lookahead == mx;
    assert o + t[j].lookahead < |Grown(s.slots, s.nAction, nsymbol)|;
  }

  /** The searches leave no choice: what acttab_insert does is a function of the table and the row. */
  lemma ChosenUnique(tab: seq<Slot>, n: nat, t: seq<Slot>, mn: int, mx: int, end: int, o: int, found: bool, o': int,
          found': bool)
    requires t != [] && IsMin(t, mn) && IsMax(t, mx) && (end == 0 || end == mn)
    requires Chosen(tab, n, t, mn, mx, end, o, found) && Chosen(tab, n, t, mn, mx, end, o', found')
    ensures o == o' && found == found'
  {
  }

  lemma InsertsUnique(nsymbol: nat, nterminal: nat, s: Stage, t: seq<Slot>, mn: int, mx: int, safe: bool, o: int,
          found: bool, s': Stage,
                      mn': int, mx': int, o': int, found': bool, s'': Stage)
    requires t != [] && Inserts(nsymbol, nterminal, s, t, mn, mx, safe, o, found, s')
    requires Inserts(nsymbol, nterminal, s, t, mn', mx', safe, o', found', s'')
    ensures mn == mn' && mx == mx' && o == o' && found == found' && s' == s''
  {
    var n: nat :| Places(nsymbol, s, t, mn, mx, safe, o, found, Stage(s'.slots, n))
      && s'.nAction == Padded(n, nterminal, safe, o, mn);
    var n': nat :| Places(nsymbol, s, t, mn', mx', safe, o', found', Stage(s''.slots, n'))
      && s''.nAction == Padded(n', nterminal, safe, o', mn');
    EndsUnique(t, mn, mx, mn', mx');
    var g := Grown(s.slots, s.nAction, nsymbol);
    assert Open(g);
    ChosenUnique(g, s.nAction, t, mn, mx, if safe then mn else 0, o, found, o', found');
  }

  lemma EndsUnique(t: seq<Slot>, mn: int, mx: int, mn': int, mx': int)
    requires IsMin(t, mn) && IsMax(t, mx) && IsMin(t, mn') && IsMax(t, mx')
    ensures mn == mn' && mx == mx'
  {
  }

  lemma InsertsEnds(nsymbol: nat, nterminal: nat, s: Stage, t: seq<Slot>, mn: int, mx: int, safe: bool, o: int,
          found: bool, s': Stage)
    requires Inserts(nsymbol, nterminal, s, t, mn, mx, safe, o, found, s')
    ensures IsMin(t, mn) && IsMax(t, mx)
  {
  }

  class ActionTable {
    const nsymbol: nat
    const nterminal: nat
    var nAction: nat
    var aAction: array<Slot>
    var aLookahead: seq<Slot>
    var mnLookahead: int
    var mnAction: int
    var mxLookahead: int

    /** acttab_alloc. */
    constructor (nsymbol: nat, nterminal: nat)
      ensures this.nsymbol == nsymbol && this.nterminal == nterminal
      ensures Valid() && aLookahead == [] && View() == Stage([], 0) && fresh(aAction)
    {
      this.nsymbol, this.nterminal := nsymbol, nterminal;
      nAction, aLookahead, mnLookahead, mnAction, mxLookahead := 0, [], 0, 0, 0;
      aAction := new Slot[0];
    }

    ghost function View(): Stage
      reads this, aAction
    {
      Stage(aAction[..], nAction)
    }

    ghost predicate Valid()
      reads this, aAction
    {
      && FilledBelow(aAction[..], nAction)
      && (aLookahead != [] ==>
          IsMin(aLookahead, mnLookahead) && IsMax(aLookahead, mxLookahead) && HasMin(aLookahead, mnLookahead, mnAction))
    }

    /** acttab_action: one more entry for the row being collected. */
    method Collect(lookahead: int, action: int)
      requires Valid()
      modifies this
      ensures Valid() && aLookahead == old(aLookahead) + [Slot(lookahead, action)]
      ensures unchanged(`nAction) && unchanged(`aAction)
    {
      ghost var was := mnAction;
      if aLookahead == [] {
        mxLookahead, mnLookahead, mnAction := lookahead, lookahead, action;
      } else {
        if mxLookahead < lookahead { mxLookahead := lookahead; }
        if mnLookahead > lookahead { mnLookahead, mnAction := lookahead, action; }
      }
      MinMaxGrows(aLookahead, Slot(lookahead, action), old(mnLookahead), was, old(mxLookahead), mnLookahead, mnAction,
          mxLookahead);
      aLookahead := aLookahead + [Slot(lookahead, action)];
    }

    /** The growth step of acttab_insert. */
    method Grow()
      requires Valid()
      modifies this
      ensures Valid() && aAction[..] == Grown(old(aAction[..]), nAction, nsymbol)
      ensures aAction == old(aAction) || fresh(aAction)
      ensures unchanged(`nAction) && unchanged(`aLookahead) && unchanged(`mnLookahead) && unchanged(`mxLookahead)
      ensures unchanged(`mnAction)
    {
      var n := nsymbol + 1;
      if nAction + n >= aAction.Length {
        var alloc := nAction + n + aAction.Length + 20;
        var was := aAction;
        var grown := new Slot[alloc](k reads was => if 0 <= k < was.Length then was[k] else EMPTY);
        assert grown[..] == Grown(was[..], nAction, nsymbol);
        aAction := grown;
      }
    }

    /** acttab_insert: the offset at which the collected row can be read from now on. */
    method Insert(makeItSafe: bool) returns (offset: int, found: bool)
      requires Valid() && RowOk(nsymbol, aLookahead)
      modifies this, aAction
      ensures Valid() && aLookahead == [] && (aAction == old(aAction) || fresh(aAction))
      ensures Inserts(nsymbol, nterminal, old(View()), old(aLookahead), old(mnLookahead), old(mxLookahead),
          makeItSafe, offset, found, View())
    {
      ghost var s, t := View(), aLookahead;
      var i;
      i, found := Place(makeItSafe);
      offset := i - mnLookahead;
      ghost var n := nAction;
      if makeItSafe && i + nterminal >= nAction {
        nAction := i + nterminal + 1;
      }
      aLookahead := [];
      assert Places(nsymbol, s, t, mnLookahead, mxLookahead, makeItSafe, offset, found, Stage(View().slots, n));
      InsertsMeans(nsymbol, nterminal, s, t, mnLookahead, mxLookahead, makeItSafe, offset, found, View(), []);
    }

    method Place(makeItSafe: bool) returns (i: int, found: bool)
      requires Valid() && RowOk(nsymbol, aLookahead)
      modifies this, aAction
      ensures aAction == old(aAction) || fresh(aAction)
      ensures unchanged(`aLookahead) && unchanged(`mnLookahead) && unchanged(`mxLookahead)
      ensures Places(nsymbol, old(View()), aLookahead, mnLookahead, mxLookahead, makeItSafe,
          i - mnLookahead, found, View())
    {
      i, found := FindPlace(makeItSafe);
      Copy(i - mnLookahead);
    }

    /** Growth and searches. */
    method FindPlace(makeItSafe: bool) returns (i: int, found: bool)
      requires Valid() && RowOk(nsymbol, aLookahead)
      modifies this
      ensures Valid() && aAction[..] == Grown(old(aAction[..]), nAction, nsymbol)
      ensures (aAction == old(aAction) || fresh(aAction))
      ensures unchanged(`nAction) && unchanged(`aLookahead) && unchanged(`mnLookahead) && unchanged(`mxLookahead)
      ensures unchanged(`mnAction)
      ensures Picked(aAction[..], nAction, aLookahead, mnLookahead, mxLookahead,
          if makeItSafe then mnLookahead else 0, i - mnLookahead, found)
      ensures forall j :: 0 <= j < |aLookahead| ==> 0 <= i - mnLookahead + aLookahead[j].lookahead < aAction.Length
    {
      Grow();
      i, found := Search(makeItSafe);
      ChosenInside(nsymbol, aAction[..], nAction, aLookahead, mnLookahead, mxLookahead,
          if makeItSafe then mnLookahead else 0, i - mnLookahead, found);
    }

    /** Both searches of acttab_insert. */
    method Search(makeItSafe: bool) returns (i: int, found: bool)
      requires Valid() && RowOk(nsymbol, aLookahead) && nAction <= aAction.Length
      ensures Chosen(aAction[..], nAction, aLookahead, mnLookahead, mxLookahead,
          if makeItSafe then mnLookahead else 0, i - mnLookahead, found)
    {
      var end := if makeItSafe then mnLookahead else 0;
      i := FindDuplicate(aAction, nAction, aLookahead, mnLookahead, mnAction, end);
      found := true;
      if i < end {
        i, found := FindHole(aAction, nAction, nsymbol, aLookahead, mnLookahead, mxLookahead, end);
      }
    }

    /** The loop that copies the row into the table. */
    method Copy(offset: int)
      requires aLookahead != [] && IsMax(aLookahead, mxLookahead)
      requires forall j :: 0 <= j < |aLookahead| ==> 0 <= offset + aLookahead[j].lookahead < aAction.Length
      modifies this`nAction, aAction
      ensures aAction[..] == Written(old(aAction[..]), offset, aLookahead, |aLookahead|)
      ensures nAction == if offset + mxLookahead >= old(nAction) then offset + mxLookahead + 1 else old(nAction)
    {
      ghost var tab := aAction[..];
      for j := 0 to |aLookahead|
        invariant aAction[..] == Written(tab, offset, aLookahead, j)
        invariant nAction >= old(nAction) && forall i :: 0 <= i < j ==> offset + aLookahead[i].lookahead < nAction
        invariant nAction == old(nAction) || nAction <= offset + mxLookahead + 1
      {
        var k := offset + aLookahead[j].lookahead;
        ghost var before := aAction[..];
        aAction[k] := aLookahead[j];
        assert aAction[..] == before[k := aLookahead[j]];
        if k >= nAction { nAction := k + 1; }
      }
    }

    /** acttab_action_size: the table without its trailing empty slots. nAction is a logical length
        that can pass the allocation; what lies beyond counts as empty. */
    method ActionSize() returns (n: nat)
      requires Valid()
      ensures n <= nAction && n <= aAction.Length && FilledBelow(aAction[..], n)
      ensures n > 0 ==> aAction[n - 1].lookahead >= 0
    {
      n := nAction;
      while n > 0 && (n > aAction.Length || aAction[n - 1].lookahead < 0)
        invariant n <= nAction && FilledBelow(aAction[..], n)
      {
        n := n - 1;
      }
    }
  }

  /** Every slot of row t at offset o is inside the first n slots. */
  ghost predicate InTable(t: seq<Slot>, o: int, n: nat) {
    forall j :: 0 <= j < |t| ==> 0 <= o + t[j].lookahead < n
  }

  lemma MinMaxGrows(t: seq<Slot>, s: Slot, mn: int, mnAction: int, mx: int, mn': int, mnAction': int, mx': int)
    requires t != [] ==> IsMin(t, mn) && IsMax(t, mx) && HasMin(t, mn, mnAction)
    requires (mn', mnAction') == if t == [] || s.lookahead < mn then (s.lookahead, s.action) else (mn, mnAction)
    requires mx' == if t == [] || s.lookahead > mx then s.lookahead else mx
    ensures IsMin(t + [s], mn') && IsMax(t + [s], mx') && HasMin(t + [s], mn', mnAction')
  {
    var u := t + [s];
    assert u[|t|] == s;
    if t != [] {
      var i :| 0 <= i < |t| && t[i] == Slot(mn, mnAction);
      var j :| 0 <= j < |t| && t[j].lookahead == mx;
      assert u[i] == t[i] && u[j] == t[j];
    }
  }
}
