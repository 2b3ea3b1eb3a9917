/** ReportTable, first part: the rows of all states go into the packed action table, largest first. */
module Filling {
  import opened Grammars
  import opened MergeSort
  import opened ConfigLists
  import S = StateTables
  import opened Actions
  import opened Acttab
  import opened Codes
  import opened Resort
  import opened Seals

  /** The compressed action lists, and the final numbers of the states. */
  datatype Layout = Layout(g: Grammar, num: seq<nat>, out: seq<seq<Action>>)
  {
    function Code(): Bases { FinalBases(|num|, |g.rules|) }
  }

  /** No symbol has two coded actions. */
  ghost predicate CodedDistinct(l: seq<Action>) {
    forall i, k :: 0 <= i < k < |l| && Coded(l[i]) && Coded(l[k]) ==> l[i].sp != l[k].sp
  }

  ghost predicate LayoutOk(L: Layout) {
    && 0 < L.g.nterminal <= L.g.nsymbol && |L.num| == |L.out|
    && forall j :: 0 <= j < |L.out| ==> ListRefers(L.g, |L.num|, L.out[j]) && CodedDistinct(L.out[j])
  }

  /** The entries that a list contributes to the packed table. */
  function RowOf(g: Grammar, num: seq<nat>, b: Bases, l: seq<Action>, tkn: bool): seq<Slot>
    requires ListRefers(g, |num|, l)
  {
    if l == [] then []
    else
      var a := l[|l| - 1];
      assert l == l[..|l| - 1] + [a];
      RowOf(g, num, b, l[..|l| - 1], tkn) +
        if Coded(a) && InRange(g, a.sp, tkn) then [Slot(a.sp, ComputeAction(g, num, b, a))] else []
  }

  lemma {:induction false} RowSize(g: Grammar, num: seq<nat>, b: Bases, l: seq<Action>, tkn: bool)
    requires ListRefers(g, |num|, l)
    ensures |RowOf(g, num, b, l, tkn)| == |Select(g, l, tkn)|
  {
    if l != [] {
      assert l == l[..|l| - 1] + [l[|l| - 1]];
      RowSize(g, num, b, l[..|l| - 1], tkn);
    }
  }

  /** Where an entry comes from. */
  lemma {:induction false} RowFrom(g: Grammar, num: seq<nat>, b: Bases, l: seq<Action>, tkn: bool, k: nat)
    returns (i: nat)
    requires ListRefers(g, |num|, l) && k < |RowOf(g, num, b, l, tkn)|
    ensures i < |l| && Coded(l[i]) && InRange(g, l[i].sp, tkn)
    ensures l[i] in l && RowOf(g, num, b, l, tkn)[k] == Slot(l[i].sp, ComputeAction(g, num, b, l[i]))
  {
    assert l == l[..|l| - 1] + [l[|l| - 1]];
    if k < |RowOf(g, num, b, l[..|l| - 1], tkn)| {
      i := RowFrom(g, num, b, l[..|l| - 1], tkn, k);
    } else {
      i := |l| - 1;
    }
  }

  /** Every coded action in range has its entry. */
  lemma {:induction false} RowHas(g: Grammar, num: seq<nat>, b: Bases, l: seq<Action>, tkn: bool, i: nat)
    returns (k: nat)
    requires ListRefers(g, |num|, l) && i < |l| && Coded(l[i]) && InRange(g, l[i].sp, tkn)
    ensures l[i] in l && k < |RowOf(g, num, b, l, tkn)|
    ensures RowOf(g, num, b, l, tkn)[k] == Slot(l[i].sp, ComputeAction(g, num, b, l[i]))
  {
    assert l == l[..|l| - 1] + [l[|l| - 1]];
    if i < |l| - 1 {
      k := RowHas(g, num, b, l[..|l| - 1], tkn, i);
    } else {
      k := |RowOf(g, num, b, l[..|l| - 1], tkn)|;
    }
  }

  ghost predicate LookaheadsDiffer(t: seq<Slot>) {
    forall i, k :: 0 <= i < k < |t| ==> t[i].lookahead != t[k].lookahead
  }

  lemma {:induction false} RowDistinct(g: Grammar, num: seq<nat>, b: Bases, l: seq<Action>, tkn: bool)
    requires ListRefers(g, |num|, l) && CodedDistinct(l)
    ensures LookaheadsDiffer(RowOf(g, num, b, l, tkn))
  {
    if l != [] {
      var n := |l| - 1;
      assert l == l[..n] + [l[n]];
      RowDistinct(g, num, b, l[..n], tkn);
      var r := RowOf(g, num, b, l[..n], tkn);
      if Coded(l[n]) {
        forall i | 0 <= i < |r| ensures r[i].lookahead != l[n].sp {
          var m := RowFrom(g, num, b, l[..n], tkn, i);
        }
        assert LookaheadsDiffer(r + [Slot(l[n].sp, ComputeAction(g, num, b, l[n]))]);
      }
      assert r + [] == r;
    }
  }

  lemma RowReady(g: Grammar, num: seq<nat>, b: Bases, l: seq<Action>, tkn: bool)
    requires g.nterminal <= g.nsymbol && ListRefers(g, |num|, l) && CodedDistinct(l)
    ensures var r := RowOf(g, num, b, l, tkn); r != [] ==> RowOk(g.nsymbol, r)
  {
    var r := RowOf(g, num, b, l, tkn);
    RowDistinct(g, num, b, l, tkn);
    forall k | 0 <= k < |r| ensures 0 <= r[k].lookahead < g.nsymbol {
      var i := RowFrom(g, num, b, l, tkn, k);
    }
  }

  // ---- the order in which rows are inserted ----

  /** A row to be inserted: the state, which half of its actions, how many, and the original position. */
  datatype Ax = Ax(j: nat, isTkn: bool, nAction: nat, iOrder: nat)

  /** axset_compare: the largest row first. */
  function AxCmp(a: Ax, b: Ax): int {
    if a.nAction != b.nAction then b.nAction - a.nAction else a.iOrder - b.iOrder
  }

  lemma AxCmpOrder()
    ensures Total(AxCmp) && Transitive(AxCmp)
  {
  }

  /** The array lists exactly both halves of the first nxstate states, with their sizes. */
  ghost predicate IsAxset(L: Layout, order: seq<nat>, nxstate: nat, ax: seq<Ax>)
    requires nxstate <= |order|
  {
    && (forall k :: 0 <= k < |ax| ==> AxOk(L, order, nxstate, ax[k]))
    && (forall i, tkn :: 0 <= i < nxstate ==> HasAx(ax, order[i], tkn))
  }

  /** Halves are numbered 2i and 2i+1, tokens first. */
  ghost predicate HalfOf(order: seq<nat>, nxstate: nat, iOrder: nat, j: nat, tkn: bool)
    requires nxstate <= |order|
  {
    iOrder < 2 * nxstate && j == order[iOrder / 2] && tkn == (iOrder % 2 == 0)
  }

  ghost predicate AxOk(L: Layout, order: seq<nat>, nxstate: nat, a: Ax)
    requires nxstate <= |order|
  {
    HalfOf(order, nxstate, a.iOrder, a.j, a.isTkn) && a.j < |L.out| && a.nAction == |Select(L.g, L.out[a.j], a.isTkn)|
  }

  ghost predicate HasAx(ax: seq<Ax>, j: nat, tkn: bool) {
    exists k :: 0 <= k < |ax| && ax[k].j == j && ax[k].isTkn == tkn
  }

  /** The larger row, or of two rows of one size the one that came first. */
  predicate GoesFirst(a: Ax, b: Ax) {
    a.nAction > b.nAction || (a.nAction == b.nAction && a.iOrder < b.iOrder)
  }

  /** No two elements compare equal. */
  ghost predicate StrictlySorted(ax: seq<Ax>) {
    forall a, b :: 0 <= a < b < |ax| ==> GoesFirst(ax[a], ax[b])
  }

  method BuildAxset(L: Layout, infos: seq<Info>, order: seq<nat>, nxstate: nat) returns (ax: seq<Ax>)
    requires nxstate <= |order| && |infos| == |L.out| && forall i :: 0 <= i < |order| ==> order[i] < |L.out|
    requires forall j :: 0 <= j < |L.out| ==>
      infos[j].nTknAct == |Select(L.g, L.out[j], true)| && infos[j].nNtAct == |Select(L.g, L.out[j], false)|
    ensures IsAxset(L, order, nxstate, ax) && StrictlySorted(ax)
  {
    var raw: seq<Ax> := [];
    for i := 0 to nxstate
      invariant |raw| == 2 * i && forall k :: 0 <= k < 2 * i ==> AxOk(L, order, nxstate, raw[k]) && raw[k].iOrder == k
    {
      var j := order[i];
      raw := raw + [Ax(j, true, infos[j].nTknAct, 2 * i), Ax(j, false, infos[j].nNtAct, 2 * i + 1)];
    }
    AxCmpOrder();
    ax := Qsort(AxCmp, raw);
    AxsetPermuted(L, order, nxstate, raw, ax);
    AxsetStrict(raw, ax);
  }

  lemma AxsetStrict(raw: seq<Ax>, ax: seq<Ax>)
    requires (forall k :: 0 <= k < |raw| ==> raw[k].iOrder == k) && multiset(raw) == multiset(ax) && Sorted(AxCmp, ax)
    ensures StrictlySorted(ax)
  {
    AxCmpOrder();
    assert Distinct(raw);
    S.DistinctPermuted(raw, ax);
    forall a, b | 0 <= a < b < |ax| ensures GoesFirst(ax[a], ax[b]) {
      SortedPairs(AxCmp, ax, a, b);
      assert ax[a] in raw && ax[b] in raw;
    }
  }

  lemma AxsetPermuted(L: Layout, order: seq<nat>, nxstate: nat, raw: seq<Ax>, ax: seq<Ax>)
    requires nxstate <= |order| && |raw| == 2 * nxstate && multiset(raw) == multiset(ax)
    requires forall k :: 0 <= k < 2 * nxstate ==> AxOk(L, order, nxstate, raw[k]) && raw[k].iOrder == k
    ensures IsAxset(L, order, nxstate, ax)
  {
    forall k | 0 <= k < |ax| ensures AxOk(L, order, nxstate, ax[k]) {
      assert ax[k] in multiset(raw);
      var i :| 0 <= i < |raw| && raw[i] == ax[k];
    }
    forall i, tkn | 0 <= i < nxstate ensures HasAx(ax, order[i], tkn) {
      var a := raw[if tkn then 2 * i else 2 * i + 1];
      assert a in multiset(ax);
      var k :| 0 <= k < |ax| && ax[k] == a;
    }
  }

  // ---- filling ----

  /** The offsets handed out so far, by state and half. */
  type Offsets = map<(nat, bool), int>

  /** One insertion: which row and its original position, its smallest and largest lookahead, where it went,
      whether the search ended in a break, and the table afterwards. */
  datatype Step = Step(iOrder: nat, j: nat, tkn: bool, mn: int, mx: int, offset: int, found: bool, after: Stage)

  function Row(L: Layout, j: nat, tkn: bool): seq<Slot>
    requires j < |L.out| && ListRefers(L.g, |L.num|, L.out[j])
  {
    RowOf(L.g, L.num, L.Code(), L.out[j], tkn)
  }

  /** The table before step k. */
  function Before(steps: seq<Step>, k: nat): Stage
    requires k <= |steps|
  {
    if k == 0 then Stage([], 0) else steps[k - 1].after
  }

  /** Step k inserts the row of a half of a state as acttab_insert does. */
  ghost predicate StepOk(L: Layout, steps: seq<Step>, k: nat)
    requires LayoutOk(L) && k < |steps|
  {
    Stepped(L, Before(steps, k), steps[k])
  }

  ghost predicate Stepped(L: Layout, before: Stage, s: Step)
    requires LayoutOk(L)
  {
    && s.j < |L.out| && Row(L, s.j, s.tkn) != []
    && forall q {:trigger Open(q)} :: Open(q) && q == s ==>
         Inserts(L.g.nsymbol, L.g.nterminal, before, Row(L, s.j, s.tkn), s.mn, s.mx, s.tkn, s.offset, s.found, s.after)
  }

  /** The table is the outcome of these insertions, one after the other. */
  ghost predicate Packing(L: Layout, steps: seq<Step>)
    requires LayoutOk(L)
  {
    forall k :: 0 <= k < |steps| ==> StepOk(L, steps, k)
  }

  /** Every search ended in a break, or else happened on an offset where nothing was visible. */
  ghost predicate AllFound(steps: seq<Step>) {
    forall k :: 0 <= k < |steps| ==> FoundAt(steps, k)
  }

  ghost predicate FoundAt(steps: seq<Step>, k: nat)
    requires k < |steps|
  {
    steps[k].found || Clear(Before(steps, k).slots, steps[k].offset)
  }

  /** The rows inserted, with their offsets. */
  function RowsOf(L: Layout, steps: seq<Step>): (r: seq<Placed>)
    requires LayoutOk(L) && forall k :: 0 <= k < |steps| ==> steps[k].j < |L.out|
    ensures |r| == |steps| && forall k ::
      0 <= k < |steps| ==> r[k] == Placed(steps[k].offset, Row(L, steps[k].j, steps[k].tkn))
  {
    seq(|steps|, k requires 0 <= k < |steps| => Placed(steps[k].offset, Row(L, steps[k].j, steps[k].tkn)))
  }

  lemma PackingPrefix(L: Layout, steps: seq<Step>, n: nat)
    requires LayoutOk(L) && Packing(L, steps) && n <= |steps|
    ensures Packing(L, steps[..n])
  {
    forall k | 0 <= k < n ensures StepOk(L, steps[..n], k) {
      assert StepOk(L, steps, k);
    }
  }

  lemma StepBounds(L: Layout, steps: seq<Step>)
    requires LayoutOk(L) && Packing(L, steps)
    ensures forall k :: 0 <= k < |steps| ==> steps[k].j < |L.out|
  {
    forall k | 0 <= k < |steps| ensures steps[k].j < |L.out| { assert StepOk(L, steps, k); }
  }

  /** What the insertions add up to: no entry is lost, every row lies in the table, token rows safely so, and
      all rows are readable exactly when every search found a clear place. */
  ghost predicate Adds(L: Layout, steps: seq<Step>)
    requires LayoutOk(L) && forall k :: 0 <= k < |steps| ==> steps[k].j < |L.out|
  {
    var last := Before(steps, |steps|);
    FilledBelow(last.slots, last.nAction) && Readable(L, steps, last.slots) && Inside(L, steps, last.nAction)
  }

  ghost predicate Readable(L: Layout, steps: seq<Step>, slots: seq<Slot>)
    requires LayoutOk(L) && forall k :: 0 <= k < |steps| ==> steps[k].j < |L.out|
  {
    match L
    case Layout(g, _, _) =>
      && AllPresent(g.nsymbol, slots, RowsOf(L, steps))
      && (AllHold(g.nsymbol, slots, RowsOf(L, steps)) <==> AllFound(steps))
  }

  ghost predicate Inside(L: Layout, steps: seq<Step>, n: nat)
    requires LayoutOk(L) && forall k :: 0 <= k < |steps| ==> steps[k].j < |L.out|
  {
    forall k :: 0 <= k < |steps| ==> InsideAt(L, steps[k], n)
  }

  ghost predicate InsideAt(L: Layout, s: Step, n: nat)
    requires LayoutOk(L) && s.j < |L.out|
  {
    InTable(Row(L, s.j, s.tkn), s.offset, n) && (s.tkn ==> 0 <= s.offset && s.offset + L.g.nterminal < n)
  }

  lemma {:induction false} PackingMeans(L: Layout, steps: seq<Step>)
    requires LayoutOk(L) && Packing(L, steps)
    ensures (forall k :: 0 <= k < |steps| ==> steps[k].j < |L.out|) && Adds(L, steps)
    decreases |steps|
  {
    StepBounds(L, steps);
    if steps != [] {
      var n := |steps| - 1;
      PackingPrefix(L, steps, n);
      PackingMeans(L, steps[..n]);
      AddsOne(L, steps);
    }
  }

  /** One insertion keeps the table in order and lies within it; its search ends in a break when the smallest
      and largest lookahead of the row add up to at most the number of symbols. */
  lemma StepInside(L: Layout, b: Stage, s: Step)
    requires LayoutOk(L) && Stepped(L, b, s) && FilledBelow(b.slots, b.nAction)
    ensures FilledBelow(s.after.slots, s.after.nAction) && s.after.nAction >= b.nAction
    ensures InsideAt(L, s, s.after.nAction)
    ensures s.mn + s.mx <= L.g.nsymbol ==> s.found
  {
    assert Open(s);
    RowReady(L.g, L.num, L.Code(), L.out[s.j], s.tkn);
    InsertsMeans(L.g.nsymbol, L.g.nterminal, b, Row(L, s.j, s.tkn), s.mn, s.mx, s.tkn, s.offset, s.found, s.after, []);
  }

  lemma StepRows(L: Layout, b: Stage, s: Step, rows: seq<Placed>)
    requires LayoutOk(L) && Stepped(L, b, s) && FilledBelow(b.slots, b.nAction)
    ensures Inserted(L.g.nsymbol, b.slots, s.after.slots, rows, s.offset, Row(L, s.j, s.tkn), s.found)
  {
    assert Open(s);
    RowReady(L.g, L.num, L.Code(), L.out[s.j], s.tkn);
    InsertsMeans(L.g.nsymbol, L.g.nterminal, b, Row(L, s.j, s.tkn), s.mn, s.mx, s.tkn, s.offset, s.found, s.after,
        rows);
  }

  lemma AddsOne(L: Layout, steps: seq<Step>)
    requires LayoutOk(L) && steps != [] && StepOk(L, steps, |steps| - 1)
    requires (forall k :: 0 <= k < |steps| ==> steps[k].j < |L.out|) && Adds(L, steps[..|steps| - 1])
    ensures Adds(L, steps)
  {
    var n := |steps| - 1;
    assert Before(steps[..n], n) == Before(steps, n);
    var b := Before(steps, n);
    StepInside(L, b, steps[n]);
    ReadableOne(L, steps, b);
    InsideOne(L, steps, b.nAction, steps[n].after.nAction);
  }

  lemma ReadableOne(L: Layout, steps: seq<Step>, b: Stage)
    requires LayoutOk(L) && steps != [] && (forall k :: 0 <= k < |steps| ==> steps[k].j < |L.out|)
    requires Before(steps, |steps| - 1) == b && FilledBelow(b.slots, b.nAction) && Stepped(L, b, steps[|steps| - 1])
    requires Readable(L, steps[..|steps| - 1], b.slots)
    ensures Readable(L, steps, steps[|steps| - 1].after.slots)
  {
    RowsOne(L, steps);
    FoundOne(steps);
    StepRows(L, b, steps[|steps| - 1], RowsOf(L, steps[..|steps| - 1]));
  }

  lemma InsideOne(L: Layout, steps: seq<Step>, n: nat, n': nat)
    requires LayoutOk(L) && steps != [] && (forall k :: 0 <= k < |steps| ==> steps[k].j < |L.out|)
    requires Inside(L, steps[..|steps| - 1], n) && n <= n' && InsideAt(L, steps[|steps| - 1], n')
    ensures Inside(L, steps, n')
  {
    forall k | 0 <= k < |steps| ensures InsideAt(L, steps[k], n') {
      if k < |steps| - 1 { assert InsideAt(L, steps[..|steps| - 1][k], n); }
    }
  }

  lemma RowsOne(L: Layout, steps: seq<Step>)
    requires LayoutOk(L) && steps != [] && forall k :: 0 <= k < |steps| ==> steps[k].j < |L.out|
    ensures var n := |steps| - 1;
      RowsOf(L, steps) == RowsOf(L, steps[..n]) + [Placed(steps[n].offset, Row(L, steps[n].j, steps[n].tkn))]
  {
  }

  lemma FoundOne(steps: seq<Step>)
    requires steps != []
    ensures AllFound(steps) <==> AllFound(steps[..|steps| - 1]) && FoundAt(steps, |steps| - 1)
  {
    var n := |steps| - 1;
    forall k | 0 <= k < n ensures FoundAt(steps, k) <==> FoundAt(steps[..n], k) {
      assert Before(steps, k) == Before(steps[..n], k);
    }
  }

  /** The smallest and largest lookahead of the row add up to at most the number of symbols. */
  ghost predicate Narrow(L: Layout, j: nat, tkn: bool)
    requires LayoutOk(L) && j < |L.out|
  {
    forall mn, mx :: IsMin(Row(L, j, tkn), mn) && IsMax(Row(L, j, tkn), mx) ==> mn + mx <= L.g.nsymbol
  }

  /** Packing capacity: when all rows are narrow, every search ends in a break. */
  lemma NarrowFound(L: Layout, steps: seq<Step>)
    requires LayoutOk(L) && Packing(L, steps) && forall j, tkn :: 0 <= j < |L.out| ==> Narrow(L, j, tkn)
    ensures (forall k :: 0 <= k < |steps| ==> steps[k].found) && AllFound(steps)
  {
    forall k | 0 <= k < |steps| ensures steps[k].found && FoundAt(steps, k) {
      assert StepOk(L, steps, k);
      PackingPrefix(L, steps, k);
      PackingMeans(L, steps[..k]);
      assert Before(steps[..k], k) == Before(steps, k);
      NarrowStep(L, Before(steps, k), steps[k]);
      StepInside(L, Before(steps, k), steps[k]);
    }
  }

  lemma NarrowStep(L: Layout, b: Stage, s: Step)
    requires LayoutOk(L) && Stepped(L, b, s) && Narrow(L, s.j, s.tkn)
    ensures s.mn + s.mx <= L.g.nsymbol
  {
    assert Open(s);
    InsertsEnds(L.g.nsymbol, L.g.nterminal, b, Row(L, s.j, s.tkn), s.mn, s.mx, s.tkn, s.offset, s.found, s.after);
  }

  /** After all insertions nAction passes the allocation exactly when the last one pads a token row beyond it. */
  lemma FillPastAllocation(L: Layout, steps: seq<Step>)
    requires LayoutOk(L) && Packing(L, steps)
    ensures var last := Before(steps, |steps|);
      last.nAction > |last.slots| <==>
        steps != [] && var s := steps[|steps| - 1]; s.tkn && s.offset + s.mn + L.g.nterminal >= |last.slots|
  {
    if steps != [] {
      var s := steps[|steps| - 1];
      assert StepOk(L, steps, |steps| - 1) && Open(s);
      RowReady(L.g, L.num, L.Code(), L.out[s.j], s.tkn);
      PastAllocation(L.g.nsymbol, L.g.nterminal, Before(steps, |steps| - 1), Row(L, s.j, s.tkn), s.mn, s.mx, s.tkn,
        s.offset, s.found, s.after);
    }
  }

  /** Each offset is that of an insertion of that row. */
  ghost predicate OffsetsOk(steps: seq<Step>, ofst: Offsets) {
    forall j, tkn :: (j, tkn) in ofst ==> Recorded(steps, j, tkn, ofst[(j, tkn)])
  }

  ghost predicate Recorded(steps: seq<Step>, j: nat, tkn: bool, o: int) {
    exists k :: 0 <= k < |steps| && steps[k].j == j && steps[k].tkn == tkn && steps[k].offset == o
  }

  /** The smallest offset of a nonterminal row, or 0. */
  ghost predicate MnOffset(steps: seq<Step>, mn: int) {
    && mn <= 0 && (forall k :: 0 <= k < |steps| && !steps[k].tkn ==> mn <= steps[k].offset)
    && (mn == 0 || exists k :: 0 <= k < |steps| && !steps[k].tkn && steps[k].offset == mn)
  }

  /** Every row is a half of one of the first nxstate states; larger rows come before smaller ones, and rows of
      the same size in their original order. */
  ghost predicate LargestFirst(L: Layout, order: seq<nat>, nxstate: nat, steps: seq<Step>)
    requires LayoutOk(L) && nxstate <= |order|
  {
    && (forall k :: 0 <= k < |steps| ==> HalfOf(order, nxstate, steps[k].iOrder, steps[k].j, steps[k].tkn))
    && (forall a, b :: 0 <= a < b < |steps| ==>
          || RowSizeAt(L, steps, a) > RowSizeAt(L, steps, b)
          || (RowSizeAt(L, steps, a) == RowSizeAt(L, steps, b) && steps[a].iOrder < steps[b].iOrder))
  }

  ghost function RowSizeAt(L: Layout, steps: seq<Step>, k: nat): nat
    requires LayoutOk(L) && k < |steps|
  {
    if steps[k].j < |L.out| then |Row(L, steps[k].j, steps[k].tkn)| else 0
  }

  /** Collect the row of one half of a state. */
  method CollectRow(tab: ActionTable, L: Layout, j: nat, tkn: bool)
    requires tab.Valid() && tab.aLookahead == [] && LayoutOk(L) && j < |L.out|
    modifies tab
    ensures tab.Valid() && tab.aLookahead == Row(L, j, tkn)
    ensures tab.nAction == old(tab.nAction) && tab.aAction == old(tab.aAction)
  {
    var l := L.out[j];
    for k := 0 to |l|
      invariant tab.Valid() && ListRefers(L.g, |L.num|, l[..k])
      invariant tab.aLookahead == RowOf(L.g, L.num, L.Code(), l[..k], tkn)
      invariant tab.nAction == old(tab.nAction) && tab.aAction == old(tab.aAction)
    {
      assert l[..k + 1][..k] == l[..k] && l[k] in l;
      var action := ComputeAction(L.g, L.num, L.Code(), l[k]);
      if InRange(L.g, l[k].sp, tkn) && action >= 0 {
        tab.Collect(l[k].sp, action);
      }
    }
    assert l[..|l|] == l;
  }

  /** One row: collected and inserted. */
  method InsertRow(tab: ActionTable, L: Layout, ghost iOrder: nat, j: nat, tkn: bool) returns (o: int, ghost step: Step)
    requires LayoutOk(L) && j < |L.out| && tab.nsymbol == L.g.nsymbol && tab.nterminal == L.g.nterminal
    requires tab.Valid() && tab.aLookahead == [] && Row(L, j, tkn) != []
    modifies tab, tab.aAction
    ensures tab.Valid() && tab.aLookahead == [] && (tab.aAction == old(tab.aAction) || fresh(tab.aAction))
    ensures step.iOrder == iOrder && step.j == j && step.tkn == tkn && step.offset == o && step.after == tab.View()
    ensures Stepped(L, old(tab.View()), step)
  {
    RowReady(L.g, L.num, L.Code(), L.out[j], tkn);
    ghost var before := tab.View();
    CollectRow(tab, L, j, tkn);
    assert tab.View() == before;
    ghost var mn, mx := tab.mnLookahead, tab.mxLookahead;
    var found;
    o, found := tab.Insert(tkn);
    step := Step(iOrder, j, tkn, mn, mx, o, found, tab.View());
  }

  /** Exactly the nonempty halves of the first nxstate states have an offset. */
  ghost predicate AllPlaced(L: Layout, order: seq<nat>, nxstate: nat, ofst: Offsets)
    requires LayoutOk(L) && nxstate <= |order| && forall i :: 0 <= i < |order| ==> order[i] < |L.out|
  {
    && (forall j, tkn :: (j, tkn) in ofst ==> j < |L.out| && RowOf(L.g, L.num, L.Code(), L.out[j], tkn) != [])
    && (forall i, tkn :: 0 <= i < nxstate && RowOf(L.g, L.num, L.Code(), L.out[order[i]], tkn) != [] ==>
          (order[i], tkn) in ofst)
  }

  /** The rows from k on are empty, as soon as row k is: the largest come first. */
  lemma RestEmpty(ax: seq<Ax>, k: nat, m: nat)
    requires k <= m < |ax| && ax[k].nAction == 0 && StrictlySorted(ax)
    ensures ax[m].nAction == 0
  {
  }

  /** The state of the filling loop after i rows. */
  ghost predicate FillState(L: Layout, ax: seq<Ax>, steps: seq<Step>, ofst: Offsets, mn: int) {
    match L
    case Layout(_, _, _) =>
      && LayoutOk(L) && Packing(L, steps) && OffsetsOk(steps, ofst) && MnOffset(steps, mn)
      && |steps| <= |ax| && (forall k :: 0 <= k < |steps| ==> Done(ax, steps, ofst, k))
  }

  /** Entry k of the order has been inserted. */
  ghost predicate Done(ax: seq<Ax>, steps: seq<Step>, ofst: Offsets, k: nat)
    requires k < |steps| <= |ax|
  {
    steps[k].iOrder == ax[k].iOrder && steps[k].j == ax[k].j
    && steps[k].tkn == ax[k].isTkn && (ax[k].j, ax[k].isTkn) in ofst
  }

  lemma FillNext(L: Layout, ax: seq<Ax>, steps: seq<Step>, ofst: Offsets, mn: int, step: Step, mn': int)
    requires LayoutOk(L) && FillState(L, ax, steps, ofst, mn) && |steps| < |ax|
    requires step.iOrder == ax[|steps|].iOrder && step.j == ax[|steps|].j && step.tkn == ax[|steps|].isTkn
    requires Stepped(L, Before(steps, |steps|), step)
    requires mn' == if !step.tkn && step.offset < mn then step.offset else mn
    ensures FillState(L, ax, steps + [step], ofst[(step.j, step.tkn) := step.offset], mn')
  {
    var all, ofst' := steps + [step], ofst[(step.j, step.tkn) := step.offset];
    forall k | 0 <= k < |all| ensures StepOk(L, all, k) {
      assert Before(all, k) == Before(steps, k);
      if k < |steps| { assert StepOk(L, steps, k); }
    }
    forall k | 0 <= k < |all| ensures Done(ax, all, ofst', k) {
      if k < |steps| { assert Done(ax, steps, ofst, k); }
    }
    RecordedOne(steps, ofst, step);
    MnOffsetOne(steps, mn, step);
  }

  lemma MnOffsetOne(steps: seq<Step>, mn: int, step: Step)
    requires MnOffset(steps, mn)
    ensures MnOffset(steps + [step], if !step.tkn && step.offset < mn then step.offset else mn)
  {
    var all := steps + [step];
    assert all[|steps|] == step && forall k :: 0 <= k < |steps| ==> all[k] == steps[k];
  }

  lemma RecordedOne(steps: seq<Step>, ofst: Offsets, step: Step)
    requires OffsetsOk(steps, ofst)
    ensures OffsetsOk(steps + [step], ofst[(step.j, step.tkn) := step.offset])
  {
    var all, ofst' := steps + [step], ofst[(step.j, step.tkn) := step.offset];
    forall j, tkn | (j, tkn) in ofst' ensures Recorded(all, j, tkn, ofst'[(j, tkn)]) {
      if (j, tkn) == (step.j, step.tkn) {
        assert all[|steps|] == step;
      } else {
        assert Recorded(steps, j, tkn, ofst[(j, tkn)]);
        var k :| 0 <= k < |steps| && steps[k].j == j && steps[k].tkn == tkn && steps[k].offset == ofst[(j, tkn)];
        assert all[k] == steps[k];
      }
    }
  }

  /** The filling loop has done everything. */
  lemma FilledAll(L: Layout, order: seq<nat>, nxstate: nat, ax: seq<Ax>, steps: seq<Step>, ofst: Offsets, mn: int)
    requires LayoutOk(L) && nxstate <= |order| && (forall i :: 0 <= i < |order| ==> order[i] < |L.out|)
    requires IsAxset(L, order, nxstate, ax)
    requires StrictlySorted(ax)
    requires FillState(L, ax, steps, ofst, mn) && (|steps| < |ax| ==> ax[|steps|].nAction == 0)
    ensures AllPlaced(L, order, nxstate, ofst)
  {
    forall s, tkn | 0 <= s < nxstate && RowOf(L.g, L.num, L.Code(), L.out[order[s]], tkn) != []
      ensures (order[s], tkn) in ofst
    {
      assert HasAx(ax, order[s], tkn);
      var k :| 0 <= k < |ax| && ax[k].j == order[s] && ax[k].isTkn == tkn;
      RowSize(L.g, L.num, L.Code(), L.out[order[s]], tkn);
      if k >= |steps| { RestEmpty(ax, |steps|, k); } else { assert Done(ax, steps, ofst, k); }
    }
    forall j, tkn | (j, tkn) in ofst ensures j < |L.out| && RowOf(L.g, L.num, L.Code(), L.out[j], tkn) != [] {
      assert Recorded(steps, j, tkn, ofst[(j, tkn)]);
      var k :| 0 <= k < |steps| && steps[k].j == j && steps[k].tkn == tkn && steps[k].offset == ofst[(j, tkn)];
      assert StepOk(L, steps, k);
    }
  }

  lemma FilledLargest(L: Layout, order: seq<nat>, nxstate: nat, ax: seq<Ax>, steps: seq<Step>, ofst: Offsets, mn: int)
    requires nxstate <= |order| && IsAxset(L, order, nxstate, ax) && StrictlySorted(ax)
    requires LayoutOk(L) && FillState(L, ax, steps, ofst, mn)
    ensures LargestFirst(L, order, nxstate, steps)
  {
    forall k | 0 <= k < |steps|
      ensures HalfOf(order, nxstate, steps[k].iOrder, steps[k].j, steps[k].tkn)
      ensures RowSizeAt(L, steps, k) == ax[k].nAction
    {
      assert Done(ax, steps, ofst, k) && AxOk(L, order, nxstate, ax[k]);
      RowSize(L.g, L.num, L.Code(), L.out[ax[k].j], ax[k].isTkn);
    }
    forall a, b | 0 <= a < b < |steps|
      ensures RowSizeAt(L, steps, a) > RowSizeAt(L, steps, b)
        || (RowSizeAt(L, steps, a) == RowSizeAt(L, steps, b) && steps[a].iOrder < steps[b].iOrder)
    {
      assert Done(ax, steps, ofst, a) && Done(ax, steps, ofst, b) && AxCmp(ax[a], ax[b]) < 0;
    }
  }

  /** The loop of ReportTable that fills the packed table: the rows go in one after the other, largest
      first, and each state remembers its offsets. */
  method Fill(L: Layout, infos: seq<Info>, order: seq<nat>, nxstate: nat)
    returns (tab: ActionTable, ofst: Offsets, mnNtOfst: int, ghost steps: seq<Step>)
    requires LayoutOk(L) && nxstate <= |order| && |infos| == |L.out| && forall i ::
      0 <= i < |order| ==> order[i] < |L.out|
    requires forall j :: 0 <= j < |L.out| ==>
      infos[j].nTknAct == |Select(L.g, L.out[j], true)| && infos[j].nNtAct == |Select(L.g, L.out[j], false)|
    ensures fresh(tab) && fresh(tab.aAction) && tab.Valid() && AllPlaced(L, order, nxstate, ofst)
    ensures Packing(L, steps) && LargestFirst(L, order, nxstate, steps) && tab.View() == Before(steps, |steps|)
    ensures OffsetsOk(steps, ofst) && MnOffset(steps, mnNtOfst)
  {
    var ax := BuildAxset(L, infos, order, nxstate);
    tab := new ActionTable(L.g.nsymbol, L.g.nterminal);
    ofst, mnNtOfst, steps := map[], 0, [];
    var i := 0;
    while i < |ax| && ax[i].nAction > 0
      invariant i == |steps| <= |ax| && fresh(tab) && fresh(tab.aAction) && tab.Valid() && tab.aLookahead == []
      invariant tab.nsymbol == L.g.nsymbol && tab.nterminal == L.g.nterminal && tab.View() == Before(steps, |steps|)
      invariant FillState(L, ax, steps, ofst, mnNtOfst)
    {
      var j, tkn := ax[i].j, ax[i].isTkn;
      assert AxOk(L, order, nxstate, ax[i]);
      RowSize(L.g, L.num, L.Code(), L.out[j], tkn);
      ghost var mn := mnNtOfst;
      var o, step := InsertRow(tab, L, ax[i].iOrder, j, tkn);
      if !tkn && o < mnNtOfst { mnNtOfst := o; }
      FillNext(L, ax, steps, ofst, mn, step, mnNtOfst);
      ofst, steps := ofst[(j, tkn) := o], steps + [step];
      i := i + 1;
    }
    FilledAll(L, order, nxstate, ax, steps, ofst, mnNtOfst);
    FilledLargest(L, order, nxstate, ax, steps, ofst, mnNtOfst);
  }
}
