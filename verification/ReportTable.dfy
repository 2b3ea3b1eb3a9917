/** ReportTable, second part: the tables of the generated parser, and what the parser's lookups find in
them. */
module Report {
  import opened Grammars
  import opened ConfigLists
  import opened Actions
  import opened Acttab
  import opened Codes
  import opened Resort
  import opened Filling
  import RuleNumbers
  import D = Driver

  /** The packed table when it is written out: its slots, its logical length, its length without
      trailing empty slots, the offsets of the rows, and the smallest nonterminal offset. */
  datatype Packed = Packed(slots: seq<Slot>, nAction: nat, nactiontab: nat, ofst: Offsets, mnNtOfst: int)

  function SlotAt(slots: seq<Slot>, k: nat): Slot {
    if k < |slots| then slots[k] else EMPTY
  }

  // ---- the output loops ----

  function ActionOut(none: nat, s: Slot): nat {
    if s.action < 0 then none else s.action
  }

  method EmitAction(slots: seq<Slot>, n: nat, none: nat) returns (r: seq<nat>)
    requires n <= |slots|
    ensures |r| == n && forall k :: 0 <= k < n ==> r[k] == ActionOut(none, slots[k])
  {
    r := [];
    for i := 0 to n
      invariant |r| == i && forall k :: 0 <= k < i ==> r[k] == ActionOut(none, slots[k])
    {
      r := r + [if slots[i].action < 0 then none else slots[i].action];
    }
  }

  /** The lookaheads, padded so that an offset plus any token is a valid index. */
  ghost predicate LookaheadsOut(g: Grammar, K: Packed, r: seq<nat>) {
    && |r| >= K.nAction && |r| >= g.nterminal + K.nactiontab
    && forall k :: 0 <= k < |r| ==>
         r[k] == if k >= K.nAction then g.nterminal
           else if SlotAt(K.slots, k).lookahead < 0 then g.nsymbol else SlotAt(K.slots, k).lookahead
  }

  method EmitLookahead(g: Grammar, K: Packed) returns (r: seq<nat>)
    ensures LookaheadsOut(g, K, r)
  {
    r := [];
    var i := 0;
    while i < K.nAction
      invariant i <= K.nAction && |r| == i
      invariant forall k ::
        0 <= k < i ==> r[k] == if SlotAt(K.slots, k).lookahead < 0 then g.nsymbol else SlotAt(K.slots, k).lookahead
    {
      var la := SlotAt(K.slots, i).lookahead;
      r := r + [if la < 0 then g.nsymbol else la];
      i := i + 1;
    }
    while i < g.nterminal + K.nactiontab
      invariant |r| == i >= K.nAction
      invariant forall k :: 0 <= k < i ==>
        r[k] == if k >= K.nAction then g.nterminal
          else if SlotAt(K.slots, k).lookahead < 0 then g.nsymbol else SlotAt(K.slots, k).lookahead
    {
      r := r + [g.nterminal];
      i := i + 1;
    }
  }

  /** The offsets of one half of the states, without the trailing states that have none; a state in
      the middle that has none gets `missing`. */
  ghost predicate OffsetsOut(order: seq<nat>, nxstate: nat, ofst: Offsets, tkn: bool, missing: int, r: seq<int>)
    requires nxstate <= |order|
  {
    && |r| <= nxstate
    && (forall i :: 0 <= i < |r| ==> r[i] == if (order[i], tkn) in ofst then ofst[(order[i], tkn)] else missing)
    && (forall i :: |r| <= i < nxstate ==> (order[i], tkn) !in ofst)
    && (r != [] ==> (order[|r| - 1], tkn) in ofst)
  }

  method EmitOffsets(order: seq<nat>, nxstate: nat, ofst: Offsets, tkn: bool, missing: int) returns (r: seq<int>)
    requires nxstate <= |order|
    ensures OffsetsOut(order, nxstate, ofst, tkn, missing, r)
  {
    var n := nxstate;
    while n > 0 && (order[n - 1], tkn) !in ofst
      invariant 0 <= n <= nxstate && forall i :: n <= i < nxstate ==> (order[i], tkn) !in ofst
    {
      n := n - 1;
    }
    r := [];
    for i := 0 to n
      invariant |r| == i && forall k ::
        0 <= k < i ==> r[k] == if (order[k], tkn) in ofst then ofst[(order[k], tkn)] else missing
    {
      r := r + [if (order[i], tkn) in ofst then ofst[(order[i], tkn)] else missing];
    }
  }

  function DefaultOut(b: Bases, info: Info): nat
    requires info.iDfltReduce >= -1
  {
    if info.iDfltReduce < 0 then b.errAction else info.iDfltReduce + b.minReduce
  }

  method EmitDefault(b: Bases, infos: seq<Info>, order: seq<nat>, nxstate: nat) returns (r: seq<nat>)
    requires nxstate <= |order| && (forall i :: 0 <= i < |order| ==> order[i] < |infos|) && forall j ::
      0 <= j < |infos| ==> infos[j].iDfltReduce >= -1
    ensures |r| == nxstate && forall i :: 0 <= i < nxstate ==> r[i] == DefaultOut(b, infos[order[i]])
  {
    r := [];
    for i := 0 to nxstate
      invariant |r| == i && forall k :: 0 <= k < i ==> r[k] == DefaultOut(b, infos[order[k]])
    {
      r := r + [if infos[order[i]].iDfltReduce < 0 then b.errAction else infos[order[i]].iDfltReduce + b.minReduce];
    }
  }

  /** The rules are numbered 0 .. nrule-1 by iRule. */
  ghost predicate RulesNumbered(g: Grammar) {
    && (forall r :: 0 <= r < |g.rules| ==> g.rules[r].iRule < |g.rules|)
    && (forall r, s :: 0 <= r < s < |g.rules| ==> g.rules[r].iRule != g.rules[s].iRule)
  }

  /** The numbering in main is such a numbering. */
  lemma NumberedByMain(g: Grammar, hasCode: seq<bool>)
    requires |hasCode| == |g.rules| && forall r ::
      0 <= r < |g.rules| ==> g.rules[r].iRule == RuleNumbers.Number(hasCode, r)
    ensures RulesNumbered(g)
  {
    forall r, s | 0 <= r < |g.rules| && 0 <= s < |g.rules|
      ensures g.rules[r].iRule < |g.rules| && (g.rules[r].iRule == g.rules[s].iRule <==> r == s)
    {
      RuleNumbers.NumbersDiffer(hasCode, r, s);
    }
  }

  /** yyRuleInfoLhs and yyRuleInfoNRhs. */
  method EmitRules(g: Grammar) returns (lhs: seq<nat>, nrhs: seq<nat>)
    requires RulesNumbered(g)
    ensures |lhs| == |nrhs| == |g.rules|
    ensures forall r ::
      0 <= r < |g.rules| ==> lhs[g.rules[r].iRule] == g.rules[r].lhs && nrhs[g.rules[r].iRule] == |g.rules[r].rhs|
  {
    var n := |g.rules|;
    var a, b := new nat[n](_ => 0), new nat[n](_ => 0);
    for r := 0 to n
      invariant forall q ::
        0 <= q < r ==> a[g.rules[q].iRule] == g.rules[q].lhs && b[g.rules[q].iRule] == |g.rules[q].rhs|
    {
      a[g.rules[r].iRule] := g.rules[r].lhs;
      b[g.rules[r].iRule] := |g.rules[r].rhs|;
    }
    lhs, nrhs := a[..], b[..];
  }

  // ---- the tables as a whole ----

  /** What the output loops write, taken together. */
  ghost predicate Emitted(L: Layout, infos: seq<Info>, order: seq<nat>, nxstate: nat, K: Packed, T: D.Tables) {
    && nxstate <= |order| && (forall i :: 0 <= i < |order| ==> order[i] < |infos|)
    && T.nterminal == L.g.nterminal && T.nstate == |L.num| && T.nxstate == nxstate
    && K.nactiontab <= |K.slots| && |T.yyAction| == K.nactiontab
    && (forall k :: 0 <= k < K.nactiontab ==> T.yyAction[k] == ActionOut(L.Code().noAction, K.slots[k]))
    && LookaheadsOut(L.g, K, T.yyLookahead)
    && OffsetsOut(order, nxstate, K.ofst, true, K.nactiontab, T.yyShiftOfst)
    && OffsetsOut(order, nxstate, K.ofst, false, K.mnNtOfst - 1, T.yyReduceOfst)
    && |T.yyDefault| == nxstate
    && (forall i :: 0 <= i < nxstate ==>
          infos[order[i]].iDfltReduce >= -1 && T.yyDefault[i] == DefaultOut(L.Code(), infos[order[i]]))
    && |T.ruleLhs| == |T.ruleNRhs| == |L.g.rules|
    && (forall r :: 0 <= r < |L.g.rules| ==>
          && L.g.rules[r].iRule < |L.g.rules|
          && T.ruleLhs[L.g.rules[r].iRule] == L.g.rules[r].lhs && T.ruleNRhs[L.g.rules[r].iRule] == |L.g.rules[r].rhs|)
  }

  /** The packed table serves every row: exactly the nonempty rows have an offset, and each is
      readable there. */
  ghost predicate Serves(L: Layout, order: seq<nat>, nxstate: nat, K: Packed)
    requires LayoutOk(L) && nxstate <= |order| && forall i :: 0 <= i < |order| ==> order[i] < |L.out|
  {
    && AllPlaced(L, order, nxstate, K.ofst)
    && K.nactiontab <= K.nAction && FilledBelow(K.slots, K.nactiontab)
    && (forall j, tkn :: (j, tkn) in K.ofst ==>
          Holds(K.slots, K.ofst[(j, tkn)], RowOf(L.g, L.num, L.Code(), L.out[j], tkn)))
    && (forall j: nat :: (j, true) in K.ofst ==> K.ofst[(j, true)] >= 0)
  }

  /** The packed table is the outcome of these insertions, the largest rows first, and trailing empty slots are
      not counted in nactiontab. */
  ghost predicate PackedBy(L: Layout, order: seq<nat>, nxstate: nat, steps: seq<Step>, K: Packed)
    requires LayoutOk(L) && nxstate <= |order| && forall i :: 0 <= i < |order| ==> order[i] < |L.out|
  {
    && Packing(L, steps) && LargestFirst(L, order, nxstate, steps)
    && Stage(K.slots, K.nAction) == Before(steps, |steps|)
    && AllPlaced(L, order, nxstate, K.ofst) && OffsetsOk(steps, K.ofst) && MnOffset(steps, K.mnNtOfst)
    && K.nactiontab <= K.nAction && K.nactiontab <= |K.slots| && FilledBelow(K.slots, K.nactiontab)
    && (K.nactiontab > 0 ==> K.slots[K.nactiontab - 1].lookahead >= 0)
  }

  /** When all searches found a clear place, every row is served. */
  lemma PackedServes(L: Layout, order: seq<nat>, nxstate: nat, steps: seq<Step>, K: Packed)
    requires LayoutOk(L) && nxstate <= |order| && (forall i :: 0 <= i < |order| ==> order[i] < |L.out|)
    requires PackedBy(L, order, nxstate, steps, K) && AllFound(steps)
    ensures Serves(L, order, nxstate, K)
  {
    PackingMeans(L, steps);
    forall j, tkn | (j, tkn) in K.ofst
      ensures j < |L.out| && Holds(K.slots, K.ofst[(j, tkn)], Row(L, j, tkn)) && (tkn ==> K.ofst[(j, tkn)] >= 0)
    {
      HeldRow(L, steps, K, j, tkn);
    }
  }

  lemma HeldRow(L: Layout, steps: seq<Step>, K: Packed, j: nat, tkn: bool)
    requires LayoutOk(L) && (forall k :: 0 <= k < |steps| ==> steps[k].j < |L.out|) && Adds(L, steps) && AllFound(steps)
    requires Stage(K.slots, K.nAction) == Before(steps, |steps|) && OffsetsOk(steps, K.ofst) && (j, tkn) in K.ofst
    ensures j < |L.out| && Holds(K.slots, K.ofst[(j, tkn)], Row(L, j, tkn)) && (tkn ==> K.ofst[(j, tkn)] >= 0)
  {
    assert Recorded(steps, j, tkn, K.ofst[(j, tkn)]);
    var k :| 0 <= k < |steps| && steps[k].j == j && steps[k].tkn == tkn && steps[k].offset == K.ofst[(j, tkn)];
    assert RowsOf(L, steps)[k] == Placed(steps[k].offset, Row(L, j, tkn));
    assert InsideAt(L, steps[k], K.nAction);
  }

  /** Otherwise some row is not: its search ran off the end and something was visible at the offset. */
  lemma ServesFound(L: Layout, order: seq<nat>, nxstate: nat, steps: seq<Step>, K: Packed)
    requires LayoutOk(L) && nxstate <= |order| && (forall i :: 0 <= i < |order| ==> order[i] < |L.out|)
    requires Distinct(order)
    requires PackedBy(L, order, nxstate, steps, K) && Serves(L, order, nxstate, K)
    ensures AllFound(steps)
  {
    PackingMeans(L, steps);
    var rows := RowsOf(L, steps);
    forall k | 0 <= k < |rows| ensures Holds(K.slots, rows[k].offset, rows[k].row) {
      StepServed(L, order, nxstate, steps, K, k);
    }
    AllServed(L, steps, K.slots);
  }

  lemma AllServed(L: Layout, steps: seq<Step>, slots: seq<Slot>)
    requires LayoutOk(L) && (forall k :: 0 <= k < |steps| ==> steps[k].j < |L.out|) && Readable(L, steps, slots)
    requires forall k :: 0 <= k < |steps| ==> Holds(slots, RowsOf(L, steps)[k].offset, RowsOf(L, steps)[k].row)
    ensures AllFound(steps)
  {
    assert AllHold(L.g.nsymbol, slots, RowsOf(L, steps));
  }

  lemma StepServed(L: Layout, order: seq<nat>, nxstate: nat, steps: seq<Step>, K: Packed, k: nat)
    requires LayoutOk(L) && nxstate <= |order| && (forall i :: 0 <= i < |order| ==> order[i] < |L.out|)
    requires Distinct(order)
    requires PackedBy(L, order, nxstate, steps, K) && Serves(L, order, nxstate, K) && k < |steps|
    ensures steps[k].j < |L.out| && Holds(K.slots, steps[k].offset, Row(L, steps[k].j, steps[k].tkn))
  {
    var s := steps[k];
    assert StepOk(L, steps, k);
    assert HalfOf(order, nxstate, s.iOrder, s.j, s.tkn);
    assert (order[s.iOrder / 2], s.tkn) in K.ofst;
    assert Recorded(steps, s.j, s.tkn, K.ofst[(s.j, s.tkn)]);
    var m :| 0 <= m < |steps| && steps[m].j == s.j && steps[m].tkn == s.tkn && steps[m].offset == K.ofst[(s.j, s.tkn)];
    StepOnce(L, order, nxstate, steps, k, m);
  }

  /** No half of a state is inserted twice. */
  lemma StepOnce(L: Layout, order: seq<nat>, nxstate: nat, steps: seq<Step>, k: nat, m: nat)
    requires LayoutOk(L) && nxstate <= |order| && Distinct(order) && LargestFirst(L, order, nxstate, steps)
    requires k < |steps| && m < |steps| && steps[k].j == steps[m].j && steps[k].tkn == steps[m].tkn
    ensures k == m
  {
    var a, b := steps[k].iOrder, steps[m].iOrder;
    assert HalfOf(order, nxstate, a, steps[k].j, steps[k].tkn) && HalfOf(order, nxstate, b, steps[m].j, steps[m].tkn);
    assert a / 2 == b / 2 && a % 2 == b % 2;
  }

  /** The numeric part of ReportTable. */
  method ReportTable(L: Layout, infos: seq<Info>, order: seq<nat>, nxstate: nat)
    returns (T: D.Tables, K: Packed, ghost steps: seq<Step>)
    requires LayoutOk(L) && nxstate <= |order| && |infos| == |L.out| && RulesNumbered(L.g)
    requires forall i :: 0 <= i < |order| ==> order[i] < |L.out|
    requires forall j :: 0 <= j < |L.out| ==>
      infos[j].nTknAct == |Select(L.g, L.out[j], true)| && infos[j].nNtAct == |Select(L.g, L.out[j], false)|
    requires forall j :: 0 <= j < |L.out| ==> infos[j].iDfltReduce >= -1
    ensures PackedBy(L, order, nxstate, steps, K) && Emitted(L, infos, order, nxstate, K, T)
  {
    K, steps := Pack(L, infos, order, nxstate);
    T := EmitTables(L, infos, order, nxstate, K);
  }

  method Pack(L: Layout, infos: seq<Info>, order: seq<nat>, nxstate: nat) returns (K: Packed, ghost steps: seq<Step>)
    requires LayoutOk(L) && nxstate <= |order| && |infos| == |L.out| && forall i ::
      0 <= i < |order| ==> order[i] < |L.out|
    requires forall j :: 0 <= j < |L.out| ==>
      infos[j].nTknAct == |Select(L.g, L.out[j], true)| && infos[j].nNtAct == |Select(L.g, L.out[j], false)|
    ensures PackedBy(L, order, nxstate, steps, K) && K.nactiontab <= |K.slots|
  {
    var tab, ofst, mnNtOfst;
    tab, ofst, mnNtOfst, steps := Fill(L, infos, order, nxstate);
    var n := tab.ActionSize();
    K := Packed(tab.aAction[..], tab.nAction, n, ofst, mnNtOfst);
  }

  method EmitTables(L: Layout, infos: seq<Info>, order: seq<nat>, nxstate: nat, K: Packed) returns (T: D.Tables)
    requires nxstate <= |order| && RulesNumbered(L.g) && K.nactiontab <= |K.slots|
    requires (forall i :: 0 <= i < |order| ==> order[i] < |infos|) && forall j ::
      0 <= j < |infos| ==> infos[j].iDfltReduce >= -1
    ensures Emitted(L, infos, order, nxstate, K, T)
  {
    var action := EmitAction(K.slots, K.nactiontab, L.Code().noAction);
    var lookahead := EmitLookahead(L.g, K);
    var shiftOfst := EmitOffsets(order, nxstate, K.ofst, true, K.nactiontab);
    var reduceOfst := EmitOffsets(order, nxstate, K.ofst, false, K.mnNtOfst - 1);
    var dflt := EmitDefault(L.Code(), infos, order, nxstate);
    var lhs, nrhs := EmitRules(L.g);
    T := D.Tables(L.g.nterminal, |L.num|, nxstate, action, lookahead, shiftOfst, reduceOfst, dflt, lhs, nrhs);
  }

  // ---- codes ----

  /** The bases that the tables stand for. */
  function BasesOf(T: D.Tables): Bases { FinalBases(T.nstate, |T.ruleLhs|) }

  /** What one iteration does with the action it has found is what the code means; shifting puts the rebased code
      on the stack. */
  lemma DriverReads(T: D.Tables, depth: nat, s: D.PState, t: nat, act: nat)
    requires s.stack != [] && |T.ruleLhs| == |T.ruleNRhs| && T.nxstate <= T.nstate
    requires D.FindShiftAction(T, t, s.stack[|s.stack| - 1].stateno) == D.Found(act)
    ensures match Classify(BasesOf(T), T.nxstate, |T.ruleLhs|, act)
      case Goes(_) => Shifts(T, depth, s, t, act)
      case GoesAndReduces(_) => Shifts(T, depth, s, t, act)
      case Reduces(r) =>
        if r >= |T.ruleLhs| then D.Iterate(T, depth, s, t).1 == D.AssertionFailed
        else if T.ruleNRhs[r] == 0 && |s.stack| >= depth then D.Iterate(T, depth, s, t).1 == D.StackOverflowed
        else D.Iterate(T, depth, s, t) == D.Reduce(T, s, r)
      case SignalsAccept => D.Iterate(T, depth, s, t).1 == if |s.stack| == 2 then D.TokenAccepted else D.AssertionFailed
      case SignalsError => D.Iterate(T, depth, s, t).1 == D.TokenRejected
      case Nothing => T.nxstate <= act < T.nstate || D.Iterate(T, depth, s, t).1 == D.AssertionFailed
  {
  }

  ghost predicate Shifts(T: D.Tables, depth: nat, s: D.PState, t: nat, act: nat) {
    var r := D.Iterate(T, depth, s, t);
    if |s.stack| >= depth then r.1 == D.StackOverflowed
    else r.1 == D.TokenShifted && r.0.stack == s.stack + [D.Entry(Rebased(BasesOf(T), T.nxstate, act), t)]
  }

  // ---- lookups ----

  /** An entry of a readable row is in the stripped table, with a real code. */
  lemma EntryIn(L: Layout, order: seq<nat>, nxstate: nat, K: Packed, j: nat, tkn: bool, k: nat)
    requires LayoutOk(L) && nxstate <= |order| && (forall i :: 0 <= i < |order| ==> order[i] < |L.out|)
    requires Serves(L, order, nxstate, K)
    requires (j, tkn) in K.ofst && K.nactiontab <= |K.slots|
    requires j < |L.out| && k < |RowOf(L.g, L.num, L.Code(), L.out[j], tkn)|
    ensures var s := RowOf(L.g, L.num, L.Code(), L.out[j], tkn)[k];
      && 0 <= s.lookahead < L.g.nsymbol && s.action >= 0 && 0 <= K.ofst[(j, tkn)] + s.lookahead < K.nactiontab
      && K.slots[K.ofst[(j, tkn)] + s.lookahead] == s
  {
    var i := RowFrom(L.g, L.num, L.Code(), L.out[j], tkn, k);
  }

  /** A token on which the state has an entry finds it. */
  lemma TokenHit(L: Layout, infos: seq<Info>, order: seq<nat>, nxstate: nat, K: Packed, T: D.Tables, i: nat, k: nat)
    requires LayoutOk(L) && nxstate <= |order| && (forall i :: 0 <= i < |order| ==> order[i] < |L.out|)
    requires Serves(L, order, nxstate, K)
    requires Emitted(L, infos, order, nxstate, K, T) && i < nxstate
    requires k < |RowOf(L.g, L.num, L.Code(), L.out[order[i]], true)|
    ensures var s := RowOf(L.g, L.num, L.Code(), L.out[order[i]], true)[k];
      0 <= s.lookahead < L.g.nterminal && s.action >= 0 && D.FindShiftAction(T, s.lookahead, i) == D.Found(s.action)
  {
    var j := order[i];
    assert (j, true) in K.ofst;
    EntryIn(L, order, nxstate, K, j, true, k);
    var m := RowFrom(L.g, L.num, L.Code(), L.out[j], true, k);
  }

  /** A token on which the state has no entry, or no row at all, finds the default of the state. */
  lemma TokenMiss(L: Layout, infos: seq<Info>, order: seq<nat>, nxstate: nat, K: Packed, T: D.Tables, i: nat, t: nat)
    requires LayoutOk(L) && nxstate <= |order| && (forall i :: 0 <= i < |order| ==> order[i] < |L.out|)
    requires Serves(L, order, nxstate, K)
    requires Emitted(L, infos, order, nxstate, K, T) && i < nxstate && i < |T.yyShiftOfst| && t < L.g.nterminal
    requires forall k :: 0 <= k < |RowOf(L.g, L.num, L.Code(), L.out[order[i]], true)| ==>
      RowOf(L.g, L.num, L.Code(), L.out[order[i]], true)[k].lookahead != t
    ensures D.FindShiftAction(T, t, i) == D.Found(T.yyDefault[i])
  {
    var j := order[i];
    if (j, true) in K.ofst {
      EntryIn(L, order, nxstate, K, j, true, 0);
      assert !Visible(K.slots, K.ofst[(j, true)] + t, K.ofst[(j, true)]);
      ShiftMiss(L.g, K, T, i, t, K.ofst[(j, true)]);
    } else {
      ShiftMiss(L.g, K, T, i, t, K.nactiontab);
    }
  }

  /** The lookup at offset o, when nothing is visible there on t. */
  lemma ShiftMiss(g: Grammar, K: Packed, T: D.Tables, i: nat, t: nat, o: int)
    requires t < g.nterminal == T.nterminal <= g.nsymbol && LookaheadsOut(g, K, T.yyLookahead)
    requires i < |T.yyShiftOfst| && i < T.nxstate == |T.yyDefault| && T.yyShiftOfst[i] == o
    requires 0 <= o <= K.nactiontab == |T.yyAction| && !Visible(K.slots, o + t, o)
    ensures D.FindShiftAction(T, t, i) == D.Found(T.yyDefault[i])
  {
    assert T.yyLookahead[o + t] != t;
  }

  lemma ReduceHit(g: Grammar, K: Packed, T: D.Tables, none: nat, i: nat, o: int, s: Slot)
    requires LookaheadsOut(g, K, T.yyLookahead) && |T.yyAction| == K.nactiontab <= |K.slots|
    requires K.nactiontab <= K.nAction
    requires forall k :: 0 <= k < K.nactiontab ==> T.yyAction[k] == ActionOut(none, K.slots[k])
    requires i < |T.yyReduceOfst| && T.yyReduceOfst[i] == o
    requires s.lookahead >= 0 && s.action >= 0 && 0 <= o + s.lookahead < K.nactiontab && K.slots[o + s.lookahead] == s
    ensures D.FindReduceAction(T, i, s.lookahead) == D.Found(s.action)
  {
    assert T.yyLookahead[o + s.lookahead] == s.lookahead;
  }

  /** After a reduction, the nonterminal finds its entry. */
  lemma GotoHit(L: Layout, infos: seq<Info>, order: seq<nat>, nxstate: nat, K: Packed, T: D.Tables, i: nat, k: nat)
    requires LayoutOk(L) && nxstate <= |order| && (forall i :: 0 <= i < |order| ==> order[i] < |L.out|)
    requires Serves(L, order, nxstate, K)
    requires Emitted(L, infos, order, nxstate, K, T) && i < nxstate
    requires k < |RowOf(L.g, L.num, L.Code(), L.out[order[i]], false)|
    ensures var s := RowOf(L.g, L.num, L.Code(), L.out[order[i]], false)[k];
      s.lookahead >= 0 && s.action >= 0 && D.FindReduceAction(T, i, s.lookahead) == D.Found(s.action)
  {
    var j := order[i];
    assert (j, false) in K.ofst;
    EntryIn(L, order, nxstate, K, j, false, k);
    ReduceHit(L.g, K, T, L.Code().noAction, i, K.ofst[(j, false)], RowOf(L.g, L.num, L.Code(), L.out[j], false)[k]);
  }

  /** The index assertions of yy_find_shift_action hold for every state and token exactly when the last
      state that has a row number has token actions; otherwise the assertion on the state number
      fails for that state, because the offsets of the trailing states are not written out. */
  lemma ShiftAssertions(L: Layout, infos: seq<Info>, order: seq<nat>, nxstate: nat, K: Packed, T: D.Tables)
    requires LayoutOk(L) && 0 < nxstate <= |order| && (forall i :: 0 <= i < |order| ==> order[i] < |L.out|)
    requires Serves(L, order, nxstate, K)
    requires Emitted(L, infos, order, nxstate, K, T)
    ensures (forall i: nat, t: nat :: i < nxstate && t < L.g.nterminal ==> D.FindShiftAction(T, t, i).Found?)
       <==> Select(L.g, L.out[order[nxstate - 1]], true) != []
  {
    var last := order[nxstate - 1];
    RowSize(L.g, L.num, L.Code(), L.out[last], true);
    if Select(L.g, L.out[last], true) != [] {
      assert (last, true) in K.ofst;
      assert |T.yyShiftOfst| == nxstate;
      forall i: nat, t: nat | i < nxstate && t < L.g.nterminal ensures D.FindShiftAction(T, t, i).Found? {
        AnyToken(L, infos, order, nxstate, K, T, i, t);
      }
    } else {
      LastFails(L, infos, order, nxstate, K, T, 0);
    }
  }

  /** Without token actions, the last numbered state fails the assertion on every token. */
  lemma LastFails(L: Layout, infos: seq<Info>, order: seq<nat>, nxstate: nat, K: Packed, T: D.Tables, t: nat)
    requires LayoutOk(L) && 0 < nxstate <= |order| && (forall i :: 0 <= i < |order| ==> order[i] < |L.out|)
    requires Serves(L, order, nxstate, K)
    requires Emitted(L, infos, order, nxstate, K, T) && Select(L.g, L.out[order[nxstate - 1]], true) == []
    ensures D.FindShiftAction(T, t, nxstate - 1) == D.AssertFails
  {
    var last := order[nxstate - 1];
    RowSize(L.g, L.num, L.Code(), L.out[last], true);
    NoRow(L, order, nxstate, K.ofst, last, true);
    Stripped(order, nxstate, K.ofst, true, K.nactiontab, T.yyShiftOfst);
  }

  lemma NoRow(L: Layout, order: seq<nat>, nxstate: nat, ofst: Offsets, j: nat, tkn: bool)
    requires LayoutOk(L) && nxstate <= |order| && (forall i :: 0 <= i < |order| ==> order[i] < |L.out|)
    requires AllPlaced(L, order, nxstate, ofst)
    requires j < |L.out| && |RowOf(L.g, L.num, L.Code(), L.out[j], tkn)| == 0
    ensures (j, tkn) !in ofst
  {
  }

  lemma Stripped(order: seq<nat>, nxstate: nat, ofst: Offsets, tkn: bool, missing: int, r: seq<int>)
    requires 0 < nxstate <= |order| && OffsetsOut(order, nxstate, ofst, tkn, missing, r)
    requires (order[nxstate - 1], tkn) !in ofst
    ensures |r| < nxstate
  {
  }

  lemma AnyToken(L: Layout, infos: seq<Info>, order: seq<nat>, nxstate: nat, K: Packed, T: D.Tables, i: nat, t: nat)
    requires LayoutOk(L) && nxstate <= |order| && (forall i :: 0 <= i < |order| ==> order[i] < |L.out|)
    requires Serves(L, order, nxstate, K)
    requires Emitted(L, infos, order, nxstate, K, T) && i < nxstate && i < |T.yyShiftOfst| && t < L.g.nterminal
    ensures D.FindShiftAction(T, t, i).Found?
  {
    var row := RowOf(L.g, L.num, L.Code(), L.out[order[i]], true);
    if k :| 0 <= k < |row| && row[k].lookahead == t {
      TokenHit(L, infos, order, nxstate, K, T, i, k);
    } else {
      TokenMiss(L, infos, order, nxstate, K, T, i, t);
    }
  }
}
