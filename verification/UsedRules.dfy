/** The generated reduction code asserts that it is never asked for a rule that was optimized out: one by which no
action of a numbered state reduces. No run of the parser does. */
module UsedRules {
  import opened Grammars
  import opened Automata
  import opened Actions
  import opened Acttab
  import opened Compress
  import opened Codes
  import opened Resort
  import opened Filling
  import opened Report
  import opened Simulation
  import opened Generate
  import opened Seals
  import D = Driver

  // ---- what the packed table holds ----

  /** The action is that of an entry of some inserted row. */
  ghost predicate FromRows(L: Layout, steps: seq<Step>, action: int)
    requires LayoutOk(L)
  {
    exists k, m :: 0 <= k < |steps| && EntryIs(L, steps[k], m, action)
  }

  ghost predicate EntryIs(L: Layout, s: Step, m: int, action: int)
    requires LayoutOk(L)
  {
    s.j < |L.out| && 0 <= m < |Row(L, s.j, s.tkn)| && Row(L, s.j, s.tkn)[m].action == action
  }

  lemma {:induction false} WrittenFrom(tab: seq<Slot>, o: int, t: seq<Slot>, n: nat, k: nat)
    requires n <= |t| && (forall j :: 0 <= j < |t| ==> 0 <= o + t[j].lookahead < |tab|) && k < |tab|
    ensures Written(tab, o, t, n)[k] == tab[k] || exists j :: 0 <= j < n && Written(tab, o, t, n)[k] == t[j]
  {
    if n > 0 {
      WrittenFrom(tab, o, t, n - 1, k);
      if Written(tab, o, t, n)[k] != t[n - 1] && Written(tab, o, t, n - 1)[k] != tab[k] {
        var j :| 0 <= j < n - 1 && Written(tab, o, t, n - 1)[k] == t[j];
      }
    }
  }

  lemma InsertedFrom(nsymbol: nat, nterminal: nat, s: Stage, t: seq<Slot>, mn: int, mx: int, safe: bool, o: int,
          found: bool, s': Stage, k: nat)
    requires Inserts(nsymbol, nterminal, s, t, mn, mx, safe, o, found, s') && k < |s'.slots|
    ensures s'.slots[k].action < 0 || (k < |s.slots| && s'.slots[k] == s.slots[k])
      || exists j :: 0 <= j < |t| && s'.slots[k] == t[j]
  {
    var n: nat :| Places(nsymbol, s, t, mn, mx, safe, o, found, Stage(s'.slots, n))
      && s'.nAction == Padded(n, nterminal, safe, o, mn);
    WrittenFrom(Grown(s.slots, s.nAction, nsymbol), o, t, |t|, k);
  }

  lemma {:induction false} SlotsFrom(L: Layout, steps: seq<Step>, n: nat, k: nat)
    requires LayoutOk(L) && Packing(L, steps) && n <= |steps| && k < |Before(steps, n).slots|
    ensures Before(steps, n).slots[k].action < 0 || FromRows(L, steps, Before(steps, n).slots[k].action)
    decreases n
  {
    if n > 0 {
      var s := steps[n - 1];
      assert StepOk(L, steps, n - 1) && Open(s);
      var t := Row(L, s.j, s.tkn);
      InsertedFrom(L.g.nsymbol, L.g.nterminal, Before(steps, n - 1), t, s.mn, s.mx, s.tkn, s.offset, s.found, s.after,
          k);
      if j :| 0 <= j < |t| && s.after.slots[k] == t[j] {
        assert EntryIs(L, s, j, s.after.slots[k].action);
      } else if k < |Before(steps, n - 1).slots| {
        SlotsFrom(L, steps, n - 1, k);
      }
    }
  }

  // ---- the rules that are used ----

  /** doesReduce: some action of a numbered state reduces by the rule with this number. */
  ghost predicate DoesReduce(R: Result, ruleno: nat) {
    exists i, k :: ReducesBy(R, i, k, ruleno)
  }

  ghost predicate ReducesBy(R: Result, i: int, k: int, ruleno: nat) {
    && 0 <= i < R.nxstate && i < |R.order| && R.order[i] < |R.B.out| && 0 <= k < |R.B.out[R.order[i]]|
    && var a := R.B.out[R.order[i]][k];
      (a.ty == REDUCE || a.ty == SHIFTREDUCE) && a.x < |R.B.g.rules| && R.B.g.rules[a.x].iRule == ruleno
  }

  /** The rules that a code of the tables makes the driver reduce by, now or after a shift, are used; and no code
      is the number of a state without a row. */
  ghost predicate CodeUsed(T: D.Tables, used: iset<nat>, c: nat) {
    && (c >= T.MinReduce() ==> c - T.MinReduce() in used)
    && (T.MinShiftReduce() <= c <= T.MaxShiftReduce() ==> c - T.MinShiftReduce() in used)
    && !(T.nxstate <= c < T.nstate)
  }

  ghost predicate TablesUsed(T: D.Tables, used: iset<nat>) {
    && (forall k :: 0 <= k < |T.yyAction| ==> CodeUsed(T, used, T.yyAction[k]))
    && (forall k :: 0 <= k < |T.yyDefault| ==> CodeUsed(T, used, T.yyDefault[k]))
  }

  ghost function Used(R: Result): iset<nat> {
    iset ruleno: nat | DoesReduce(R, ruleno)
  }

  /** A coded action of a numbered state has such a code. */
  lemma ActionUsed(R: Result, i: nat, k: nat)
    requires Generated(R) && i < R.nxstate && i < |R.order| && R.order[i] < |R.B.out| && k < |R.B.out[R.order[i]]|
    requires Coded(R.B.out[R.order[i]][k])
    ensures Refers(R.B.g, |R.num|, R.B.out[R.order[i]][k])
    ensures CodeUsed(R.T, Used(R), ComputeAction(R.B.g, R.num, LayoutOf(R).Code(), R.B.out[R.order[i]][k]))
  {
    var j, a := R.order[i], R.B.out[R.order[i]][k];
    CodesRefer(R, j, k);
    GeneratedHeader(R);
    assert R.T.nstate == |R.num| && R.T.nxstate == R.nxstate by { assert Open(R); }
    if a.ty == REDUCE || a.ty == SHIFTREDUCE { assert ReducesBy(R, i, k, R.B.g.rules[a.x].iRule); }
    if a.ty == SHIFT { ShiftsNumbered(R, j, k); }
    CodeIsUsed(R.T, Used(R), R.B.g, R.num, a);
  }

  lemma CodeIsUsed(T: D.Tables, used: iset<nat>, g: Grammar, num: seq<nat>, a: Action)
    requires Refers(g, |num|, a) && Coded(a) && T.nxstate <= T.nstate == |num| && |T.ruleLhs| == |g.rules|
    requires a.ty == REDUCE || a.ty == SHIFTREDUCE ==> g.rules[a.x].iRule < |g.rules| && g.rules[a.x].iRule in used
    requires a.ty == SHIFT ==> num[a.x] < T.nxstate
    ensures CodeUsed(T, used, ComputeAction(g, num, FinalBases(|num|, |g.rules|), a))
  {
  }

  lemma EntryUsed(R: Result, s: Step, m: int, action: int)
    requires Generated(R) && LayoutOk(LayoutOf(R)) && EntryIs(LayoutOf(R), s, m, action)
    requires R.nxstate <= |R.order| && HalfOf(R.order, R.nxstate, s.iOrder, s.j, s.tkn)
    ensures action >= 0 && CodeUsed(R.T, Used(R), action)
  {
    var L := LayoutOf(R);
    var q := RowFrom(L.g, L.num, L.Code(), L.out[s.j], s.tkn, m);
    ActionUsed(R, s.iOrder / 2, q);
  }

  /** The error and no-action codes reduce by nothing. */
  lemma OthersUsed(R: Result)
    requires Generated(R)
    ensures CodeUsed(R.T, Used(R), R.T.NoAction()) && CodeUsed(R.T, Used(R), R.T.ErrorAction())
  {
    GeneratedHeader(R);
  }

  lemma DefaultUsed(R: Result, i: nat)
    requires Generated(R) && i < |R.T.yyDefault|
    ensures CodeUsed(R.T, Used(R), R.T.yyDefault[i])
  {
    OthersUsed(R);
    var d := DefaultRule(R, i);
    if d >= 0 {
      GeneratedHeader(R);
      assert DoesReduce(R, d);
    }
  }

  /** The default of a numbered state is an error, or the reduction of an action of its list. */
  lemma DefaultRule(R: Result, i: nat) returns (d: int)
    requires Generated(R) && i < |R.T.yyDefault|
    ensures R.T.yyDefault[i] == if d < 0 then R.T.ErrorAction() else R.T.MinReduce() + d
    ensures d >= 0 ==> d < |R.B.g.rules| && DoesReduce(R, d)
  {
    assert Open(R) && Open(R.B);
    var j := R.order[i];
    d := R.infos[j].iDfltReduce;
    DefaultOnly(R.B, j);
    assert ListRefers(R.B.g, |R.B.out|, R.B.out[j]);
    DefaultValue(R.B.g, Ids(0, |R.B.out|), R.B.out[j], R.B.p.best[j]);
    if d >= 0 { DefaultAction(R, i, R.B.p.best[j]); }
  }

  lemma DefaultAction(R: Result, i: nat, best: int)
    requires i < R.nxstate <= |R.order| && R.order[i] < |R.B.out| && DefaultActs(R.B.g, R.B.out[R.order[i]], best)
    requires 0 <= best < |R.B.g.rules|
    ensures DoesReduce(R, R.B.g.rules[best].iRule)
  {
    var l := R.B.out[R.order[i]];
    var k :| 0 <= k < |l| && Coded(l[k]) && l[k].sp == R.B.g.nsymbol;
    assert ReducesBy(R, i, k, R.B.g.rules[best].iRule);
  }

  lemma SlotUsed(R: Result, k: nat)
    requires Generated(R) && k < |R.T.yyAction|
    ensures CodeUsed(R.T, Used(R), R.T.yyAction[k])
  {
    OthersUsed(R);
    var c := SlotCode(R, k);
    if c >= 0 {
      var q, m := SlotRow(R, k, c);
      EntryUsed(R, R.steps[q], m, c);
    }
  }

  lemma SlotCode(R: Result, k: nat) returns (c: int)
    requires Generated(R) && k < |R.T.yyAction|
    ensures k < |R.K.slots| && c == R.K.slots[k].action && R.T.yyAction[k] == if c < 0 then R.T.NoAction() else c
  {
    assert Open(R);
    c := R.K.slots[k].action;
  }

  lemma SlotRow(R: Result, k: nat, c: int) returns (q: nat, m: int)
    requires Generated(R) && k < |R.K.slots| && c == R.K.slots[k].action >= 0
    ensures LayoutOk(LayoutOf(R)) && q < |R.steps| && EntryIs(LayoutOf(R), R.steps[q], m, c)
    ensures R.nxstate <= |R.order| && HalfOf(R.order, R.nxstate, R.steps[q].iOrder, R.steps[q].j, R.steps[q].tkn)
  {
    assert Open(R);
    SlotsFrom(LayoutOf(R), R.steps, |R.steps|, k);
    q, m :| 0 <= q < |R.steps| && EntryIs(LayoutOf(R), R.steps[q], m, c);
  }

  lemma GeneratedUsed(R: Result)
    requires Generated(R)
    ensures TablesUsed(R.T, Used(R)) && 0 < R.T.nxstate <= R.T.nstate
  {
    GeneratedHeader(R);
    forall k | 0 <= k < |R.T.yyAction| ensures CodeUsed(R.T, Used(R), R.T.yyAction[k]) { SlotUsed(R, k); }
    forall k | 0 <= k < |R.T.yyDefault| ensures CodeUsed(R.T, Used(R), R.T.yyDefault[k]) { DefaultUsed(R, k); }
  }

  // ---- what the driver reduces by ----

  /** Pending reductions on the stack are by used rules, and nothing else is pending. */
  ghost predicate StackUsed(T: D.Tables, used: iset<nat>, s: D.PState) {
    forall k :: 0 <= k < |s.stack| ==> EntryUsedBy(T, used, s.stack[k])
  }

  ghost predicate EntryUsedBy(T: D.Tables, used: iset<nat>, e: D.Entry) {
    && (e.stateno >= T.MinReduce() ==> e.stateno - T.MinReduce() in used)
    && !(T.MaxShift() < e.stateno <= T.MaxShiftReduce())
  }

  /** If the next iteration reduces, it is by a used rule. */
  ghost predicate NextUsed(T: D.Tables, used: iset<nat>, s: D.PState, t: nat) {
    s.stack != [] ==>
      match D.FindShiftAction(T, t, s.stack[|s.stack| - 1].stateno)
      case AssertFails => true
      case Found(act) => act >= T.MinReduce() ==> act - T.MinReduce() in used
  }

  lemma LookupUsed(T: D.Tables, used: iset<nat>, s: D.PState, t: nat)
    requires TablesUsed(T, used) && StackUsed(T, used, s)
    ensures NextUsed(T, used, s, t)
  {
    if s.stack != [] { assert EntryUsedBy(T, used, s.stack[|s.stack| - 1]); }
  }

  lemma IterateUsed(T: D.Tables, used: iset<nat>, depth: nat, s: D.PState, t: nat)
    requires TablesUsed(T, used) && 0 < T.nxstate <= T.nstate && StackUsed(T, used, s)
    ensures StackUsed(T, used, D.Iterate(T, depth, s, t).0)
  {
    var s' := D.Iterate(T, depth, s, t).0;
    if s.stack != [] {
      var top := s.stack[|s.stack| - 1];
      assert EntryUsedBy(T, used, top);
      forall k | 0 <= k < |s'.stack| ensures EntryUsedBy(T, used, s'.stack[k]) {
        if k < |s.stack| && s'.stack[k] == s.stack[k] {
          assert EntryUsedBy(T, used, s.stack[k]);
        } else {
          NewEntryUsed(T, used, depth, s, t, k);
        }
      }
    }
  }

  /** The entry that an iteration pushes. */
  lemma NewEntryUsed(T: D.Tables, used: iset<nat>, depth: nat, s: D.PState, t: nat, k: nat)
    requires TablesUsed(T, used) && 0 < T.nxstate <= T.nstate && s.stack != []
    requires var s' := D.Iterate(T, depth, s, t).0; k < |s'.stack| && !(k < |s.stack| && s'.stack[k] == s.stack[k])
    requires EntryUsedBy(T, used, s.stack[|s.stack| - 1])
    ensures EntryUsedBy(T, used, D.Iterate(T, depth, s, t).0.stack[k])
  {
    match D.FindShiftAction(T, t, s.stack[|s.stack| - 1].stateno) {
      case AssertFails =>
      case Found(act) =>
        if act >= T.MinReduce() && act - T.MinReduce() < |T.ruleLhs| == |T.ruleNRhs| {
          ReduceUsed(T, used, s, act - T.MinReduce(), k);
        }
    }
  }

  lemma ReduceUsed(T: D.Tables, used: iset<nat>, s: D.PState, ruleno: nat, k: nat)
    requires TablesUsed(T, used) && ruleno < |T.ruleLhs| == |T.ruleNRhs|
    requires var s' := D.Reduce(T, s, ruleno).0; k < |s'.stack| && !(k < |s.stack| && s'.stack[k] == s.stack[k])
    ensures EntryUsedBy(T, used, D.Reduce(T, s, ruleno).0.stack[k])
  {
  }

  lemma {:induction false} RunUsed(T: D.Tables, used: iset<nat>, depth: nat, k: D.Run, n: nat)
    requires TablesUsed(T, used) && 0 < T.nxstate <= T.nstate && StackUsed(T, used, k.s)
    ensures StackUsed(T, used, D.After(T, depth, k, n).s)
    decreases n
  {
    if n > 0 {
      if k.status == D.Going && k.input != [] { IterateUsed(T, used, depth, k.s, k.input[0]); }
      RunUsed(T, used, depth, D.Next(T, depth, k), n - 1);
    }
  }

  /** In every run of the parser over any tokens, whatever the packing, no reduction is by a rule that was
      optimized out. */
  lemma NeverOptimizedOut(R: Result, depth: nat, w: seq<nat>, n: nat, t: nat)
    requires Generated(R)
    ensures NextUsed(R.T, Used(R), D.After(R.T, depth, D.Start(w), n).s, t)
  {
    GeneratedUsed(R);
    RunUsed(R.T, Used(R), depth, D.Start(w), n);
    LookupUsed(R.T, Used(R), D.After(R.T, depth, D.Start(w), n).s, t);
  }
}
