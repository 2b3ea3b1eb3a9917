/** The table-driven parser simulates the LR machine: each of its iterations is one or more steps of
the machine over the uncompressed automaton, and its stack stands for the machine's stack. */
module Simulation {
  import opened Grammars
  import opened Automata
  import opened Machine
  import opened Compress
  import opened Decisions
  import opened Seals
  import D = Driver

  /** An automaton with its decisions, the plan of its compression, the numbers of its states, and
      the generated tables. */
  datatype Ctx = Ctx(g: Grammar, states: seq<State>, dec: Decision, p: Plan, num: seq<nat>, T: D.Tables)

  function IRule(g: Grammar, r: int): nat {
    if 0 <= r < |g.rules| then g.rules[r].iRule else 0
  }

  /** The code of a decision about a terminal. */
  function ActCode(x: Ctx, a: Act): nat {
    match a
    case Shift(j) =>
      if AutoTo(x.p, j) then x.T.MinShiftReduce() + IRule(x.g, x.p.best[j]) else if j < |x.num| then x.num[j] else 0
    case Reduce(r) => x.T.MinReduce() + IRule(x.g, r)
    case Fail => x.T.ErrorAction()
  }

  /** What the stack holds for state j: its number, or the pending reduction of an auto-reduce state. */
  function StackCode(x: Ctx, j: int): nat {
    if j >= 0 && AutoTo(x.p, j) then x.T.MinReduce() + IRule(x.g, x.p.best[j])
    else if 0 <= j < |x.num| then x.num[j] else 0
  }

  /** The machine side. */
  ghost predicate MachineOk(x: Ctx) {
    && x.g.Valid() && x.g.StartIsolated() && IsAutomaton(x.g, x.states) && Allowed(x.g, x.states, x.dec)
    && (forall j :: 0 <= j < |x.states| && AutoTo(x.p, j) ==> Automatic(x.g, x.states, x.dec, j, x.p.best[j]))
    && (forall i :: 0 <= i < |x.states| ==> ChainOk(x.g, x.p, x.states[i]))
  }

  /** Numbers and rule tables. */
  ghost predicate NumbersOk(x: Ctx) {
    && |x.num| == |x.states| == x.T.nstate && |x.states| > 0 && x.num[0] == 0
    && 0 < x.T.nxstate <= x.T.nstate && x.T.nterminal == x.g.nterminal
    && (forall j :: 0 <= j < |x.states| && !AutoTo(x.p, j) ==> x.num[j] < x.T.nxstate)
    && |x.T.ruleLhs| == |x.T.ruleNRhs| == |x.g.rules|
    && (forall r :: 0 <= r < |x.g.rules| ==>
          && x.g.rules[r].iRule < |x.g.rules|
          && x.T.ruleLhs[x.g.rules[r].iRule] == x.g.rules[r].lhs
          && x.T.ruleNRhs[x.g.rules[r].iRule] == |x.g.rules[r].rhs|)
  }

  /** The lookups find the code of the decision, and of the goto at the end of its chain of bypasses. */
  ghost predicate LookupsOk(x: Ctx)
    requires MachineOk(x) && NumbersOk(x)
  {
    && (forall i, t: nat :: 0 <= i < |x.states| && !AutoTo(x.p, i) && t < x.g.nterminal ==>
          D.FindShiftAction(x.T, t, x.num[i]) == D.Found(ActCode(x, x.dec(i, t))))
    && (forall i, a :: 0 <= i < |x.states| && !AutoTo(x.p, i) && a in x.states[i].shifts && a >= x.g.nterminal ==>
          GotoFound(x, i, a))
    && D.FindReduceAction(x.T, 0, x.g.start) == D.Found(x.T.AcceptAction())
  }

  ghost predicate GotoFound(x: Ctx, i: nat, a: nat)
    requires MachineOk(x) && NumbersOk(x) && i < |x.states| && a in x.states[i].shifts
  {
    D.FindReduceAction(x.T, x.num[i], a) == D.Found(StackCode(x, x.states[i].shifts[EndSym(x.g, x.p, x.states[i], a)]))
  }

  ghost predicate CtxOk(x: Ctx) {
    match x
    case Ctx(_, _, _, _, _, _) => MachineOk(x) && NumbersOk(x) && LookupsOk(x)
  }

  /** CtxOk, sealed. */
  ghost predicate Ready(x: Ctx) {
    forall q {:trigger Open(q)} :: Open(q) && q == x ==> CtxOk(q)
  }

  // ---- the relation between the two stacks ----

  ghost predicate Rel(x: Ctx, s: D.PState, path: seq<nat>) {
    match s
    case PState(_, _) =>
      && Live(x.states, path)
      && |s.stack| == |path| + 1
      && (forall k :: 0 <= k <= |path| ==> s.stack[k].stateno == StackCode(x, StateOf(x.states, path[..k])))
      && (forall k :: 0 <= k < |path| ==>
            !(StateOf(x.states, path[..k]) >= 0 && AutoTo(x.p, StateOf(x.states, path[..k]))))
  }

  lemma StartNotAuto(x: Ctx)
    requires MachineOk(x) && |x.states| > 0
    ensures !AutoTo(x.p, 0)
  {
    if AutoTo(x.p, 0) {
      var g, st, r := x.g, x.states[0], x.p.best[0];
      assert Automatic(g, x.states, x.dec, 0, r);
      assert IsClosure(g, st.basis, st.cfp);
      MovedInBasis(g, st.basis, st.cfp, Config(r, |g.rules[r].rhs|));
      assert false;
    }
  }

  lemma RelInit(x: Ctx)
    requires Ready(x)
    ensures Rel(x, D.Init(), [])
  {
    assert Open(x);
    StartNotAuto(x);
  }

  lemma RelPopAll(x: Ctx, s: D.PState, path: seq<nat>, e: int)
    requires Ready(x) && Rel(x, s, path)
    ensures Rel(x, D.PopAll(s).(errcnt := e), [])
  {
    assert Open(x);
    StartNotAuto(x);
    assert path[..0] == [];
    var t := D.PopAll(s).(errcnt := e);
    assert t.stack[0] == s.stack[0];
  }

  /** Pushing one symbol on a prefix of the path. */
  lemma RelPush(x: Ctx, s: D.PState, path: seq<nat>, below: seq<nat>, sym: nat, e: D.Entry, c: int)
    requires Rel(x, s, path) && below <= path
    requires Live(x.states, below) && !AutoTo(x.p, StateOf(x.states, below))
    requires Live(x.states, below + [sym]) && e.stateno == StackCode(x, StateOf(x.states, below + [sym]))
    ensures |below| < |s.stack| && Rel(x, D.PState(s.stack[..|below| + 1] + [e], c), below + [sym])
  {
    var q := below + [sym];
    var s' := D.PState(s.stack[..|below| + 1] + [e], c);
    forall k | 0 <= k <= |q|
      ensures s'.stack[k].stateno == StackCode(x, StateOf(x.states, q[..k]))
      ensures k < |q| ==> !(StateOf(x.states, q[..k]) >= 0 && AutoTo(x.p, StateOf(x.states, q[..k])))
    {
      PushedPath(path, below, sym, k);
      PushedEntry(s.stack, |below|, e, k);
    }
  }

  lemma PushedPath(path: seq<nat>, below: seq<nat>, sym: nat, k: nat)
    requires below <= path && k <= |below| + 1
    ensures (below + [sym])[..k] == if k <= |below| then path[..k] else below + [sym]
    ensures k == |below| ==> (below + [sym])[..k] == below
  {
  }

  lemma PushedEntry(stack: seq<D.Entry>, n: nat, e: D.Entry, k: nat)
    requires n < |stack| && k <= n + 1
    ensures (stack[..n + 1] + [e])[k] == if k <= n then stack[k] else e
  {
  }

  lemma RelAt(x: Ctx, s: D.PState, path: seq<nat>, below: seq<nat>)
    requires Rel(x, s, path) && below <= path
    ensures |s.stack| == |path| + 1 && s.stack[|below|].stateno == StackCode(x, StateOf(x.states, below))
    ensures |below| < |path| && StateOf(x.states, below) >= 0 ==> !AutoTo(x.p, StateOf(x.states, below))
  {
    assert path[..|below|] == below;
  }

  /** Whatever is on top, the lookup yields the code of the machine's decision. */
  lemma TopLookup(x: Ctx, s: D.PState, path: seq<nat>, t: nat)
    requires Ready(x) && Rel(x, s, path) && t < x.g.nterminal
    ensures D.FindShiftAction(x.T, t, s.stack[|s.stack| - 1].stateno) ==
      D.Found(ActCode(x, x.dec(StateOf(x.states, path), t)))
  {
    assert Open(x);
    var i := StateOf(x.states, path);
    assert path[..|path|] == path;
    if AutoTo(x.p, i) {
      assert Automatic(x.g, x.states, x.dec, i, x.p.best[i]);
    }
  }

  /** An auto-reduce state decides on its own nonempty rule, whatever the token. */
  lemma AutoDecides(x: Ctx, i: nat, t: nat)
    requires MachineOk(x) && i < |x.states| && t < x.g.nterminal
    ensures AutoTo(x.p, i) ==>
      0 <= x.p.best[i] < |x.g.rules| && x.dec(i, t) == Reduce(x.p.best[i]) && |x.g.rules[x.p.best[i]].rhs| > 0
  {
    if AutoTo(x.p, i) { assert Automatic(x.g, x.states, x.dec, i, x.p.best[i]); }
  }

  // ---- one iteration ----

  lemma ShiftCode(x: Ctx, j: nat)
    requires NumbersOk(x) && j < |x.states|
    requires AutoTo(x.p, j) ==> 0 <= x.p.best[j] < |x.g.rules|
    ensures var act := ActCode(x, Shift(j));
      && act < x.T.MinReduce() && act <= x.T.MaxShiftReduce()
      && (if act > x.T.MaxShift() then act + (x.T.MinReduce() - x.T.MinShiftReduce()) else act) == StackCode(x, j)
  {
  }

  lemma StackCodeRange(x: Ctx, j: nat)
    requires NumbersOk(x) && j < |x.states|
    ensures StackCode(x, j) <= x.T.MaxShift() || StackCode(x, j) >= x.T.MinReduce()
  {
  }

  /** The chain of code-free unit reductions that a bypass skips. */
  lemma ChainRun(x: Ctx, below: seq<nat>, a: nat, t: nat, rest: seq<nat>) returns (n: nat, e: nat)
    requires MachineOk(x) && Live(x.states, below) && a >= x.g.nterminal && t < x.g.nterminal
    requires a in x.states[StateOf(x.states, below)].shifts
    ensures var st := x.states[StateOf(x.states, below)];
      e == EndSym(x.g, x.p, st, a) && e in st.shifts && Live(x.states, below + [e])
      && StateOf(x.states, below + [e]) == st.shifts[e]
    ensures Reaches(x.g, x.states, x.dec, Running(below + [a], [t] + rest), n, Running(below + [e], [t] + rest))
  {
    n, e := ChainSteps(x, below, a, t, rest, x.g.nsymbol);
    assert Open(n) && Open(e);
  }

  /** MachineOk, sealed. */
  ghost predicate MachineReadyFor(x: Ctx) {
    forall q {:trigger Open(q)} :: Open(q) && q == x ==> MachineOk(q)
  }

  /** The goto over e can be taken, sealed. */
  ghost predicate Landed(x: Ctx, below: seq<nat>, e: nat) {
    forall q: nat {:trigger Open(q)} :: Open(q) && q == e ==>
      && 0 <= StateOf(x.states, below) < |x.states| && q in x.states[StateOf(x.states, below)].shifts
      && Live(x.states, below + [q]) && StateOf(x.states, below + [q]) == x.states[StateOf(x.states, below)].shifts[q]
  }

  /** n steps lead from a goto over a to a goto over e, sealed. */
  ghost predicate Leads(x: Ctx, below: seq<nat>, a: nat, t: nat, rest: seq<nat>, n: nat, e: nat) {
    forall q: nat {:trigger Open(q)} :: Open(q) && q == n ==>
      Reaches(x.g, x.states, x.dec, Running(below + [a], [t] + rest), q, Running(below + [e], [t] + rest))
  }

  lemma NowLanded(x: Ctx, below: seq<nat>, a: nat)
    requires MachineReadyFor(x) && Live(x.states, below) && a in x.states[StateOf(x.states, below)].shifts
    ensures Landed(x, below, a)
    ensures Bypassable(x.g, x.p, x.states[StateOf(x.states, below)], a) ==>
      var b := BypassTo(x.g, x.p, x.states[StateOf(x.states, below)], a);
      b in x.states[StateOf(x.states, below)].shifts && b >= x.g.nterminal
  {
    assert Open(x);
    assert ChainOk(x.g, x.p, x.states[StateOf(x.states, below)]);
    LiveShift(x.g, x.states, below, a);
  }

  /** One bypass that is skipped. */
  lemma LeadsOn(x: Ctx, below: seq<nat>, a: nat, t: nat, rest: seq<nat>, n: nat, e: nat)
    requires MachineReadyFor(x) && Live(x.states, below) && a >= x.g.nterminal && t < x.g.nterminal
    requires Bypassable(x.g, x.p, x.states[StateOf(x.states, below)], a)
    requires Leads(x, below, BypassTo(x.g, x.p, x.states[StateOf(x.states, below)], a), t, rest, n, e)
    ensures Leads(x, below, a, t, rest, n + 1, e)
  {
    assert Open(x) && Open(n);
    var b := BypassTo(x.g, x.p, x.states[StateOf(x.states, below)], a);
    UnitStep(x, below, a, t, rest);
    OneMore(x, Running(below + [a], [t] + rest), Running(below + [b], [t] + rest), n, Running(below + [e], [t] + rest));
  }

  lemma {:induction false} ChainSteps(x: Ctx, below: seq<nat>, a: nat, t: nat, rest: seq<nat>, m: nat)
    returns (n: nat, e: nat)
    requires MachineReadyFor(x) && Live(x.states, below) && a >= x.g.nterminal && t < x.g.nterminal
    requires a in x.states[StateOf(x.states, below)].shifts
    ensures e == Follow(x.g, x.p, x.states[StateOf(x.states, below)], a, m)
    ensures Landed(x, below, e) && Leads(x, below, a, t, rest, n, e)
    decreases m
  {
    var st := x.states[StateOf(x.states, below)];
    NowLanded(x, below, a);
    if m > 0 && Bypassable(x.g, x.p, st, a) {
      var n';
      n', e := ChainSteps(x, below, BypassTo(x.g, x.p, st, a), t, rest, m - 1);
      LeadsOn(x, below, a, t, rest, n', e);
      n := n' + 1;
    } else {
      n, e := 0, a;
    }
  }

  lemma OneMore(x: Ctx, k: Conf, k': Conf, n: nat, k'': Conf)
    requires Step1(x.g, x.states, x.dec, k) == k' && Reaches(x.g, x.states, x.dec, k', n, k'')
    ensures Reaches(x.g, x.states, x.dec, k, n + 1, k'')
  {
  }

  lemma UnitStep(x: Ctx, below: seq<nat>, a: nat, t: nat, rest: seq<nat>)
    requires MachineOk(x) && Live(x.states, below) && t < x.g.nterminal
    requires Bypassable(x.g, x.p, x.states[StateOf(x.states, below)], a)
    ensures Step1(x.g, x.states, x.dec, Running(below + [a], [t] + rest))
         == Running(below + [BypassTo(x.g, x.p, x.states[StateOf(x.states, below)], a)], [t] + rest)
  {
    var st := x.states[StateOf(x.states, below)];
    var p := below + [a];
    LiveShift(x.g, x.states, below, a);
    var j := st.shifts[a];
    var r := x.p.best[j];
    assert Automatic(x.g, x.states, x.dec, j, r);
    ReduceSafe(x.g, x.states, p, r, [t] + rest);
    assert p[..|p| - 1] == below;
  }

  /** After the reduction of a start rule: only the accept action is left to be taken. */
  ghost predicate Accepting(x: Ctx, s: D.PState) {
    |s.stack| == 2 && s.stack[0].stateno == 0 && s.stack[1].stateno == x.T.AcceptAction()
  }

  /** What one iteration does, whatever the token: no assertion fails, and it corresponds to one or
      more steps of the machine; a token is thrown away only on an error or an overflow. */
  ghost predicate Simulates(x: Ctx, depth: nat, path: seq<nat>, t: nat, rest: seq<nat>, s': D.PState, v: D.Verdict,
          path': seq<nat>, n: nat) {
    var k := Running(path, [t] + rest);
    match v
    case AssertionFailed => false
    case Again =>
      || (Rel(x, s', path') && n > 0 && |path'| <= |path| + 1
          && Reaches(x.g, x.states, x.dec, k, n, Running(path', [t] + rest)))
      || (Accepting(x, s') && t == 0 && n > 0 && Reaches(x.g, x.states, x.dec, k, n, Machine.Accepted([t] + rest)))
    case TokenShifted =>
      Rel(x, s', path') && n == 1 && |path'| == |path| + 1 && Reaches(x.g, x.states, x.dec, k, 1, Running(path', rest))
    case TokenAccepted => false
    case TokenRejected => Rel(x, s', path') && path' == (if t == 0 then [] else path)
      && Step1(x.g, x.states, x.dec, k) == Rejected
    case StackOverflowed => Rel(x, s', path') && path' == [] && depth <= |path| + 1
  }

  lemma SimShift(x: Ctx, depth: nat, s: D.PState, path: seq<nat>, t: nat, rest: seq<nat>) returns (path': seq<nat>)
    requires Ready(x) && Rel(x, s, path) && t < x.g.nterminal && x.dec(StateOf(x.states, path), t).Shift?
    ensures var r := D.Iterate(x.T, depth, s, t); Simulates(x, depth, path, t, rest, r.0, r.1, path', 1)
  {
    TopLookup(x, s, path, t);
    var i := StateOf(x.states, path);
    var j := x.dec(i, t).state;
    ShiftFacts(x, path, t);
    var act := ActCode(x, Shift(j));
    if |s.stack| >= depth {
      path' := [];
      RelPopAll(x, s, path, s.errcnt - 1);
    } else {
      path' := path + [t];
      assert s.stack[..|path| + 1] == s.stack;
      RelPush(x, s, path, path, t, D.Entry(StackCode(x, j), t), s.errcnt - 1);
      var k := Running(path, [t] + rest);
      assert k.input[1..] == rest;
      assert Step1(x.g, x.states, x.dec, k) == Running(path', rest);
      assert Reaches(x.g, x.states, x.dec, Running(path', rest), 0, Running(path', rest));
    }
  }

  lemma ShiftFacts(x: Ctx, path: seq<nat>, t: nat)
    requires Ready(x) && Live(x.states, path) && t < x.g.nterminal && x.dec(StateOf(x.states, path), t).Shift?
    ensures var i := StateOf(x.states, path); var j := x.dec(i, t).state; var act := ActCode(x, Shift(j));
      && !AutoTo(x.p, i) && Live(x.states, path + [t]) && StateOf(x.states, path + [t]) == j
      && act < x.T.MinReduce() && act <= x.T.MaxShiftReduce()
      && (if act > x.T.MaxShift() then act + (x.T.MinReduce() - x.T.MinShiftReduce()) else act) == StackCode(x, j)
  {
    assert Open(x);
    var i := StateOf(x.states, path);
    assert ActAllowed(x.g, x.states, i, t, x.dec(i, t));
    LiveShift(x.g, x.states, path, t);
    var j := x.dec(i, t).state;
    AutoDecides(x, j, t);
    AutoDecides(x, i, t);
    ShiftCode(x, j);
  }

  lemma SimFail(x: Ctx, depth: nat, s: D.PState, path: seq<nat>, t: nat, rest: seq<nat>) returns (path': seq<nat>)
    requires Ready(x) && Rel(x, s, path) && t < x.g.nterminal && x.dec(StateOf(x.states, path), t).Fail?
    ensures var r := D.Iterate(x.T, depth, s, t); Simulates(x, depth, path, t, rest, r.0, r.1, path', 1)
  {
    TopLookup(x, s, path, t);
    RelPopAll(x, s, path, -1);
    path' := if t == 0 then [] else path;
  }

  /** The rule of a reduction that the machine decides on, as the automaton allows it. */
  lemma ReduceAllowed(x: Ctx, path: seq<nat>, t: nat)
    requires Ready(x) && Live(x.states, path) && t < x.g.nterminal && x.dec(StateOf(x.states, path), t).Reduce?
    ensures var r := x.dec(StateOf(x.states, path), t).rule;
      r < |x.g.rules| && Config(r, |x.g.rules[r].rhs|) in x.states[StateOf(x.states, path)].cfp
      && (x.g.rules[r].lhs == x.g.start ==> t == 0)
  {
    assert Open(x);
    assert ActAllowed(x.g, x.states, StateOf(x.states, path), t, x.dec(StateOf(x.states, path), t));
  }

  lemma RuleTables(x: Ctx, r: nat)
    requires Ready(x) && r < |x.g.rules|
    ensures var ir := x.g.rules[r].iRule;
      && ActCode(x, Reduce(r)) == x.T.MinReduce() + ir
      && ir < |x.T.ruleLhs| == |x.T.ruleNRhs| && x.T.ruleLhs[ir] == x.g.rules[r].lhs
      && x.T.ruleNRhs[ir] == |x.g.rules[r].rhs|
      && x.g.rules[r].lhs >= x.g.nterminal
  {
    assert Open(x);
  }

  /** The stack holds the right-hand side; below it, the left-hand side can be gone to. */
  ghost predicate Reduces(x: Ctx, path: seq<nat>, below: seq<nat>, r: nat, t: nat, rest: seq<nat>)
    requires r < |x.g.rules|
  {
    match x
    case Ctx(g, states, dec, p, _, _) =>
      && path == below + g.rules[r].rhs && Live(states, below) && !AutoTo(p, StateOf(states, below))
      && (g.rules[r].lhs == g.start ==>
            t == 0 && below == [] && Step1(g, states, dec, Running(path, [t] + rest)) == Machine.Accepted([t] + rest))
      && (g.rules[r].lhs != g.start ==>
            && g.rules[r].lhs in states[StateOf(states, below)].shifts
            && Step1(g, states, dec, Running(path, [t] + rest)) == Running(below + [g.rules[r].lhs], [t] + rest))
  }

  lemma ReduceFacts(x: Ctx, s: D.PState, path: seq<nat>, t: nat, rest: seq<nat>) returns (below: seq<nat>)
    requires Ready(x) && Rel(x, s, path) && t < x.g.nterminal && x.dec(StateOf(x.states, path), t).Reduce?
    ensures var r := x.dec(StateOf(x.states, path), t).rule; r < |x.g.rules| && Reduces(x, path, below, r, t, rest)
  {
    var r := x.dec(StateOf(x.states, path), t).rule;
    ReduceAllowed(x, path, t);
    below := ReduceBelow(x, path, r, [t] + rest);
    ExposedNotAuto(x, s, path, below, r, t);
    StepReduces(x, path, r, t, rest);
  }

  lemma StepReduces(x: Ctx, path: seq<nat>, r: nat, t: nat, rest: seq<nat>)
    requires Live(x.states, path) && x.dec(StateOf(x.states, path), t) == Reduce(r) && r < |x.g.rules|
    ensures Step1(x.g, x.states, x.dec, Running(path, [t] + rest)) == ReduceStep(x.g, x.states, path, r, [t] + rest)
  {
    assert ([t] + rest)[0] == t;
  }

  lemma ReduceBelow(x: Ctx, path: seq<nat>, r: nat, input: seq<nat>) returns (below: seq<nat>)
    requires Ready(x) && Live(x.states, path) && r < |x.g.rules|
    requires Config(r, |x.g.rules[r].rhs|) in x.states[StateOf(x.states, path)].cfp
    ensures path == below + x.g.rules[r].rhs && Live(x.states, below)
    ensures x.g.rules[r].lhs == x.g.start ==>
      below == [] && ReduceStep(x.g, x.states, path, r, input) == Machine.Accepted(input)
    ensures x.g.rules[r].lhs != x.g.start ==>
      && x.g.rules[r].lhs in x.states[StateOf(x.states, below)].shifts
      && ReduceStep(x.g, x.states, path, r, input) == Running(below + [x.g.rules[r].lhs], input)
  {
    ReadyAutomaton(x);
    below := ReduceTo(x.g, x.states, path, r, input);
    if x.g.rules[r].lhs != x.g.start {
      GotoBelow(x.states, below, x.g.rules[r].lhs);
    }
  }

  lemma ReadyAutomaton(x: Ctx)
    requires Ready(x)
    ensures IsAutomaton(x.g, x.states) && x.g.StartIsolated()
  {
    assert Open(x);
  }

  lemma GotoBelow(states: seq<State>, below: seq<nat>, a: nat)
    requires Live(states, below + [a])
    ensures Live(states, below) && a in states[StateOf(states, below)].shifts
  {
    var q := below + [a];
    LivePrefix(states, q);
    assert q[..|q| - 1] == below;
  }

  /** A pending reduction sits only on top, and pops its own entry. */
  lemma ExposedNotAuto(x: Ctx, s: D.PState, path: seq<nat>, below: seq<nat>, r: nat, t: nat)
    requires Ready(x) && Rel(x, s, path) && t < x.g.nterminal && x.dec(StateOf(x.states, path), t) == Reduce(r)
    requires r < |x.g.rules| && path == below + x.g.rules[r].rhs && Live(x.states, below)
    ensures !AutoTo(x.p, StateOf(x.states, below))
  {
    if x.g.rules[r].rhs == [] {
      assert below == path;
      assert Open(x);
      AutoDecides(x, StateOf(x.states, path), t);
    } else {
      RelAt(x, s, path, below);
    }
  }

  lemma IterateReduces(T: D.Tables, depth: nat, s: D.PState, t: nat, ruleno: nat)
    requires s.stack != [] && ruleno < |T.ruleLhs| == |T.ruleNRhs|
    requires D.FindShiftAction(T, t, s.stack[|s.stack| - 1].stateno) == D.Found(T.MinReduce() + ruleno)
    ensures D.Iterate(T, depth, s, t) ==
      if T.ruleNRhs[ruleno] == 0 && |s.stack| >= depth then (D.PopAll(s), D.StackOverflowed) else D.Reduce(T, s, ruleno)
  {
  }

  lemma SimReduce(x: Ctx, depth: nat, s: D.PState, path: seq<nat>, t: nat, rest: seq<nat>)
    returns (path': seq<nat>, m: nat)
    requires Ready(x) && Rel(x, s, path) && t < x.g.nterminal && x.dec(StateOf(x.states, path), t).Reduce?
    ensures var r := D.Iterate(x.T, depth, s, t); Simulates(x, depth, path, t, rest, r.0, r.1, path', m)
  {
    TopLookup(x, s, path, t);
    var below := ReduceFacts(x, s, path, t, rest);
    var r := x.dec(StateOf(x.states, path), t).rule;
    RuleTables(x, r);
    IterateReduces(x.T, depth, s, t, x.g.rules[r].iRule);
    if |x.g.rules[r].rhs| == 0 && |s.stack| >= depth {
      path', m := [], 1;
      RelPopAll(x, s, path, s.errcnt);
    } else if x.g.rules[r].lhs == x.g.start {
      path', m := path, 1;
      AcceptStep(x, s, path, below, r, t, rest);
    } else {
      path', m := GotoStep(x, s, path, below, r, t, rest);
    }
  }

  lemma AcceptStep(x: Ctx, s: D.PState, path: seq<nat>, below: seq<nat>, r: nat, t: nat, rest: seq<nat>)
    requires Ready(x) && Rel(x, s, path) && r < |x.g.rules| && Reduces(x, path, below, r, t, rest)
    requires x.g.rules[r].lhs == x.g.start
    ensures x.g.rules[r].iRule < |x.T.ruleLhs| == |x.T.ruleNRhs|
    ensures var q := D.Reduce(x.T, s, x.g.rules[r].iRule);
      q.1 == D.Again && Accepting(x, q.0) && t == 0
      && Reaches(x.g, x.states, x.dec, Running(path, [t] + rest), 1, Machine.Accepted([t] + rest))
  {
    RuleTables(x, r);
    RelAt(x, s, path, []);
    BottomCode(x);
    ReduceIs(x.T, s, x.g.rules[r].iRule, x.T.AcceptAction());
    var k := Machine.Accepted([t] + rest);
    assert Reaches(x.g, x.states, x.dec, k, 0, k);
  }

  /** State 0 is at the bottom, and accepts the start symbol. */
  lemma BottomCode(x: Ctx)
    requires Ready(x)
    ensures StackCode(x, StateOf(x.states, [])) == 0
    ensures D.FindReduceAction(x.T, 0, x.g.start) == D.Found(x.T.AcceptAction())
  {
    assert Open(x);
    StartNotAuto(x);
  }

  lemma GotoStep(x: Ctx, s: D.PState, path: seq<nat>, below: seq<nat>, r: nat, t: nat, rest: seq<nat>)
    returns (path': seq<nat>, m: nat)
    requires Ready(x) && Rel(x, s, path) && t < x.g.nterminal
    requires r < |x.g.rules| && Reduces(x, path, below, r, t, rest) && x.g.rules[r].lhs != x.g.start
    ensures x.g.rules[r].iRule < |x.T.ruleLhs| == |x.T.ruleNRhs|
    ensures var q := D.Reduce(x.T, s, x.g.rules[r].iRule);
      q.1 == D.Again && Rel(x, q.0, path') && m > 0 && |path'| <= |path| + 1
      && Reaches(x.g, x.states, x.dec, Running(path, [t] + rest), m, Running(path', [t] + rest))
  {
    RuleTables(x, r);
    var lhs := x.g.rules[r].lhs;
    var c, e := GotoChain(x, below, lhs, t, rest);
    path', m := below + [e], c + 1;
    var code := StackCode(x, StateOf(x.states, path'));
    RelAt(x, s, path, below);
    ReduceIs(x.T, s, x.g.rules[r].iRule, code);
    RelPush(x, s, path, below, e, D.Entry(code, lhs), s.errcnt);
    OneMore(x, Running(path, [t] + rest), Running(below + [lhs], [t] + rest), c, Running(path', [t] + rest));
  }

  lemma ReduceIs(T: D.Tables, s: D.PState, ruleno: nat, code: nat)
    requires ruleno < |T.ruleLhs| == |T.ruleNRhs| && T.ruleNRhs[ruleno] < |s.stack|
    requires D.FindReduceAction(T, s.stack[|s.stack| - T.ruleNRhs[ruleno] - 1].stateno, T.ruleLhs[ruleno]) ==
      D.Found(code)
    requires !(T.MaxShift() < code <= T.MaxShiftReduce()) && code != T.ErrorAction()
    ensures D.Reduce(T, s, ruleno) ==
      (s.(stack := s.stack[..|s.stack| - T.ruleNRhs[ruleno]] + [D.Entry(code, T.ruleLhs[ruleno])]), D.Again)
  {
    var below := s.stack[..|s.stack| - T.ruleNRhs[ruleno]];
    assert below[|below| - 1] == s.stack[|s.stack| - T.ruleNRhs[ruleno] - 1];
  }

  /** The goto found in the tables is the one at the end of the chain. */
  lemma GotoChain(x: Ctx, below: seq<nat>, a: nat, t: nat, rest: seq<nat>) returns (n: nat, e: nat)
    requires Ready(x) && Live(x.states, below) && a >= x.g.nterminal && t < x.g.nterminal
    requires a in x.states[StateOf(x.states, below)].shifts && !AutoTo(x.p, StateOf(x.states, below))
    ensures Live(x.states, below + [e])
    ensures D.FindReduceAction(x.T, StackCode(x, StateOf(x.states, below)), a) ==
      D.Found(StackCode(x, StateOf(x.states, below + [e])))
    ensures var code := StackCode(x, StateOf(x.states, below + [e]));
      !(x.T.MaxShift() < code <= x.T.MaxShiftReduce()) && code != x.T.ErrorAction()
    ensures Reaches(x.g, x.states, x.dec, Running(below + [a], [t] + rest), n, Running(below + [e], [t] + rest))
  {
    assert Open(x);
    var i := StateOf(x.states, below);
    n, e := ChainRun(x, below, a, t, rest);
    assert GotoFound(x, i, a);
    StackCodeRange(x, StateOf(x.states, below + [e]));
  }

  lemma AcceptNow(x: Ctx, depth: nat, s: D.PState, t: nat)
    requires Ready(x) && Accepting(x, s)
    ensures D.Iterate(x.T, depth, s, t) == (D.PState(s.stack[..1], -1), D.TokenAccepted)
  {
    assert Open(x);
  }

  /** Each iteration of the driver is a step, or several, of the machine. */
  lemma SimStep(x: Ctx, depth: nat, s: D.PState, path: seq<nat>, t: nat, rest: seq<nat>)
    returns (path': seq<nat>, n: nat)
    requires Ready(x) && Rel(x, s, path) && t < x.g.nterminal
    ensures var r := D.Iterate(x.T, depth, s, t); Simulates(x, depth, path, t, rest, r.0, r.1, path', n)
  {
    match x.dec(StateOf(x.states, path), t) {
      case Shift(_) =>
        path' := SimShift(x, depth, s, path, t, rest);
        n := 1;
      case Reduce(_) => path', n := SimReduce(x, depth, s, path, t, rest);
      case Fail =>
        path' := SimFail(x, depth, s, path, t, rest);
        n := 1;
    }
  }
}
