/** CompressTables over all states of an automaton: each cell of the action table keeps its meaning. */
module Compression {
  import opened Grammars
  import opened Automata
  import opened Lalr
  import opened MergeSort
  import opened ConfigLists
  import opened StateTables
  import opened Actions
  import opened Machine
  import opened ActionLists
  import opened Compress

  // ---- what the automaton says about auto-reduce states and unit rules ----

  /** The action lists before compression, and the first pass over all of them. */
  ghost predicate Planned(g: Grammar, states: seq<State>, fws: map<Node, set<nat>>, aps: seq<seq<Action>>,
          mid: seq<seq<Action>>, p: Plan) {
    && |aps| == |states| == |mid| == |p.isAuto| == |p.best|
    && (forall i :: 0 <= i < |states| ==> Resolved(g, states, fws, i, aps[i]))
    && (forall i :: 0 <= i < |states| ==> FirstPass(g, aps[i], mid[i], p.isAuto[i], p.best[i]))
  }

  /** The default rule of a state can be reduced there, and is not a start rule. */
  lemma BestInState(g: Grammar, states: seq<State>, fws: map<Node, set<nat>>, i: nat, l: seq<Action>, r: int)
    requires i < |states| && Resolved(g, states, fws, i, l) && IsBest(g, l, r) && r >= 0
    ensures r < |g.rules| && g.rules[r].lhs != g.start && Config(r, |g.rules[r].rhs|) in states[i].cfp
  {
    var a :| a in l && CanDefault(g, a) && a.x == r;
    assert Candidate(g, states, fws, i, a.sp, a.ty, a.x);
  }

  /** Basis configurations have moved, except the start rules in state 0. */
  lemma BasisKind(g: Grammar, states: seq<State>, i: nat, c: Config)
    requires StatesOk(g, states) && i < |states| && c in states[i].basis && c.dot == 0
    ensures i == 0 && c.rule < |g.rules| && g.rules[c.rule].lhs == g.start
  {
    assert Reachable(g, states, i);
    var n: nat :| ReachIn(g, states, n, i);
    assert n == 0;
  }

  /** A state that starts a rule of some other symbol has a goto on that symbol. */
  lemma GotoForRule(g: Grammar, states: seq<State>, i: nat, r: nat)
    requires StatesOk(g, states) && IsAutomaton(g, states) && i < |states| && r < |g.rules|
    requires Config(r, 0) in states[i].cfp && g.rules[r].lhs != g.start
    ensures g.rules[r].lhs in states[i].shifts
  {
    var c := Config(r, 0);
    assert IsClosure(g, states[i].basis, states[i].cfp);
    if c in states[i].basis {
      BasisKind(g, states, i, c);
      assert false;
    }
    var q := PredictedBy(g, states[i].basis, states[i].cfp, c);
    ShiftMoves(g, states, i, q, g.rules[r].lhs);
  }

  /** A completed rule of length 1 in the target of a shift over x is x's own unit rule. */
  lemma UnitSource(g: Grammar, states: seq<State>, i: nat, x: nat, r: nat)
    requires IsAutomaton(g, states) && i < |states| && x in states[i].shifts && r < |g.rules| && |g.rules[r].rhs| == 1
    requires states[i].shifts[x] < |states| && Config(r, 1) in states[states[i].shifts[x]].cfp
    ensures Config(r, 0) in states[i].cfp && g.rules[r].rhs[0] == x
  {
    var j := states[i].shifts[x];
    assert IsClosure(g, states[j].basis, states[j].cfp);
    MovedInBasis(g, states[j].basis, states[j].cfp, Config(r, 1));
    assert ShiftsSound(g, states, i);
    assert Retreat(Config(r, 1)) == Config(r, 0);
  }

  /** A bypass from x is by a code-free unit rule over x. */
  lemma BypassRule(g: Grammar, states: seq<State>, fws: map<Node, set<nat>>, aps: seq<seq<Action>>,
          mid: seq<seq<Action>>, p: Plan, i: nat, x: nat) returns (r: nat)
    requires g.Valid() && g.StartIsolated() && StatesOk(g, states) && IsAutomaton(g, states)
    requires Planned(g, states, fws, aps, mid, p) && i < |states| && Bypassable(g, p, states[i], x)
    ensures IsUnit(g, r) && g.rules[r].rhs[0] == x && g.rules[r].lhs == BypassTo(g, p, states[i], x)
    ensures BypassTo(g, p, states[i], x) in states[i].shifts
  {
    var j := states[i].shifts[x];
    r := p.best[j];
    assert FirstPass(g, aps[j], mid[j], p.isAuto[j], p.best[j]);
    BestInState(g, states, fws, j, aps[j], r);
    UnitSource(g, states, i, x, r);
    GotoForRule(g, states, i, r);
  }

  /** In every state of the automaton, each bypass leads to another goto of the state. */
  lemma ChainReady(g: Grammar, states: seq<State>, fws: map<Node, set<nat>>, aps: seq<seq<Action>>,
          mid: seq<seq<Action>>, p: Plan, i: nat)
    requires g.Valid() && g.StartIsolated() && StatesOk(g, states) && IsAutomaton(g, states)
    requires Planned(g, states, fws, aps, mid, p) && i < |states|
    ensures StepsOk(g, p, states[i])
  {
    var st := states[i];
    forall x | x in st.shifts ensures x < g.nsymbol { ShiftSymbol(g, states, i, x); }
    forall x: nat | Bypassable(g, p, st, x)
      ensures BypassTo(g, p, st, x) in st.shifts && BypassTo(g, p, st, x) >= g.nterminal
    {
      var r := BypassRule(g, states, fws, aps, mid, p, i, x);
    }
  }

  // ---- cycles of unit rules in the grammar ----

  /** z is reached from x by n code-free unit rules, from the right-hand side to the left. */
  ghost predicate UnitPath(g: Grammar, x: nat, n: nat, z: nat)
    decreases n
  {
    if n == 0 then x == z
    else exists r: nat :: IsUnit(g, r) && g.rules[r].rhs[0] == x && UnitPath(g, g.rules[r].lhs, n - 1, z)
  }

  /** The code-free unit rules of the grammar form no cycle. */
  ghost predicate UnitAcyclic(g: Grammar) {
    forall x: nat, n: nat :: n > 0 ==> !UnitPath(g, x, n, x)
  }

  /** A rank that decreases along code-free unit rules. */
  ghost predicate UnitRanked(g: Grammar, rank: seq<nat>) {
    forall r: nat :: IsUnit(g, r) ==>
      g.rules[r].lhs < |rank| && g.rules[r].rhs[0] < |rank| && rank[g.rules[r].lhs] < rank[g.rules[r].rhs[0]]
  }

  lemma RankedAcyclic(g: Grammar, rank: seq<nat>)
    requires UnitRanked(g, rank)
    ensures UnitAcyclic(g)
  {
    forall x: nat, n: nat | n > 0 ensures !UnitPath(g, x, n, x) {
      if UnitPath(g, x, n, x) { RankFalls(g, rank, x, n, x); }
    }
  }

  lemma {:induction false} RankFalls(g: Grammar, rank: seq<nat>, x: nat, n: nat, z: nat)
    requires UnitRanked(g, rank) && n > 0 && UnitPath(g, x, n, z)
    ensures x < |rank| && z < |rank| && rank[z] < rank[x]
    decreases n
  {
    var r: nat :| IsUnit(g, r) && g.rules[r].rhs[0] == x && UnitPath(g, g.rules[r].lhs, n - 1, z);
    if n > 1 { RankFalls(g, rank, g.rules[r].lhs, n - 1, z); }
  }

  /** Every bypass of the state is by a code-free unit rule. */
  ghost predicate ByUnits(g: Grammar, p: Plan, st: State) {
    forall x: nat :: Bypassable(g, p, st, x) ==> ByUnit(g, p, st, x)
  }

  ghost predicate ByUnit(g: Grammar, p: Plan, st: State, x: nat)
    requires Bypassable(g, p, st, x)
  {
    exists r: nat :: IsUnit(g, r) && g.rules[r].rhs[0] == x && g.rules[r].lhs == BypassTo(g, p, st, x)
  }

  /** The bypasses of a state follow a path of unit rules. */
  lemma {:induction false} FollowPath(g: Grammar, p: Plan, st: State, x: nat, n: nat)
    requires ByUnits(g, p, st) && forall m: nat :: m < n ==> Bypassable(g, p, st, Follow(g, p, st, x, m))
    ensures UnitPath(g, x, n, Follow(g, p, st, x, n))
    decreases n
  {
    if n > 0 {
      assert Bypassable(g, p, st, Follow(g, p, st, x, 0)) && ByUnit(g, p, st, x);
      var r: nat :| IsUnit(g, r) && g.rules[r].rhs[0] == x && g.rules[r].lhs == BypassTo(g, p, st, x);
      forall m: nat | m < n - 1 ensures Bypassable(g, p, st, Follow(g, p, st, BypassTo(g, p, st, x), m)) {
        assert Bypassable(g, p, st, Follow(g, p, st, x, m + 1));
      }
      FollowPath(g, p, st, BypassTo(g, p, st, x), n - 1);
    }
  }

  lemma CyclePath(g: Grammar, p: Plan, st: State, x: nat)
    requires StepsOk(g, p, st) && ByUnits(g, p, st) && OnCycle(g, p, st, x)
    ensures !UnitAcyclic(g)
  {
    var n := CycleNeverEnds(g, p, st, x);
    forall m: nat ensures Bypassable(g, p, st, Follow(g, p, st, x, m)) { NeverEnds(g, p, st, x, m); }
    FollowPath(g, p, st, x, n);
    assert UnitPath(g, x, n, x);
  }

  /** So the third pass comes to its end whenever the code-free unit rules of the grammar form no cycle. */
  lemma AcyclicNoCycles(g: Grammar, states: seq<State>, fws: map<Node, set<nat>>, aps: seq<seq<Action>>,
          mid: seq<seq<Action>>, p: Plan)
    requires g.Valid() && g.StartIsolated() && StatesOk(g, states) && IsAutomaton(g, states)
    requires Planned(g, states, fws, aps, mid, p) && UnitAcyclic(g)
    ensures NoCycles(g, p, states)
  {
    forall i | 0 <= i < |states| ensures NoCycle(g, p, states[i]) {
      ChainReady(g, states, fws, aps, mid, p, i);
      UnitsHere(g, states, fws, aps, mid, p, i);
      forall x: nat ensures !OnCycle(g, p, states[i], x) {
        if OnCycle(g, p, states[i], x) { CyclePath(g, p, states[i], x); }
      }
    }
  }

  lemma UnitsHere(g: Grammar, states: seq<State>, fws: map<Node, set<nat>>, aps: seq<seq<Action>>,
          mid: seq<seq<Action>>, p: Plan, i: nat)
    requires g.Valid() && g.StartIsolated() && StatesOk(g, states) && IsAutomaton(g, states)
    requires Planned(g, states, fws, aps, mid, p) && i < |states|
    ensures ByUnits(g, p, states[i])
  {
    forall x: nat | Bypassable(g, p, states[i], x) ensures ByUnit(g, p, states[i], x) {
      var r := BypassRule(g, states, fws, aps, mid, p, i, x);
    }
  }

  // ---- the lists between the passes ----

  lemma MidElements(g: Grammar, states: seq<State>, fws: map<Node, set<nat>>, i: nat, l: seq<Action>, m: seq<Action>,
          isAuto: bool, r: int, a: Action)
    requires i < |states| && Resolved(g, states, fws, i, l) && FirstPass(g, l, m, isAuto, r) && a in m
    ensures || (a in l && !(r >= 0 && IsReduce(a, r)))
            || (r >= 0 && a.ty == NOT_USED && a.sp < g.nterminal)
            || (r >= 0 && IsReduce(a, r) && a.sp == g.nsymbol)
  {
    if r >= 0 && Deleted(l, a, r) {
      var b := a.(ty := REDUCE);
      assert Candidate(g, states, fws, i, b.sp, b.ty, b.x);
    }
  }

  lemma MidKeeps(g: Grammar, l: seq<Action>, m: seq<Action>, isAuto: bool, r: int, a: Action)
    requires FirstPass(g, l, m, isAuto, r) && a in l && !(r >= 0 && IsReduce(a, r))
    ensures a in m
  {
  }

  /** The live action on a nonterminal is the shift over it, or ACCEPT on the start symbol. */
  lemma NonterminalAction(g: Grammar, states: seq<State>, fws: map<Node, set<nat>>, i: nat, l: seq<Action>, a: Action)
    requires g.Valid() && g.StartIsolated() && IsAutomaton(g, states) && i < |states| && Resolved(g, states, fws, i, l)
    requires a in l && a.sp >= g.nterminal
    ensures a.sp < g.nsymbol && a.sp in states[i].shifts ==> a.ty == SHIFT && a.x == states[i].shifts[a.sp]
    ensures a.ty == SHIFT ==> a.sp in states[i].shifts
    ensures a.ty == REDUCE ==> false
    ensures a.ty == ACCEPT ==> i == 0 && a.sp == g.start && a.x == 0
  {
    if a.sp in states[i].shifts {
      ShiftSymbol(g, states, i, a.sp);
      assert Candidate(g, states, fws, i, a.sp, SHIFT, states[i].shifts[a.sp]);
      assert LiveOn(l, a.sp);
      var b :| b in l && IsLive(b) && b.sp == a.sp;
      assert a == b && Candidate(g, states, fws, i, b.sp, b.ty, b.x);
    }
    if IsLive(a) { assert Candidate(g, states, fws, i, a.sp, a.ty, a.x); }
  }

  lemma GotoElement(g: Grammar, states: seq<State>, fws: map<Node, set<nat>>, i: nat, l: seq<Action>, m: seq<Action>,
          p: Plan, b: Action)
    requires g.Valid() && g.StartIsolated() && IsAutomaton(g, states) && i < |states| && Resolved(g, states, fws, i, l)
    requires i < |p.isAuto| == |p.best| && FirstPass(g, l, m, p.isAuto[i], p.best[i]) && b in m
    ensures var c, st := Converted(p, b), states[i];
      && (IsGoto(g, st, c) ==> (c.ty, c.x) == ShiftAct(p, st, c.sp))
      && (c.sp >= g.nterminal && c.ty == SHIFTREDUCE ==> IsGoto(g, st, c))
  {
    MidElements(g, states, fws, i, l, m, p.isAuto[i], p.best[i], b);
    if b in l && b.sp >= g.nterminal { NonterminalAction(g, states, fws, i, l, b); }
  }

  lemma GotoPresent(g: Grammar, states: seq<State>, fws: map<Node, set<nat>>, i: nat, l: seq<Action>, m: seq<Action>,
          p: Plan, x: nat)
    returns (k: nat)
    requires g.Valid() && g.StartIsolated() && IsAutomaton(g, states) && i < |states| && Resolved(g, states, fws, i, l)
    requires i < |p.isAuto| == |p.best| && FirstPass(g, l, m, p.isAuto[i], p.best[i])
    requires g.nterminal <= x < g.nsymbol && x in states[i].shifts
    ensures k < |m| && m[k].sp == x
  {
    assert Candidate(g, states, fws, i, x, SHIFT, states[i].shifts[x]);
    assert LiveOn(l, x);
    var a :| a in l && IsLive(a) && a.sp == x;
    NonterminalAction(g, states, fws, i, l, a);
    MidKeeps(g, l, m, p.isAuto[i], p.best[i], a);
    k :| 0 <= k < |m| && m[k] == a;
  }

  lemma GotosReady(g: Grammar, states: seq<State>, fws: map<Node, set<nat>>, i: nat, l: seq<Action>, m: seq<Action>,
          p: Plan, c: seq<Action>)
    requires g.Valid() && g.StartIsolated() && IsAutomaton(g, states) && i < |states| && Resolved(g, states, fws, i, l)
    requires i < |p.isAuto| == |p.best| && FirstPass(g, l, m, p.isAuto[i], p.best[i])
    requires |c| == |m| && forall k :: 0 <= k < |m| ==> c[k] == Converted(p, m[k])
    ensures GotosOk(g, p, states[i], c)
  {
    var st := states[i];
    forall k | 0 <= k < |c|
      ensures IsGoto(g, st, c[k]) ==> (c[k].ty, c[k].x) == ShiftAct(p, st, c[k].sp)
      ensures c[k].sp >= g.nterminal && c[k].ty == SHIFTREDUCE ==> IsGoto(g, st, c[k])
    {
      GotoElement(g, states, fws, i, l, m, p, m[k]);
    }
    forall x | g.nterminal <= x < g.nsymbol && x in st.shifts ensures exists k :: 0 <= k < |c| && c[k].sp == x {
      var k := GotoPresent(g, states, fws, i, l, m, p, x);
      assert c[k].sp == x;
    }
    GotosOnce(g, states, fws, i, l, m, p, c);
  }

  lemma GotosOnce(g: Grammar, states: seq<State>, fws: map<Node, set<nat>>, i: nat, l: seq<Action>, m: seq<Action>,
          p: Plan, c: seq<Action>)
    requires i < |states| && Resolved(g, states, fws, i, l) && i < |p.isAuto| == |p.best|
    requires FirstPass(g, l, m, p.isAuto[i], p.best[i])
    requires |c| == |m| && forall k :: 0 <= k < |m| ==> c[k] == Converted(p, m[k])
    ensures forall j, k :: 0 <= j < k < |c| && IsGoto(g, states[i], c[j]) ==> c[j].sp != c[k].sp
  {
    forall j, k | 0 <= j < k < |c| && IsGoto(g, states[i], c[j]) ensures c[j].sp != c[k].sp {
      GotoOnce(g, states, fws, i, l, m, p, j, k);
    }
  }

  lemma GotoOnce(g: Grammar, states: seq<State>, fws: map<Node, set<nat>>, i: nat, l: seq<Action>, m: seq<Action>,
          p: Plan, j: nat, k: nat)
    requires i < |states| && Resolved(g, states, fws, i, l) && i < |p.isAuto| == |p.best|
    requires FirstPass(g, l, m, p.isAuto[i], p.best[i])
    requires j < k < |m| && g.nterminal <= m[j].sp < g.nsymbol
    ensures m[j].sp != m[k].sp
  {
    assert m[j] in m && m[k] in m && m[j].id != m[k].id;
    MidElements(g, states, fws, i, l, m, p.isAuto[i], p.best[i], m[j]);
    MidElements(g, states, fws, i, l, m, p.isAuto[i], p.best[i], m[k]);
  }

  // ---- the whole of CompressTables ----

  /** What compression makes of one action of the list after the first pass. */
  ghost function Squeezed(g: Grammar, p: Plan, st: State, a: Action): Action
    requires StepsOk(g, p, st)
  {
    Ended(g, p, st, Converted(p, a))
  }

  ghost predicate SqueezedList(g: Grammar, p: Plan, st: State, m: seq<Action>, n: seq<Action>)
    requires StepsOk(g, p, st)
  {
    |n| == |m| && forall k :: 0 <= k < |m| ==> n[k] == Squeezed(g, p, st, m[k])
  }

  /** The list after the second pass. */
  function ConvertedList(p: Plan, m: seq<Action>): (r: seq<Action>)
    ensures |r| == |m| && forall k :: 0 <= k < |m| ==> r[k] == Converted(p, m[k])
  {
    seq(|m|, k requires 0 <= k < |m| => Converted(p, m[k]))
  }

  /** The outcome of the third pass over the states from i on: the first state in which it does not end decides. */
  ghost function VerdictAll(g: Grammar, p: Plan, states: seq<State>, mid: seq<seq<Action>>, i: nat): Outcome
    requires i <= |states| == |mid|
    decreases |states| - i
  {
    if i == |states| then Done
    else
      var v := Verdict(g, p, states[i], ConvertedList(p, mid[i]), 0);
      if v.Done? then VerdictAll(g, p, states, mid, i + 1) else v
  }

  /** No state has a cycle of code-free unit rules whose gotos are all auto-reduce states. */
  ghost predicate NoCycles(g: Grammar, p: Plan, states: seq<State>) {
    forall i :: 0 <= i < |states| ==> NoCycle(g, p, states[i])
  }

  lemma {:induction false} VerdictAllDone(g: Grammar, p: Plan, states: seq<State>, mid: seq<seq<Action>>, i: nat)
    requires i <= |states| == |mid|
    requires forall j :: i <= j < |states| ==> DoneIfNoCycle(g, p, states[j], mid[j])
    ensures VerdictAll(g, p, states, mid, i) == Done <==> forall j :: i <= j < |states| ==> NoCycle(g, p, states[j])
    decreases |states| - i
  {
    if i < |states| {
      assert DoneIfNoCycle(g, p, states[i], mid[i]);
      VerdictAllDone(g, p, states, mid, i + 1);
    }
  }

  ghost predicate DoneIfNoCycle(g: Grammar, p: Plan, st: State, m: seq<Action>) {
    Verdict(g, p, st, ConvertedList(p, m), 0) == Done <==> NoCycle(g, p, st)
  }

  /** The third pass comes to its end if and only if no state has a cycle. */
  lemma PassEnds(g: Grammar, states: seq<State>, fws: map<Node, set<nat>>, aps: seq<seq<Action>>,
          mid: seq<seq<Action>>, p: Plan)
    requires g.Valid() && g.StartIsolated() && StatesOk(g, states) && IsAutomaton(g, states)
    requires Planned(g, states, fws, aps, mid, p)
    ensures VerdictAll(g, p, states, mid, 0) == Done <==> NoCycles(g, p, states)
  {
    forall i | 0 <= i < |states| ensures DoneIfNoCycle(g, p, states[i], mid[i]) {
      VerdictHere(g, states, fws, aps, mid, p, i);
    }
    VerdictAllDone(g, p, states, mid, 0);
  }

  lemma VerdictHere(g: Grammar, states: seq<State>, fws: map<Node, set<nat>>, aps: seq<seq<Action>>,
          mid: seq<seq<Action>>, p: Plan, i: nat)
    requires g.Valid() && g.StartIsolated() && StatesOk(g, states) && IsAutomaton(g, states)
    requires Planned(g, states, fws, aps, mid, p) && i < |states|
    ensures StepsOk(g, p, states[i]) && GotosOk(g, p, states[i], ConvertedList(p, mid[i]))
    ensures DoneIfNoCycle(g, p, states[i], mid[i])
  {
    ChainReady(g, states, fws, aps, mid, p, i);
    GotosReady(g, states, fws, i, aps[i], mid[i], p, ConvertedList(p, mid[i]));
    VerdictDone(g, p, states[i], ConvertedList(p, mid[i]));
  }

  /** The first m lists have been compressed. */
  ghost predicate SqueezedUpTo(g: Grammar, p: Plan, states: seq<State>, mid: seq<seq<Action>>, out: seq<seq<Action>>,
          m: nat)
    requires m <= |states| == |mid| && m <= |out|
  {
    forall i :: 0 <= i < m ==> ChainOk(g, p, states[i]) && SqueezedList(g, p, states[i], mid[i], out[i])
  }

  /** The three passes of CompressTables, without %wildcard, with at most fuel bypasses of each action. They come
      to their end if and only if no state has a cycle. */
  method CompressTables(g: Grammar, states: seq<State>, ghost fws: map<Node, set<nat>>, aps: seq<seq<Action>>,
          fuel: nat)
    returns (o: Outcome, out: seq<seq<Action>>, p: Plan, mid: seq<seq<Action>>)
    requires g.Valid() && g.StartIsolated() && StatesOk(g, states) && IsAutomaton(g, states)
    requires |aps| == |states| && forall i ::
      0 <= i < |states| ==> Resolved(g, states, fws, i, aps[i]) && |aps[i]| < Pow2(LISTSIZE)
    ensures Planned(g, states, fws, aps, mid, p)
    ensures o.Done? ==> |out| == |states| && SqueezedUpTo(g, p, states, mid, out, |states|)
    ensures o.Done? || o.AssertionFails? ==> (o.Done? <==> NoCycles(g, p, states))
    ensures fuel >= g.nsymbol ==> o == VerdictAll(g, p, states, mid, 0) && (o.Done? <==> NoCycles(g, p, states))
  {
    mid, p := FirstPasses(g, states, fws, aps);
    PassEnds(g, states, fws, aps, mid, p);
    out := [];
    var i := 0;
    while i < |states|
      invariant i == |out| <= |states| && SqueezedUpTo(g, p, states, mid, out, i)
      invariant VerdictAll(g, p, states, mid, 0) == VerdictAll(g, p, states, mid, i)
    {
      var r;
      o, r := SqueezeState(g, states, fws, aps, mid, p, i, fuel);
      if !o.Done? { return; }
      SqueezedOne(g, p, states, mid, out, i, r);
      out, i := out + [r], i + 1;
    }
    o := Done;
    AllEndNoCycles(g, p, states, mid, out);
  }

  /** The second and third pass over one state. */
  method SqueezeState(g: Grammar, states: seq<State>, ghost fws: map<Node, set<nat>>, ghost aps: seq<seq<Action>>,
          mid: seq<seq<Action>>,
                      p: Plan, i: nat, fuel: nat)
    returns (o: Outcome, r: seq<Action>)
    requires g.Valid() && g.StartIsolated() && StatesOk(g, states) && IsAutomaton(g, states)
    requires Planned(g, states, fws, aps, mid, p) && i < |states|
    ensures o.Done? ==> ChainOk(g, p, states[i]) && SqueezedList(g, p, states[i], mid[i], r)
    ensures o.AssertionFails? ==> !NoCycle(g, p, states[i])
    ensures fuel >= g.nsymbol ==> o == Verdict(g, p, states[i], ConvertedList(p, mid[i]), 0)
  {
    var c := ConvertState(p, mid[i]);
    assert c == ConvertedList(p, mid[i]);
    VerdictHere(g, states, fws, aps, mid, p, i);
    o, r := BypassState(g, p, states[i], c, fuel);
  }

  lemma SqueezedOne(g: Grammar, p: Plan, states: seq<State>, mid: seq<seq<Action>>, out: seq<seq<Action>>, i: nat,
          r: seq<Action>)
    requires i == |out| < |states| == |mid| && SqueezedUpTo(g, p, states, mid, out, i) && ChainOk(g, p, states[i])
    requires SqueezedList(g, p, states[i], mid[i], r)
    ensures SqueezedUpTo(g, p, states, mid, out + [r], i + 1)
    ensures Verdict(g, p, states[i], ConvertedList(p, mid[i]), 0) == Done
  {
    VerdictFrom(g, p, states[i], ConvertedList(p, mid[i]), 0);
  }

  lemma AllEndNoCycles(g: Grammar, p: Plan, states: seq<State>, mid: seq<seq<Action>>, out: seq<seq<Action>>)
    requires |out| == |states| == |mid| && SqueezedUpTo(g, p, states, mid, out, |states|)
    ensures NoCycles(g, p, states)
  {
    forall i | 0 <= i < |states| ensures NoCycle(g, p, states[i]) {
      EndIffNoCycle(g, p, states[i]);
    }
  }

  method FirstPasses(g: Grammar, states: seq<State>, ghost fws: map<Node, set<nat>>, aps: seq<seq<Action>>)
    returns (mid: seq<seq<Action>>, p: Plan)
    requires |aps| == |states| && forall i ::
      0 <= i < |states| ==> Resolved(g, states, fws, i, aps[i]) && |aps[i]| < Pow2(LISTSIZE)
    ensures Planned(g, states, fws, aps, mid, p)
  {
    mid, p := [], Plan([], []);
    for i := 0 to |states|
      invariant |mid| == |p.isAuto| == |p.best| == i
      invariant forall j :: 0 <= j < i ==> FirstPass(g, aps[j], mid[j], p.isAuto[j], p.best[j])
    {
      var m, isAuto, rbest := DefaultState(g, aps[i]);
      mid, p := mid + [m], Plan(p.isAuto + [isAuto], p.best + [rbest]);
    }
  }
}
