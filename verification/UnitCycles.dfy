/** Grammars on which the third pass of CompressTables does not come to its end. With all rules code-free:

      s ::= q.   q ::= x D.   x ::= y.   y ::= x. [D]   x ::= w.   w ::= T.      %left D.

On D, the reduction y ::= x wins against the shift in q ::= x . D, so the gotos on x and y lead to
auto-reduce states, and each is bypassed to the other. What happens depends on the numbers of x, y and w: the
pass fails its assertion when it starts on the cycle, and never ends when it starts at w. */
module UnitCycles {
  import opened Grammars
  import opened Automata
  import opened StateTables
  import opened Actions
  import opened ActionLists
  import opened Compress
  import opened Compression
  import opened Options
  import opened Report
  import opened Generate
  import opened Samples
  import opened Seals

  const D: nat := 2
  const Q: nat := 4

  function Cyclic(w: nat, x: nat, y: nat): Grammar {
    Grammar(3, 8,
      [Rule(3, [Q], 0, -1, true), Rule(Q, [x, D], 1, D, true), Rule(x, [y], 2, -1, true),
       Rule(y, [x], 3, D, true), Rule(x, [w], 4, -1, true), Rule(w, [1], 5, -1, true)],
      3, [-1, -1, 1], [UNK, UNK, LEFT])
  }

  /** The numbers of the three nonterminals. */
  predicate Numbered(w: nat, x: nat, y: nat) {
    4 < w < 8 && 4 < x < 8 && 4 < y < 8 && w != x && x != y && w != y
  }

  /** The generator accepts these grammars. */
  lemma CyclicAccepted(w: nat, x: nat, y: nat)
    requires Numbered(w, x, y)
    ensures var g := Cyclic(w, x, y); g.Valid() && g.StartIsolated() && SmallEnough(g) && RulesNumbered(g) && TieFree(g)
  {
    var g := Cyclic(w, x, y);
    FewConfigs(g, 3);
    NonassocTies(g);
  }

  ghost predicate Sample(B: Build, w: nat, x: nat, y: nat) {
    Known(B) && Numbered(w, x, y) && B.g == Cyclic(w, x, y)
  }

  const ALL := {Config(0, 0), Config(1, 0), Config(2, 0), Config(3, 0), Config(4, 0), Config(5, 0)}

  lemma Predictions(w: nat, x: nat, y: nat)
    requires Numbered(w, x, y)
    ensures var g := Cyclic(w, x, y);
      && ClosedUnder(g, ALL)
      && Predicts(g, Config(0, 0), Config(1, 0)) && Predicts(g, Config(1, 0), Config(2, 0))
      && Predicts(g, Config(2, 0), Config(3, 0)) && Predicts(g, Config(1, 0), Config(4, 0))
      && Predicts(g, Config(4, 0), Config(5, 0))
  {
  }

  lemma StartState(B: Build, w: nat, x: nat, y: nat)
    requires Sample(B, w, x, y)
    ensures Looks(B, 0, {Config(0, 0)}, ALL)
  {
    StartLooks(B, {Config(0, 0)});
    ClosureOf(B, 0);
    Predictions(w, x, y);
    LooksLike(B, 0, {Config(0, 0)}, ALL);
  }

  /** The state after a symbol; nothing is predicted there. */
  lemma After(B: Build, w: nat, x: nat, y: nat, a: nat, basis: set<Config>)
    requires Sample(B, w, x, y) && basis == Moved(B.g, ALL, a) != {} && ClosedUnder(B.g, basis)
    ensures |B.states| > 0 && a in B.states[0].shifts && Looks(B, B.states[0].shifts[a], basis, basis)
  {
    StartState(B, w, x, y);
    ShiftIs(B, 0, {Config(0, 0)}, ALL, a);
    ClosureOf(B, B.states[0].shifts[a]);
    LooksLike(B, B.states[0].shifts[a], basis, basis);
  }

  /** All that D can follow. */
  lemma AheadOfD(B: Build, w: nat, x: nat, y: nat)
    requires Sample(B, w, x, y)
    ensures Ahead(B, 0, Config(2, 0), D) && Ahead(B, 0, Config(3, 0), D) && Ahead(B, 0, Config(4, 0), D)
  {
    StartState(B, w, x, y);
    AheadFirst(B, 0, Config(1, 0), Config(2, 0), D);
    AheadFirst(B, 0, Config(1, 0), Config(4, 0), D);
    AheadClose(B, 0, Config(2, 0), Config(3, 0), D);
  }

  // ---- the gotos of state 0 ----

  /** The goto over a leads to an auto-reduce state, by a unit rule to b. */
  ghost predicate Bypass(B: Build, a: nat, b: nat) {
    |B.states| > 0 && Bypassable(B.g, B.p, B.states[0], a) && BypassTo(B.g, B.p, B.states[0], a) == b
  }

  lemma AfterY(B: Build, w: nat, x: nat, y: nat)
    requires Sample(B, w, x, y)
    ensures Bypass(B, y, x)
  {
    assert Moved(B.g, ALL, y) == {Config(2, 1)} by { assert AtDot(B.g, Config(2, 0), y); }
    After(B, w, x, y, y, {Config(2, 1)});
    AheadOfD(B, w, x, y);
    LoneUnit(B, y, 2);
  }

  lemma AfterW(B: Build, w: nat, x: nat, y: nat)
    requires Sample(B, w, x, y)
    ensures Bypass(B, w, x)
  {
    assert Moved(B.g, ALL, w) == {Config(4, 1)} by { assert AtDot(B.g, Config(4, 0), w); }
    After(B, w, x, y, w, {Config(4, 1)});
    AheadOfD(B, w, x, y);
    LoneUnit(B, w, 4);
  }

  /** After a symbol that completes one unit rule and nothing else. */
  lemma LoneUnit(B: Build, a: nat, r: nat)
    requires Known(B) && |B.states| > 0 && r < |B.g.rules| && B.g.rules[r].rhs == [a] && B.g.rules[r].noCode
    requires a >= B.g.nterminal
    requires B.g.rules[r].lhs != B.g.start && Ahead(B, 0, Config(r, 0), D) && D < B.g.nterminal
    requires a in B.states[0].shifts && Looks(B, B.states[0].shifts[a], {Config(r, 1)}, {Config(r, 1)})
    ensures Bypass(B, a, B.g.rules[r].lhs)
  {
    var j := B.states[0].shifts[a];
    AheadShift(B, 0, Config(r, 0), a, D);
    forall s ensures s !in B.states[j].shifts {
      ShiftIs(B, j, {Config(r, 1)}, {Config(r, 1)}, s);
    }
    LoneBest(B, j, r, D);
    LoneAuto(B, j, r);
  }

  lemma AfterX(B: Build, w: nat, x: nat, y: nat)
    requires Sample(B, w, x, y)
    ensures Bypass(B, x, y)
  {
    var all := {Config(1, 1), Config(3, 1)};
    assert Moved(B.g, ALL, x) == all by { assert AtDot(B.g, Config(1, 0), x) && AtDot(B.g, Config(3, 0), x); }
    After(B, w, x, y, x, all);
    AheadOfD(B, w, x, y);
    var j := B.states[0].shifts[x];
    AheadShift(B, 0, Config(3, 0), x, D);
    forall s ensures s in B.states[j].shifts <==> s == D {
      ShiftIs(B, j, all, all, s);
      if s == D { assert AtDot(B.g, Config(1, 1), s) && Advance(Config(1, 1)) in Moved(B.g, all, s); }
    }
    XWins(B, w, x, y, j);
    XBest(B, w, x, y, j);
    LoneAuto(B, j, 3);
  }

  /** On D the reduction wins: same precedence, and left-associative. */
  lemma XWins(B: Build, w: nat, x: nat, y: nat, j: nat)
    requires Sample(B, w, x, y) && Looks(B, j, {Config(1, 1), Config(3, 1)}, {Config(1, 1), Config(3, 1)})
    requires Ahead(B, j, Config(3, 1), D) && D in B.states[j].shifts
    ensures ReduceWins(B, j, D, 3)
  {
    var s := Action(0, D, SHIFT, B.states[j].shifts[D]);
    assert Winner(B.g, B.states, B.fws, j, D, 0) == Some(s);
    forall n: nat | n < 6 && n != 3 ensures !Candidate(B.g, B.states, B.fws, j, D, REDUCE, n) {
    }
    assert Winner(B.g, B.states, B.fws, j, D, 1) == Some(s);
    assert Winner(B.g, B.states, B.fws, j, D, 2) == Some(s);
    assert Winner(B.g, B.states, B.fws, j, D, 3) == Some(s);
    assert Candidate(B.g, B.states, B.fws, j, D, REDUCE, 3);
    assert Winner(B.g, B.states, B.fws, j, D, 4) == Some(Action(0, D, REDUCE, 3));
    assert Winner(B.g, B.states, B.fws, j, D, 5) == Some(Action(0, D, REDUCE, 3));
  }

  lemma XBest(B: Build, w: nat, x: nat, y: nat, j: nat)
    requires Sample(B, w, x, y) && Looks(B, j, {Config(1, 1), Config(3, 1)}, {Config(1, 1), Config(3, 1)})
    requires Ahead(B, j, Config(3, 1), D) && ReduceWins(B, j, D, 3)
    ensures |B.p.best| == |B.states| && B.p.best[j] == 3
  {
    StatePlan(B, j);
    assert Candidate(B.g, B.states, B.fws, j, D, REDUCE, 3);
    var l := B.aps[j];
    assert LiveOn(l, D);
    var a :| a in l && IsLive(a) && a.sp == D;
    assert a.(id := 0) == Action(0, D, REDUCE, 3) && CanDefault(B.g, a);
    BestInState(B.g, B.states, B.fws, j, l, B.p.best[j]);
  }

  lemma AfterQ(B: Build, w: nat, x: nat, y: nat)
    requires Sample(B, w, x, y)
    ensures |B.states| > 0 && Ends(B.g, B.p, B.states[0], Q)
  {
    assert Moved(B.g, ALL, Q) == {Config(0, 1)} by { assert AtDot(B.g, Config(0, 0), Q); }
    After(B, w, x, y, Q, {Config(0, 1)});
    StartNoDefault(B, B.states[0].shifts[Q]);
  }

  // ---- the cycle ----

  /** x and y are on the cycle, and w leads into it. */
  lemma TheCycle(B: Build, w: nat, x: nat, y: nat)
    requires Sample(B, w, x, y) && Bypass(B, x, y) && Bypass(B, y, x) && Bypass(B, w, x)
    requires StepsOk(B.g, B.p, B.states[0])
    ensures var st := B.states[0];
      && VerdictAt(B.g, B.p, st, x) == VerdictAt(B.g, B.p, st, y) == AssertionFails
      && VerdictAt(B.g, B.p, st, w) == StillRunning
  {
    var g, p, st := B.g, B.p, B.states[0];
    assert Follow(g, p, st, y, 1) == Follow(g, p, st, x, 0) && Follow(g, p, st, x, 1) == Follow(g, p, st, y, 0);
    assert Follow(g, p, st, x, 2) == x && Follow(g, p, st, y, 2) == y;
    assert OnCycle(g, p, st, x) && OnCycle(g, p, st, y);
    var m := CycleNeverEnds(g, p, st, x);
    var n := CycleNeverEnds(g, p, st, y);
    EndsNext(g, p, st, w);
    forall k: nat | k > 0 ensures Follow(g, p, st, w, k) != w {
      OnlyXY(B, w, x, y, k - 1);
    }
  }

  lemma {:induction false} OnlyXY(B: Build, w: nat, x: nat, y: nat, k: nat)
    requires Bypass(B, x, y) && Bypass(B, y, x)
    ensures Follow(B.g, B.p, B.states[0], x, k) in {x, y} && Follow(B.g, B.p, B.states[0], y, k) in {x, y}
  {
    if k > 0 { OnlyXY(B, w, x, y, k - 1); }
  }

  /** The first of the three symbols decides. */
  lemma FirstDecides(B: Build, w: nat, x: nat, y: nat, a: nat)
    requires Sample(B, w, x, y) && a in {w, x, y} && a <= w && a <= x && a <= y
    ensures |B.mid| == |B.states| > 0 && VerdictAll(B.g, B.p, B.states, B.mid, 0) == VerdictAt(B.g, B.p, B.states[0], a)
    ensures VerdictAt(B.g, B.p, B.states[0], a) == if a == w then StillRunning else AssertionFails
  {
    AfterX(B, w, x, y);
    AfterY(B, w, x, y);
    AfterW(B, w, x, y);
    AfterQ(B, w, x, y);
    var l := StartList(B, w, x, y);
    TheCycle(B, w, x, y);
    var j :| 0 <= j < |l| && l[j].sp == a;
    forall i | 0 <= i < |l| && IsGoto(B.g, B.states[0], l[i]) && l[i].sp < a
      ensures Ends(B.g, B.p, B.states[0], l[i].sp)
    {
      GotoSymbols(B, w, x, y, l[i].sp);
    }
    VerdictFirst(B.g, B.p, B.states[0], l, 0, j);
  }

  /** The actions of state 0 before the third pass. */
  lemma StartList(B: Build, w: nat, x: nat, y: nat) returns (l: seq<Action>)
    requires Sample(B, w, x, y)
    ensures |B.mid| == |B.states| > 0 && StepsOk(B.g, B.p, B.states[0])
    ensures l == ConvertedList(B.p, B.mid[0]) && SpSorted(l) && GotosOk(B.g, B.p, B.states[0], l)
  {
    StartState(B, w, x, y);
    StartNoDefault(B, 0);
    StatePlan(B, 0);
    l := ConvertedList(B.p, B.mid[0]);
    assert |B.mid| == |B.states| && GotosOk(B.g, B.p, B.states[0], l) && StepsOk(B.g, B.p, B.states[0]) by {
      assert Open(B);
      VerdictHere(B.g, B.states, B.fws, B.aps, B.mid, B.p, 0);
    }
  }

  lemma GotoSymbols(B: Build, w: nat, x: nat, y: nat, s: nat)
    requires Sample(B, w, x, y) && |B.states| > 0 && s in B.states[0].shifts && s >= B.g.nterminal
    ensures s in {Q, w, x, y}
  {
    StartState(B, w, x, y);
    ShiftIs(B, 0, {Config(0, 0)}, ALL, s);
    var m :| m in Moved(B.g, ALL, s);
    var c :| c in ALL && AtDot(B.g, c, s) && m == Advance(c);
  }

  // ---- the two outcomes ----

  /** When w has the largest number, the pass starts on the cycle: for any automaton of this grammar it fails its
      assertion. */
  lemma PassAsserts(A: Analysis, B: Build)
    requires B.g == Cyclic(7, 5, 6) && Analyzed(B.g, A, B.states, B.fws) && PlanOk(B)
    ensures VerdictAll(B.g, B.p, B.states, B.mid, 0) == AssertionFails
  {
    NowKnown(B);
    FirstDecides(B, 7, 5, 6, 5);
  }

  /** When w has the smallest, it runs into the cycle, and never ends. */
  lemma PassLoops(A: Analysis, B: Build)
    requires B.g == Cyclic(5, 6, 7) && Analyzed(B.g, A, B.states, B.fws) && PlanOk(B)
    ensures VerdictAll(B.g, B.p, B.states, B.mid, 0) == StillRunning
  {
    NowKnown(B);
    FirstDecides(B, 5, 6, 7, 5);
  }
}
