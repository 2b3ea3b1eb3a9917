/** Reading off what the generator makes of a concrete grammar: from any analysis of it, whatever the numbers of
the states. */
module Samples {
  import opened Grammars
  import opened FirstSets
  import opened MergeSort
  import opened ConfigLists
  import opened Automata
  import opened Lalr
  import opened StateTables
  import opened Actions
  import opened ActionLists
  import opened Compress
  import opened Compression
  import opened Options
  import opened Seals
  import opened Generate
  import Decisions

  /** What is known of the states and their lookahead sets, sealed. */
  ghost predicate Mapped(B: Build) {
    forall q {:trigger Open(q)} :: Open(q) && q == B ==>
      && q.g.Valid() && q.g.StartIsolated() && StatesOk(q.g, q.states) && IsAutomaton(q.g, q.states)
      && FollowClosed(q.g, q.states, q.fws)
  }

  /** ... and of the plan. */
  ghost predicate Known(B: Build) {
    Mapped(B) && forall q {:trigger Open(q)} :: Open(q) && q == B ==> PlanOk(q)
  }

  lemma NowKnown(B: Build)
    requires PlanOk(B) && FollowClosed(B.g, B.states, B.fws)
    ensures Known(B)
  {
  }

  // ---- small grammars ----

  ghost function Grid(rules: nat, n: nat): (all: set<Config>)
    ensures |all| <= rules * n && forall c: Config :: c.rule < rules && c.dot < n ==> c in all
  {
    if rules == 0 then {} else Grid(rules - 1, n) + Dots(rules - 1, n)
  }

  ghost function Dots(rule: nat, n: nat): (all: set<Config>)
    ensures |all| <= n && forall d: nat :: d < n ==> Config(rule, d) in all
  {
    if n == 0 then {} else Dots(rule, n - 1) + {Config(rule, n - 1)}
  }

  /** A grammar of a few short rules is small enough. */
  lemma FewConfigs(g: Grammar, n: nat)
    requires forall r :: 0 <= r < |g.rules| ==> |g.rules[r].rhs| < n
    requires g.nsymbol + |g.rules| * n * g.nterminal + 1 < 1024
    ensures SmallEnough(g)
  {
    var all := Grid(|g.rules|, n);
    assert AllConfigs(g) <= all;
    Fewer(AllConfigs(g), all);
    MulMono(|AllConfigs(g)|, |g.rules| * n, g.nterminal);
    assert Pow2(10) == 1024;
    Pow2Grows(10, LISTSIZE);
  }

  lemma Fewer<T>(a: set<T>, b: set<T>)
    requires a <= b
    ensures |a| <= |b|
  {
    assert b == a + (b - a);
  }

  lemma {:induction false} Pow2Grows(m: nat, n: nat)
    requires m <= n
    ensures Pow2(m) <= Pow2(n)
  {
    if m < n { Pow2Grows(m, n - 1); }
  }

  // ---- states ----

  ghost predicate Is(s: seq<Config>, all: set<Config>) {
    forall c :: c in s <==> c in all
  }

  /** State i has exactly this basis and this closure. */
  ghost predicate Looks(B: Build, i: int, basis: set<Config>, cfp: set<Config>) {
    0 <= i < |B.states| && Is(B.states[i].basis, basis) && Is(B.states[i].cfp, cfp)
  }

  ghost predicate ClosedUnder(g: Grammar, all: set<Config>) {
    forall p, c :: p in all && Predicts(g, p, c) ==> c in all
  }

  /** The configurations with x after the dot, with the dot moved over it. */
  ghost function Moved(g: Grammar, all: set<Config>, x: nat): set<Config> {
    set c | c in all && AtDot(g, c, x) :: Advance(c)
  }

  lemma {:induction false} ClosureInside(g: Grammar, basis: seq<Config>, n: nat, c: Config, all: set<Config>)
    requires InClosure(g, basis, n, c) && ClosedUnder(g, all) && forall b :: b in basis ==> b in all
    ensures c in all
  {
    if n > 0 {
      var p :| InClosure(g, basis, n - 1, p) && Predicts(g, p, c);
      ClosureInside(g, basis, n - 1, p, all);
    }
  }

  lemma ClosureOf(B: Build, i: nat)
    requires Mapped(B) && i < |B.states|
    ensures IsClosure(B.g, B.states[i].basis, B.states[i].cfp)
  {
    assert Open(B);
  }

  /** A closure is known once it is known to hold a closed set. */
  lemma LooksLike(B: Build, i: nat, basis: set<Config>, cfp: set<Config>)
    requires Mapped(B) && i < |B.states| && Is(B.states[i].basis, basis)
    requires basis <= cfp && ClosedUnder(B.g, cfp) && forall c :: c in cfp ==> c in B.states[i].cfp
    ensures Looks(B, i, basis, cfp)
  {
    ClosureOf(B, i);
    forall c | c in B.states[i].cfp ensures c in cfp {
      assert Reached(B.g, B.states[i].basis, c);
      var n: nat :| InClosure(B.g, B.states[i].basis, n, c);
      ClosureInside(B.g, B.states[i].basis, n, c, cfp);
    }
  }

  lemma ShiftIs(B: Build, i: nat, basis: set<Config>, cfp: set<Config>, x: nat)
    requires Mapped(B) && Looks(B, i, basis, cfp)
    ensures x in B.states[i].shifts <==> Moved(B.g, cfp, x) != {}
    ensures x in B.states[i].shifts ==>
      var j := B.states[i].shifts[x]; j < |B.states| && Is(B.states[j].basis, Moved(B.g, cfp, x))
  {
    assert Open(B);
    assert ShiftsSound(B.g, B.states, i) && ShiftsTotal(B.g, B.states, i);
    if HasAtDot(B.g, B.states[i].cfp, x) {
      var c :| c in B.states[i].cfp && AtDot(B.g, c, x);
      assert Advance(c) in Moved(B.g, cfp, x);
    }
    if Moved(B.g, cfp, x) != {} {
      var m :| m in Moved(B.g, cfp, x);
      var c :| c in cfp && AtDot(B.g, c, x) && m == Advance(c);
      assert HasAtDot(B.g, B.states[i].cfp, x);
    }
    if x in B.states[i].shifts {
      KernelIs(B.g, B.states[i].cfp, cfp, x, B.states[B.states[i].shifts[x]].basis);
    }
  }

  lemma KernelIs(g: Grammar, s: seq<Config>, all: set<Config>, x: nat, basis: seq<Config>)
    requires Is(s, all) && IsKernel(g, s, x, basis)
    ensures Is(basis, Moved(g, all, x))
  {
    forall c ensures c in basis <==> c in Moved(g, all, x) {
      if c.dot > 0 { assert Advance(Retreat(c)) == c; }
    }
  }

  lemma StartLooks(B: Build, basis: set<Config>)
    requires Mapped(B) && forall c: Config ::
      c in basis <==> c.dot == 0 && c.rule < |B.g.rules| && B.g.rules[c.rule].lhs == B.g.start
    ensures |B.states| > 0 && Is(B.states[0].basis, basis)
  {
    assert Open(B);
  }

  /** Two states with the same basis are the same. */
  lemma SameState(B: Build, i: nat, j: nat, basis: set<Config>)
    requires Mapped(B) && i < |B.states| && j < |B.states| && Is(B.states[i].basis, basis)
    requires Is(B.states[j].basis, basis)
    ensures i == j
  {
    assert Open(B);
    assert StateOk(B.g, B.states[i]) && StateOk(B.g, B.states[j]);
    StrictlySortedUnique(B.states[i].basis, B.states[j].basis);
  }

  // ---- lookaheads ----

  ghost predicate Ahead(B: Build, i: int, c: Config, t: nat) {
    Follows(B.states, B.fws, i, c, t)
  }

  lemma AheadStart(B: Build, c: Config)
    requires Mapped(B) && c.dot == 0 && c.rule < |B.g.rules| && B.g.rules[c.rule].lhs == B.g.start
    ensures Ahead(B, 0, c, 0)
  {
    assert Open(B);
    assert c in B.states[0].basis;
    assert IsClosure(B.g, B.states[0].basis, B.states[0].cfp);
  }

  lemma AheadShift(B: Build, i: nat, c: Config, x: nat, t: nat)
    requires Mapped(B) && Ahead(B, i, c, t) && AtDot(B.g, c, x)
    ensures x in B.states[i].shifts && Ahead(B, B.states[i].shifts[x], Advance(c), t)
  {
    assert Open(B);
    ShiftMoves(B.g, B.states, i, c, x);
    assert ShiftLinked(B.fws, i, c, B.states[i].shifts[x]);
  }

  /** At the end of a rule the lookahead is handed on. */
  lemma AheadClose(B: Build, i: nat, p: Config, c: Config, t: nat)
    requires Mapped(B) && Ahead(B, i, p, t) && Predicts(B.g, p, c) && Rest(B.g, p) == []
    ensures Ahead(B, i, c, t)
  {
    assert Open(B);
    ClosureOf(B, i);
    DerivesRefl(B.g, []);
    assert ClosureLinked(B.g, B.fws, i, p, c);
  }

  /** Otherwise it begins with what follows. */
  lemma AheadFirst(B: Build, i: nat, p: Config, c: Config, t: nat)
    requires Mapped(B) && i < |B.states| && p in B.states[i].cfp && Predicts(B.g, p, c)
    requires t < B.g.nterminal && Rest(B.g, p) != [] && Rest(B.g, p)[0] == t
    ensures Ahead(B, i, c, t)
  {
    assert Open(B);
    ClosureOf(B, i);
    var v := Rest(B.g, p);
    assert v == [t] + v[1..];
    DerivesRefl(B.g, v);
    assert Begins(B.g, v, t);
    assert ClosureLinked(B.g, B.fws, i, p, c);
  }

  // ---- auto-reduce states ----

  lemma StatePlan(B: Build, i: nat)
    requires Known(B) && i < |B.states|
    ensures i < |B.aps| && i < |B.mid| && |B.p.isAuto| == |B.p.best| == |B.states|
    ensures Resolved(B.g, B.states, B.fws, i, B.aps[i])
    ensures FirstPass(B.g, B.aps[i], B.mid[i], B.p.isAuto[i], B.p.best[i])
  {
    assert Open(B);
  }

  /** The live action on t is one that the automaton calls for. */
  lemma LiveCandidate(B: Build, i: nat, t: nat)
    requires Known(B) && i < |B.states|
    ensures i < |B.aps|
    ensures var w := Decisions.FindLive(B.aps[i], t);
      && (w.Some? ==>
            IsLive(w.value) && w.value.sp == t && Candidate(B.g, B.states, B.fws, i, t, w.value.ty, w.value.x))
      && (w.None? ==> forall ty, x :: !Candidate(B.g, B.states, B.fws, i, t, ty, x))
  {
    StatePlan(B, i);
    forall ty, x | Candidate(B.g, B.states, B.fws, i, t, ty, x) ensures LiveOn(B.aps[i], t) { }
  }

  /** The one rule that state i can complete is its default. */
  lemma LoneBest(B: Build, i: nat, r: nat, t: nat)
    requires Known(B) && i < |B.states| && r < |B.g.rules| && B.g.rules[r].lhs != B.g.start
    requires Ahead(B, i, Config(r, |B.g.rules[r].rhs|), t) && t < B.g.nterminal && t !in B.states[i].shifts
    requires forall c :: c in B.states[i].cfp && Complete(B.g, c) ==> c.rule == r
    ensures |B.p.best| == |B.states| && B.p.best[i] == r
  {
    StatePlan(B, i);
    var l := B.aps[i];
    assert B.g.nterminal <= B.g.start by { assert Open(B); }
    assert Candidate(B.g, B.states, B.fws, i, t, REDUCE, r);
    assert LiveOn(l, t);
    var a :| a in l && IsLive(a) && a.sp == t;
    assert Candidate(B.g, B.states, B.fws, i, a.sp, a.ty, a.x);
    assert CanDefault(B.g, a) && a.x == r;
    var b :| b in l && CanDefault(B.g, b) && b.x == B.p.best[i];
    assert Candidate(B.g, B.states, B.fws, i, b.sp, b.ty, b.x);
  }

  /** ... and it is an auto-reduce state when no shift is left. */
  lemma LoneAuto(B: Build, i: nat, r: nat)
    requires Known(B) && i < |B.states| && r < |B.g.rules| && |B.p.best| == |B.states| && B.p.best[i] == r
    requires forall c :: c in B.states[i].cfp && Complete(B.g, c) ==> c.rule == r
    requires forall x :: x in B.states[i].shifts ==> exists n :: ReduceWins(B, i, x, n)
    ensures AutoTo(B.p, i)
  {
    StatePlan(B, i);
    var l := B.aps[i];
    forall a | a in l ensures a.ty != SHIFT && (a.ty == REDUCE ==> a.x == r) {
      if IsLive(a) {
        assert Candidate(B.g, B.states, B.fws, i, a.sp, a.ty, a.x);
        if a.ty == SHIFT { assert false; }
      }
    }
    assert Forced(l, r);
  }

  /** On x, the reduction by rule n wins. */
  ghost predicate ReduceWins(B: Build, i: nat, x: nat, n: nat) {
    i < |B.states| && Winner(B.g, B.states, B.fws, i, x, |B.g.rules|) == Some(Action(0, x, REDUCE, n))
  }

  /** A state with a goto is no auto-reduce state. */
  lemma GotoNotAuto(B: Build, i: nat, x: nat)
    requires Known(B) && i < |B.states| && x in B.states[i].shifts && x >= B.g.nterminal
    ensures !AutoTo(B.p, i)
  {
    StatePlan(B, i);
    if AutoTo(B.p, i) {
      AutoNoShift(B, i, x);
      assert false;
    }
  }

  lemma AutoNoShift(B: Build, i: nat, x: nat)
    requires Known(B) && i < |B.states| && AutoTo(B.p, i) && x in B.states[i].shifts
    ensures x < B.g.nterminal
  {
    StatePlan(B, i);
    assert Open(B);
    Decisions.AutoNoGotos(B.g, B.states, B.fws, i, B.aps[i], B.p.best[i]);
  }

  /** A state that can complete only rules of the start symbol is none either. */
  lemma StartNoDefault(B: Build, i: nat)
    requires Known(B) && i < |B.states|
    requires forall c :: c in B.states[i].cfp && Complete(B.g, c) ==> B.g.rules[c.rule].lhs == B.g.start
    ensures |B.p.best| == |B.states| && B.p.best[i] == -1 && !AutoTo(B.p, i) && i < |B.mid| && i < |B.aps|
    ensures B.mid[i] == B.aps[i]
  {
    StatePlan(B, i);
    if B.p.best[i] >= 0 {
      BestInState(B.g, B.states, B.fws, i, B.aps[i], B.p.best[i]);
      assert false;
    }
  }
}
