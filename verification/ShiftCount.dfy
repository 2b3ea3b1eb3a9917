/** A grammar whose parser fails the assertion stateno<=YY_SHIFT_COUNT on a sentence:

      start ::= x.   x ::= x y.   x ::= A.   y ::= B z.   z ::= .

After "A B" the parser is in a state that reduces z by default and has no token actions; it is the last
numbered state, so its offset is not written out. Five more nonterminals are declared and not used; they
make every row narrow enough for the packed table to hold it, whatever the packing. */
module ShiftCount {
  import opened Grammars
  import opened Automata
  import opened Lalr
  import opened StateTables
  import opened Actions
  import opened ActionLists
  import opened Acttab
  import opened Compress
  import opened Compression
  import opened Decisions
  import opened Options
  import opened Codes
  import opened Cells
  import opened Resort
  import opened Filling
  import opened Report
  import opened Simulation
  import opened Generate
  import opened Samples
  import opened Seals
  import M = Machine
  import D = Driver

  const GRAMMAR := Grammar(3, 12,
    [Rule(3, [4], 0, -1, false), Rule(4, [4, 5], 1, -1, false), Rule(4, [1], 2, -1, false),
     Rule(5, [2, 6], 3, -1, false), Rule(6, [], 4, -1, false)],
    3, [], [])

  /** The generator accepts the grammar, and, as no rule is code-free, comes to its end. */
  lemma WitnessAccepted()
    ensures GRAMMAR.Valid() && GRAMMAR.StartIsolated() && SmallEnough(GRAMMAR) && RulesNumbered(GRAMMAR)
    ensures TieFree(GRAMMAR) && UnitAcyclic(GRAMMAR)
  {
    WitnessWellFormed();
    NoUnitsAcyclic(GRAMMAR);
    FewConfigs(GRAMMAR, 3);
    NonassocTies(GRAMMAR);
  }

  lemma WitnessWellFormed()
    ensures GRAMMAR.Valid() && GRAMMAR.StartIsolated() && RulesNumbered(GRAMMAR)
    ensures |GRAMMAR.rules| == 5 && forall r :: 0 <= r < 5 ==> |GRAMMAR.rules[r].rhs| < 3
  {
  }

  // ---- a sentence ----

  lemma OneStep(a: seq<nat>, i: nat, r: nat, b: seq<nat>)
    requires i < |a| && r < |GRAMMAR.rules| && GRAMMAR.rules[r].lhs == a[i]
    requires b == a[..i] + GRAMMAR.rules[r].rhs + a[i + 1..]
    ensures Derives(GRAMMAR, a, b)
  {
    assert StepAt(GRAMMAR, a, b, i, r);
    assert Grammars.Step(GRAMMAR, a, b) && DerivesIn(GRAMMAR, 0, b, b);
    assert DerivesIn(GRAMMAR, 1, a, b);
  }

  lemma WitnessSentence()
    ensures Derives(GRAMMAR, [3], [1, 2])
  {
    OneStep([3], 0, 0, [4]);
    OneStep([4], 0, 1, [4, 5]);
    OneStep([4, 5], 0, 2, [1, 5]);
    OneStep([1, 5], 1, 3, [1, 2, 6]);
    OneStep([1, 2, 6], 2, 4, [1, 2]);
    DerivesTrans(GRAMMAR, [1, 5], [1, 2, 6], [1, 2]);
    DerivesTrans(GRAMMAR, [4, 5], [1, 5], [1, 2]);
    DerivesTrans(GRAMMAR, [4], [4, 5], [1, 2]);
    DerivesTrans(GRAMMAR, [3], [4], [1, 2]);
  }

  // ---- the states ----

  /** A state: its basis, its closure, with $ ahead of every configuration. */
  datatype Kind = Kind(basis: set<Config>, cfp: set<Config>)

  const AT_START := Kind({Config(0, 0)}, {Config(0, 0), Config(1, 0), Config(2, 0)})
  const AFTER_A := Kind({Config(2, 1)}, {Config(2, 1)})
  const AFTER_X := Kind({Config(0, 1), Config(1, 1)}, {Config(0, 1), Config(1, 1), Config(3, 0)})
  const AFTER_Y := Kind({Config(1, 2)}, {Config(1, 2)})
  const AFTER_B := Kind({Config(3, 1)}, {Config(3, 1), Config(4, 0)})
  const AFTER_Z := Kind({Config(3, 2)}, {Config(3, 2)})

  ghost predicate OfKind(B: Build, i: int, k: Kind) {
    match k
    case Kind(basis, cfp) => Looks(B, i, basis, cfp) && forall c :: c in cfp ==> Ahead(B, i, c, 0)
  }

  ghost predicate Sample(B: Build) { Known(B) && B.g == GRAMMAR }

  lemma StartKind(B: Build)
    requires Sample(B)
    ensures OfKind(B, 0, AT_START)
  {
    StartLooks(B, AT_START.basis);
    AheadStart(B, Config(0, 0));
    AheadClose(B, 0, Config(0, 0), Config(1, 0), 0);
    AheadClose(B, 0, Config(0, 0), Config(2, 0), 0);
    LooksLike(B, 0, AT_START.basis, AT_START.cfp);
  }

  /** What the shift over a leads to. */
  lemma Shifted(B: Build, i: nat, k: Kind, a: nat)
    requires Sample(B) && OfKind(B, i, k)
    ensures a in B.states[i].shifts <==> Moved(GRAMMAR, k.cfp, a) != {}
    ensures a in B.states[i].shifts ==>
      var j, basis := B.states[i].shifts[a], Moved(GRAMMAR, k.cfp, a);
      j < |B.states| && Is(B.states[j].basis, basis) && forall c :: c in basis ==> Ahead(B, j, c, 0)
  {
    ShiftIs(B, i, k.basis, k.cfp, a);
    if a in B.states[i].shifts {
      forall c | c in Moved(GRAMMAR, k.cfp, a) ensures Ahead(B, B.states[i].shifts[a], c, 0) {
        var b :| b in k.cfp && AtDot(GRAMMAR, b, a) && c == Advance(b);
        AheadShift(B, i, b, a, 0);
      }
    }
  }

  /** Every configuration of the closure is in the basis, or predicted at the end of a rule that is. */
  ghost predicate Grown(k: Kind) {
    && k.basis <= k.cfp && ClosedUnder(GRAMMAR, k.cfp)
    && forall c :: c in k.cfp && c !in k.basis ==> exists b :: b in k.basis && HandsOn(b, c)
  }

  ghost predicate HandsOn(b: Config, c: Config) {
    Predicts(GRAMMAR, b, c) && Rest(GRAMMAR, b) == []
  }

  lemma GoesTo(B: Build, i: nat, k: Kind, a: nat, k': Kind)
    requires Sample(B) && OfKind(B, i, k) && Moved(GRAMMAR, k.cfp, a) == k'.basis != {} && Grown(k')
    ensures a in B.states[i].shifts && OfKind(B, B.states[i].shifts[a], k')
  {
    Shifted(B, i, k, a);
    var j := B.states[i].shifts[a];
    forall c | c in k'.cfp ensures Ahead(B, j, c, 0) {
      if c !in k'.basis {
        var b :| b in k'.basis && HandsOn(b, c);
        AheadClose(B, j, b, c, 0);
      }
    }
    LooksLike(B, j, k'.basis, k'.cfp);
  }

  lemma AllGrown()
    ensures Grown(AFTER_A) && Grown(AFTER_Y) && Grown(AFTER_Z)
    ensures Grown(AFTER_X) && Grown(AFTER_B)
  {
    assert HandsOn(Config(1, 1), Config(3, 0));
    assert HandsOn(Config(3, 1), Config(4, 0));
  }

  /** What a symbol leads to from each kind of state. */
  function Target(k: Kind, a: nat): set<Config> {
    if k == AT_START && a == 4 then AFTER_X.basis
    else if k == AT_START && a == 1 then AFTER_A.basis
    else if k == AFTER_X && a == 5 then AFTER_Y.basis
    else if k == AFTER_X && a == 2 then AFTER_B.basis
    else if k == AFTER_B && a == 6 then AFTER_Z.basis
    else {}
  }

  const KINDS := {AT_START, AFTER_A, AFTER_X, AFTER_Y, AFTER_B, AFTER_Z}

  lemma MovedStart(a: nat)
    ensures Moved(GRAMMAR, AT_START.cfp, a) == Target(AT_START, a)
  {
    assert AtDot(GRAMMAR, Config(0, 0), 4) && AtDot(GRAMMAR, Config(1, 0), 4) && AtDot(GRAMMAR, Config(2, 0), 1);
  }

  lemma MovedX(a: nat)
    ensures Moved(GRAMMAR, AFTER_X.cfp, a) == Target(AFTER_X, a)
  {
    assert AtDot(GRAMMAR, Config(1, 1), 5) && AtDot(GRAMMAR, Config(3, 0), 2);
  }

  lemma MovedB(a: nat)
    ensures Moved(GRAMMAR, AFTER_B.cfp, a) == Target(AFTER_B, a)
  {
    assert AtDot(GRAMMAR, Config(3, 1), 6);
  }

  lemma MovedOthers(a: nat)
    ensures Moved(GRAMMAR, AFTER_A.cfp, a) == Moved(GRAMMAR, AFTER_Y.cfp, a) == Moved(GRAMMAR, AFTER_Z.cfp, a) == {}
  {
  }

  lemma MovedIs(k: Kind, a: nat)
    requires k in KINDS
    ensures Moved(GRAMMAR, k.cfp, a) == Target(k, a)
  {
    MovedStart(a);
    MovedX(a);
    MovedB(a);
    MovedOthers(a);
  }

  /** The gotos and shifts of each kind of state. */
  lemma ShiftsOf(B: Build, i: nat, k: Kind, a: nat)
    requires Sample(B) && k in KINDS && OfKind(B, i, k)
    ensures a in B.states[i].shifts <==> Target(k, a) != {}
    ensures a in B.states[i].shifts ==>
      var k' := TargetKind(k, a); k' in KINDS && k'.basis == Target(k, a) && OfKind(B, B.states[i].shifts[a], k')
  {
    MovedIs(k, a);
    Shifted(B, i, k, a);
    if a in B.states[i].shifts { TargetGrown(k, a); GoesTo(B, i, k, a, TargetKind(k, a)); }
  }

  lemma TargetGrown(k: Kind, a: nat)
    requires Target(k, a) != {}
    ensures TargetKind(k, a) in KINDS && TargetKind(k, a).basis == Target(k, a) && Grown(TargetKind(k, a))
  {
    AllGrown();
  }

  function TargetKind(k: Kind, a: nat): Kind {
    if k == AT_START then if a == 4 then AFTER_X else AFTER_A
    else if k == AFTER_X then if a == 5 then AFTER_Y else AFTER_B
    else AFTER_Z
  }

  /** State i is reached in n shifts, sealed. */
  ghost predicate ReachedIn(B: Build, n: nat, i: nat) {
    forall q: nat {:trigger Open(q)} :: Open(q) && q == n ==> ReachIn(B.g, B.states, q, i)
  }

  lemma {:induction false} KindsFrom(B: Build, n: nat, i: nat) returns (k: Kind)
    requires Sample(B) && ReachedIn(B, n, i)
    ensures k in KINDS && OfKind(B, i, k)
    decreases n
  {
    if n == 0 {
      assert i == 0 by { assert Open(n); }
      k := StartOf(B);
    } else {
      var j, a := ReachedFrom(B, n, i);
      var k0 := KindsFrom(B, n - 1, j);
      k := KindNext(B, j, k0, a, i);
    }
  }

  lemma StartOf(B: Build) returns (k: Kind)
    requires Sample(B)
    ensures k in KINDS && OfKind(B, 0, k)
  {
    StartKind(B);
    k := AT_START;
  }

  lemma ReachedFrom(B: Build, n: nat, i: nat) returns (j: nat, a: nat)
    requires n > 0 && ReachedIn(B, n, i)
    ensures i < |B.states| && j < |B.states| && ReachedIn(B, n - 1, j)
    ensures KernelFrom(B.g, B.states, j, a, B.states[i].basis)
  {
    assert Open(n);
    j, a :| ReachIn(B.g, B.states, n - 1, j) && KernelFrom(B.g, B.states, j, a, B.states[i].basis);
  }

  lemma KindNext(B: Build, j: nat, k0: Kind, a: nat, i: nat) returns (k: Kind)
    requires Sample(B) && k0 in KINDS && OfKind(B, j, k0) && i < |B.states|
    requires KernelFrom(B.g, B.states, j, a, B.states[i].basis)
    ensures k in KINDS && OfKind(B, i, k)
  {
    KernelIs(B.g, B.states[j].cfp, k0.cfp, a, B.states[i].basis);
    MovedIs(k0, a);
    ShiftThere(B, j, k0, a);
    ShiftsOf(B, j, k0, a);
    k := TargetKind(k0, a);
    SameState(B, i, B.states[j].shifts[a], k.basis);
  }

  lemma ShiftThere(B: Build, j: nat, k: Kind, a: nat)
    requires Sample(B) && OfKind(B, j, k) && HasAtDot(B.g, B.states[j].cfp, a)
    ensures Moved(GRAMMAR, k.cfp, a) != {}
  {
    var c :| c in B.states[j].cfp && AtDot(B.g, c, a);
    assert Advance(c) in Moved(GRAMMAR, k.cfp, a);
  }

  lemma KindOfState(B: Build, i: nat) returns (k: Kind)
    requires Sample(B) && i < |B.states|
    ensures k in KINDS && OfKind(B, i, k)
  {
    assert Reachable(B.g, B.states, i) by { assert Open(B); }
    var n: nat :| ReachIn(B.g, B.states, n, i);
    k := KindsFrom(B, n, i);
  }

  // ---- the first pass ----

  /** After a symbol that completes a rule and nothing else: an auto-reduce state. */
  lemma LoneKind(B: Build, i: nat, k: Kind, r: nat)
    requires Sample(B) && OfKind(B, i, k) && k in {AFTER_A, AFTER_Y, AFTER_Z} && 0 < r < 4
    requires k.cfp == {Config(r, |GRAMMAR.rules[r].rhs|)}
    ensures AutoTo(B.p, i) && B.p.best[i] == r
  {
    forall s ensures s !in B.states[i].shifts { ShiftsOf(B, i, k, s); }
    LoneBest(B, i, r, 0);
    LoneAuto(B, i, r);
  }

  lemma AfterB(B: Build, i: nat)
    requires Sample(B) && OfKind(B, i, AFTER_B)
    ensures !AutoTo(B.p, i) && |B.p.best| == |B.states| && B.p.best[i] == 4
    ensures forall a :: a in B.states[i].shifts <==> a == 6
  {
    forall a ensures a in B.states[i].shifts <==> a == 6 { ShiftsOf(B, i, AFTER_B, a); }
    LoneBest(B, i, 4, 0);
    GotoNotAuto(B, i, 6);
  }

  lemma AfterX(B: Build, i: nat)
    requires Sample(B) && OfKind(B, i, AFTER_X)
    ensures !AutoTo(B.p, i) && 2 in B.states[i].shifts && 5 in B.states[i].shifts
    ensures OfKind(B, B.states[i].shifts[2], AFTER_B)
  {
    ShiftsOf(B, i, AFTER_X, 2);
    ShiftsOf(B, i, AFTER_X, 5);
    GotoNotAuto(B, i, 5);
  }

  lemma AtStart(B: Build)
    requires Sample(B)
    ensures |B.states| > 0 && !AutoTo(B.p, 0) && 1 in B.states[0].shifts && 4 in B.states[0].shifts
    ensures OfKind(B, B.states[0].shifts[1], AFTER_A) && OfKind(B, B.states[0].shifts[4], AFTER_X)
  {
    StartKind(B);
    ShiftsOf(B, 0, AT_START, 1);
    ShiftsOf(B, 0, AT_START, 4);
    GotoNotAuto(B, 0, 4);
  }

  // ---- the numbers of the states ----

  ghost predicate Made(R: Result) { Generated(R) && Sample(R.B) }

  lemma NowMade(A: Analysis, R: Result)
    requires Generated(R) && R.B.g == GRAMMAR && Analyzed(GRAMMAR, A, R.B.states, R.B.fws)
    ensures Made(R)
  {
    assert Open(R) && Open(R.B);
    NowKnown(R.B);
  }

  /** What stands in the compressed lists. */
  lemma OutSound(R: Result, i: nat, k: nat)
    requires Generated(R) && i < |R.B.out| && k < |R.B.out[i]| && Coded(R.B.out[i][k])
    ensures |R.B.out| == |R.B.states| == |R.B.p.best| == |R.B.aps| == |R.B.mid| && ChainOk(R.B.g, R.B.p, R.B.states[i])
    ensures CellSound(R.B.g, R.B.states[i], R.B.p, CellOf(R.B, i), R.B.out[i][k])
  {
    assert Open(R) && Open(R.B);
    CellReady(R.B, i);
    CodedSound(R.B.g, R.B.states, R.B.fws, R.B.p, CellOf(R.B, i), R.B.out[i], k);
  }

  lemma OutSize(R: Result)
    requires Generated(R)
    ensures |R.B.out| == |R.B.states| == |R.infos| == |R.num| == |R.order|
  {
    assert Open(R) && Open(R.B);
  }

  lemma OutOnce(R: Result, i: nat, j: nat, k: nat)
    requires Generated(R) && i < |R.B.out| && j < k < |R.B.out[i]| && Coded(R.B.out[i][j]) && Coded(R.B.out[i][k])
    ensures R.B.out[i][j].sp != R.B.out[i][k].sp
  {
    assert Open(R) && Open(R.B);
    ListReady(R.B, i);
  }

  lemma InfoIs(R: Result, i: nat)
    requires Generated(R) && i < |R.B.out|
    ensures i < |R.infos| && R.infos[i].nTknAct == |Select(R.B.g, R.B.out[i], true)|
    ensures R.infos[i].nNtAct == |Select(R.B.g, R.B.out[i], false)|
  {
    assert Open(R);
    assert ListRefers(R.B.g, |R.B.out|, R.B.out[i]);
  }

  /** In the state after B every token means the default. */
  lemma DecideB(R: Result, i: nat, t: nat)
    requires Made(R) && OfKind(R.B, i, AFTER_B) && t < 3
    ensures i < |R.B.aps| && Decide(R.B.aps[i], 4, t) == M.Reduce(4)
  {
    AfterB(R.B, i);
    LiveCandidate(R.B, i, t);
  }

  lemma NotStart(B: Build, i: nat, k: Kind)
    requires Sample(B) && OfKind(B, i, k) && Config(0, 0) !in k.basis
    ensures i != 0
  {
    StartKind(B);
  }

  lemma CountsB(R: Result, i: nat)
    requires Made(R) && OfKind(R.B, i, AFTER_B)
    ensures i < |R.B.out| && Select(GRAMMAR, R.B.out[i], true) == [] && |Select(GRAMMAR, R.B.out[i], false)| <= 1
  {
    OutSize(R);
    AfterB(R.B, i);
    NotStart(R.B, i, AFTER_B);
    var l := R.B.out[i];
    forall k | 0 <= k < |l| && Coded(l[k]) ensures l[k].sp == 6 || l[k].sp >= 12 {
      OutSound(R, i, k);
      if l[k].sp < 3 { DecideB(R, i, l[k].sp); }
    }
    SelectNone(GRAMMAR, l, true);
    forall j, k | 0 <= j < k < |l| && Coded(l[j]) && Coded(l[k]) ensures l[j].sp != l[k].sp { OutOnce(R, i, j, k); }
    SelectOne(GRAMMAR, l, 6);
  }

  lemma SelectNone(g: Grammar, l: seq<Action>, tkn: bool)
    requires forall k :: 0 <= k < |l| ==> !(Coded(l[k]) && InRange(g, l[k].sp, tkn))
    ensures Select(g, l, tkn) == []
  {
    if Select(g, l, tkn) != [] { assert Select(g, l, tkn)[0] in Select(g, l, tkn); }
  }

  lemma {:induction false} SelectOne(g: Grammar, l: seq<Action>, s: nat)
    requires forall k :: 0 <= k < |l| && Coded(l[k]) && InRange(g, l[k].sp, false) ==> l[k].sp == s
    requires forall j, k :: 0 <= j < k < |l| && Coded(l[j]) && Coded(l[k]) ==> l[j].sp != l[k].sp
    ensures |Select(g, l, false)| <= 1
  {
    if l != [] {
      var n := |l| - 1;
      if Coded(l[n]) && InRange(g, l[n].sp, false) {
        SelectNone(g, l[..n], false);
      } else {
        SelectOne(g, l[..n], s);
      }
    }
  }

  lemma CountsX(R: Result, i: nat)
    requires Made(R) && OfKind(R.B, i, AFTER_X)
    ensures i < |R.B.out| && Select(GRAMMAR, R.B.out[i], true) != [] && Select(GRAMMAR, R.B.out[i], false) != []
  {
    AfterX(R.B, i);
    OutSize(R);
    HasGoto(R, i, 5);
    ShiftX(R.B, i);
    HasShift(R, i, 2);
    var k :| 0 <= k < |R.B.out[i]| && Coded(R.B.out[i][k]) && R.B.out[i][k].sp == 5;
    var m :| 0 <= m < |R.B.out[i]| && Coded(R.B.out[i][m]) && R.B.out[i][m].sp == 2;
    assert R.B.out[i][k] in Select(GRAMMAR, R.B.out[i], false) && R.B.out[i][m] in Select(GRAMMAR, R.B.out[i], true);
  }

  lemma HasShift(R: Result, i: nat, t: nat)
    requires Generated(R) && i < |R.B.aps| == |R.B.p.best| == |R.B.states| && t < R.B.g.nterminal
    requires Decide(R.B.aps[i], R.B.p.best[i], t).Shift?
    ensures i < |R.B.out| && CodedOn(R.B.out[i], t)
  {
    assert Open(R) && Open(R.B);
    CellReady(R.B, i);
    if !CodedOn(R.B.out[i], t) {
      TokenKept(R.B.g, R.B.states, R.B.fws, R.B.p, CellOf(R.B, i), R.B.out[i], t);
    }
  }

  lemma HasGoto(R: Result, i: nat, x: nat)
    requires Generated(R) && i < |R.B.states| && x in R.B.states[i].shifts && x >= R.B.g.nterminal
    ensures i < |R.B.out| && CodedOn(R.B.out[i], x)
  {
    assert Open(R) && Open(R.B);
    CellReady(R.B, i);
    GotoKept(R.B.g, R.B.states, R.B.fws, R.B.p, CellOf(R.B, i), R.B.out[i], x);
  }

  /** No precedences, so a shift is never resolved away. */
  lemma DecideShift(B: Build, i: nat, t: nat)
    requires Sample(B) && i < |B.states| && t < 3 && t in B.states[i].shifts
    requires forall r: nat :: !Candidate(GRAMMAR, B.states, B.fws, i, t, REDUCE, r)
    ensures i < |B.aps| && |B.p.best| == |B.states|
    ensures Decide(B.aps[i], B.p.best[i], t) == M.Shift(B.states[i].shifts[t])
  {
    StatePlan(B, i);
    LiveCandidate(B, i, t);
    assert Candidate(GRAMMAR, B.states, B.fws, i, t, SHIFT, B.states[i].shifts[t]);
  }

  lemma ShiftX(B: Build, i: nat)
    requires Sample(B) && OfKind(B, i, AFTER_X)
    ensures 2 in B.states[i].shifts && i < |B.aps| == |B.p.best| == |B.states|
    ensures Decide(B.aps[i], B.p.best[i], 2) == M.Shift(B.states[i].shifts[2])
  {
    AfterX(B, i);
    StatePlan(B, i);
    assert |B.aps| == |B.states| && StartAtEnd(B.g, B.fws) by { assert Open(B); }
    forall r: nat ensures !Candidate(GRAMMAR, B.states, B.fws, i, 2, REDUCE, r) { NoReduceX(B, i, r); }
    DecideShift(B, i, 2);
  }

  lemma NoReduceX(B: Build, i: nat, r: nat)
    requires B.g == GRAMMAR && OfKind(B, i, AFTER_X) && StartAtEnd(B.g, B.fws)
    ensures !Candidate(GRAMMAR, B.states, B.fws, i, 2, REDUCE, r)
  {
    if r < |GRAMMAR.rules| { assert Config(r, |GRAMMAR.rules[r].rhs|) in AFTER_X.cfp ==> r == 0; }
  }

  lemma ShiftA(B: Build)
    requires Sample(B)
    ensures |B.states| > 0 && 1 in B.states[0].shifts && 0 < |B.aps| == |B.p.best| == |B.states|
    ensures Decide(B.aps[0], B.p.best[0], 1) == M.Shift(B.states[0].shifts[1])
  {
    AtStart(B);
    StartKind(B);
    StatePlan(B, 0);
    assert |B.aps| == |B.states| by { assert Open(B); }
    forall r: nat ensures !Candidate(GRAMMAR, B.states, B.fws, 0, 1, REDUCE, r) {
      if r < |GRAMMAR.rules| { assert Config(r, |GRAMMAR.rules[r].rhs|) !in AT_START.cfp; }
    }
    DecideShift(B, 0, 1);
  }

  // ---- the last numbered state ----

  /** The last numbered state is the one after B. */
  lemma LastIsB(R: Result)
    requires Made(R)
    ensures 1 < R.nxstate <= |R.order| && OfKind(R.B, R.order[R.nxstate - 1], AFTER_B) && !LastHasTokens(R)
  {
    var b := SomeB(R.B);
    var last := LastState(R, b);
    var k := KindOfState(R.B, last);
    LastKind(R.B, last, k);
    if k == AFTER_X {
      LastNotX(R, b, last);
      assert false;
    }
    CountsB(R, last);
    OutSize(R);
    InfoIs(R, last);
  }

  lemma SomeB(B: Build) returns (b: nat)
    requires Sample(B)
    ensures OfKind(B, b, AFTER_B) && !AutoTo(B.p, b) && b != 0
  {
    AtStart(B);
    var x := B.states[0].shifts[4];
    AfterX(B, x);
    b := B.states[x].shifts[2];
    AfterB(B, b);
    NotStart(B, b, AFTER_B);
  }

  /** Only two kinds of states other than state 0 are no auto-reduce states. */
  lemma LastKind(B: Build, i: nat, k: Kind)
    requires Sample(B) && k in KINDS && OfKind(B, i, k) && i != 0 && !AutoTo(B.p, i)
    ensures k == AFTER_X || k == AFTER_B
  {
    if k == AFTER_A { LoneKind(B, i, k, 2); }
    if k == AFTER_Y { LoneKind(B, i, k, 1); }
    if k == AFTER_Z { LoneKind(B, i, k, 3); }
    if k == AT_START { SameAsStart(B, i); }
  }

  /** The state after x comes before the one after B: as many gotos, but more tokens. */
  lemma LastNotX(R: Result, b: nat, last: nat)
    requires Made(R) && OfKind(R.B, b, AFTER_B) && !AutoTo(R.B.p, b) && b != 0
    requires OfKind(R.B, last, AFTER_X)
    ensures 0 < R.nxstate <= |R.order| && R.order[R.nxstate - 1] != last
  {
    OutSize(R);
    CountsB(R, b);
    CountsX(R, last);
    InfoIs(R, b);
    InfoIs(R, last);
    LastCompares(R, b);
  }

  lemma SameAsStart(B: Build, i: nat)
    requires Sample(B) && OfKind(B, i, AT_START)
    ensures i == 0
  {
    StartKind(B);
    SameState(B, i, 0, AT_START.basis);
  }

  /** Behind a state that is no auto-reduce state comes no start. */
  lemma LastState(R: Result, b: nat) returns (last: nat)
    requires Made(R) && b < |R.B.states| && b != 0 && !AutoTo(R.B.p, b)
    ensures 1 < R.nxstate <= |R.order| == |R.infos| && last == R.order[R.nxstate - 1] < |R.B.states|
    ensures last != 0 && !AutoTo(R.B.p, last)
  {
    TargetNumbered(R, b);
    OutSize(R);
    assert Renumbered(|R.order|, R.order, R.num) && Trimmed(R.B.p, R.order, R.nxstate) && |R.infos| == |R.order|
      by { assert Open(R); }
    last := R.order[R.nxstate - 1];
    LastTrimmed(R.B.p, R.order, R.num, R.nxstate, b);
  }

  lemma LastTrimmed(p: Plan, order: seq<nat>, num: seq<nat>, nxstate: nat, b: nat)
    requires Renumbered(|order|, order, num) && Trimmed(p, order, nxstate) && 0 < b < |order| && num[b] < nxstate
    ensures nxstate > 1 && order[nxstate - 1] != 0 && !p.isAuto[order[nxstate - 1]]
  {
    assert order[num[b]] == b;
  }

  lemma LastCompares(R: Result, b: nat)
    requires Made(R) && b < |R.B.states| && b != 0 && !AutoTo(R.B.p, b)
    ensures 0 < R.nxstate <= |R.order|
    ensures (b == R.order[R.nxstate - 1] || ResortCmp(R.infos, b, R.order[R.nxstate - 1]) < 0)
  {
    TargetNumbered(R, b);
    OutSize(R);
    assert Renumbered(|R.order|, R.order, R.num) && InOrder(R.infos, R.order)
      && Trimmed(R.B.p, R.order, R.nxstate) by { assert Open(R); }
    OrderedBefore(R.infos, R.order, R.num, R.nxstate, b);
  }

  lemma OrderedBefore(infos: seq<Info>, order: seq<nat>, num: seq<nat>, nxstate: nat, b: nat)
    requires Renumbered(|order|, order, num) && InOrder(infos, order) && 0 < b < |num| && num[b] < nxstate <= |order|
    ensures b == order[nxstate - 1] || ResortCmp(infos, b, order[nxstate - 1]) < 0
  {
    assert order[num[b]] == b;
  }

  // ---- the crash ----

  /** All rows are narrow, so every search in the packed table ends in a break. */
  lemma AllNarrow(R: Result)
    requires Made(R)
    ensures AllFound(R.steps)
  {
    var L := LayoutOf(R);
    assert LayoutOk(L) && Packing(L, R.steps) by { assert Open(R); }
    forall j, tkn | 0 <= j < |L.out| ensures Narrow(L, j, tkn) {
      forall k | 0 <= k < |Filling.Row(L, j, tkn)| ensures Filling.Row(L, j, tkn)[k].lookahead <= 6 {
        var q := RowFrom(L.g, L.num, L.Code(), L.out[j], tkn, k);
        SymbolsSmall(R, j, q);
      }
      SmallNarrow(L, j, tkn);
    }
    NarrowFound(L, R.steps);
  }

  lemma SmallNarrow(L: Layout, j: nat, tkn: bool)
    requires LayoutOk(L) && j < |L.out| && L.g.nsymbol == 12
    requires forall k :: 0 <= k < |Filling.Row(L, j, tkn)| ==> Filling.Row(L, j, tkn)[k].lookahead <= 6
    ensures Narrow(L, j, tkn)
  {
  }

  lemma SymbolsSmall(R: Result, i: nat, k: nat)
    requires Made(R) && i < |R.B.out| && k < |R.B.out[i]| && Coded(R.B.out[i][k])
    ensures R.B.out[i][k].sp <= 6 || R.B.out[i][k].sp >= 12
  {
    OutSound(R, i, k);
    var a := R.B.out[i][k].sp;
    if 3 < a < 12 {
      var kind := KindOfState(R.B, i);
      ShiftsOf(R.B, i, kind, a);
    }
  }

  /** What the driver finds on the way to the crash: x and b are the numbers of the states after x and after B. */
  ghost predicate Lookups(T: D.Tables, x: nat, b: nat) {
    && |T.ruleLhs| == |T.ruleNRhs| == 5 && T.ruleLhs[2] == 4 && T.ruleNRhs[2] == 1 && 0 < T.nxstate <= T.nstate
    && x < T.nxstate && b < T.nxstate
    && D.FindShiftAction(T, 1, 0) == D.Found(T.MinShiftReduce() + 2) && D.FindReduceAction(T, 0, 4) == D.Found(x)
    && D.FindShiftAction(T, 2, x) == D.Found(b) && D.FindShiftAction(T, 0, b) == D.AssertFails
  }

  lemma WitnessRun(T: D.Tables, x: nat, b: nat)
    requires Lookups(T, x, b)
    ensures D.After(T, 100, D.Start([1, 2, 0]), 4).status == D.Crashed
  {
    var k0 := D.Start([1, 2, 0]);
    var k1 := D.Next(T, 100, k0);
    assert k1.s.stack == [D.Entry(0, 0), D.Entry(T.MinReduce() + 2, 1)] && k1.input == [2, 0] && k1.status == D.Going;
    var k2 := D.Next(T, 100, k1);
    assert k1.s.stack[..1] == [D.Entry(0, 0)];
    assert k2.s.stack == [D.Entry(0, 0), D.Entry(x, 4)] && k2.input == [2, 0] && k2.status == D.Going;
    var k3 := D.Next(T, 100, k2);
    assert k3.s.stack == [D.Entry(0, 0), D.Entry(x, 4), D.Entry(b, 2)] && k3.input == [0];
    var k4 := D.Next(T, 100, k3);
    assert D.After(T, 100, k4, 0) == k4;
    assert D.After(T, 100, k3, 1) == k4;
    assert D.After(T, 100, k2, 2) == k4;
    assert D.After(T, 100, k1, 3) == k4;
  }

  /** A token that is shifted is found. */
  lemma FindsShift(R: Result, i: nat, t: nat)
    requires Made(R) && Served(R) && i < |R.B.states| == |R.B.aps| == |R.B.p.best| && !AutoTo(R.B.p, i) && t < 3
    requires t in R.B.states[i].shifts && Decide(R.B.aps[i], R.B.p.best[i], t) == M.Shift(R.B.states[i].shifts[t])
    ensures i < |R.num|
    ensures D.FindShiftAction(R.T, t, R.num[i]) == D.Found(ActCode(CtxOf(R), M.Shift(R.B.states[i].shifts[t])))
  {
    HasShift(R, i, t);
    var q :| 0 <= q < |R.B.out[i]| && Coded(R.B.out[i][q]) && R.B.out[i][q].sp == t;
    TokenHere(R, i, t, q);
  }

  lemma FindsA(R: Result)
    requires Made(R) && Served(R)
    ensures D.FindShiftAction(R.T, 1, 0) == D.Found(R.T.MinShiftReduce() + 2)
  {
    AtStart(R.B);
    ShiftA(R.B);
    LoneKind(R.B, R.B.states[0].shifts[1], AFTER_A, 2);
    FindsShift(R, 0, 1);
    assert R.num[0] == 0 by { assert Open(R); }
  }

  lemma FindsX(R: Result)
    requires Made(R) && Served(R)
    ensures |R.B.states| > 0 && 4 in R.B.states[0].shifts && OfKind(R.B, R.B.states[0].shifts[4], AFTER_X)
    ensures R.B.states[0].shifts[4] < |R.num|
    ensures D.FindReduceAction(R.T, 0, 4) == D.Found(R.num[R.B.states[0].shifts[4]])
  {
    AtStart(R.B);
    var x := R.B.states[0].shifts[4];
    AfterX(R.B, x);
    MachineReady(R);
    NumbersReady(R);
    GotoReady(R, 0, 4);
    assert EndSym(R.B.g, R.B.p, R.B.states[0], 4) == 4;
  }

  lemma FindsB(R: Result)
    requires Made(R) && Served(R)
    ensures |R.B.states| > 0 && 4 in R.B.states[0].shifts && R.B.states[0].shifts[4] < |R.num|
    ensures R.num[R.B.states[0].shifts[4]] < R.nxstate && R.nxstate > 0
    ensures D.FindShiftAction(R.T, 2, R.num[R.B.states[0].shifts[4]]) == D.Found(R.nxstate - 1)
  {
    AtStart(R.B);
    var x := R.B.states[0].shifts[4];
    AfterX(R.B, x);
    ShiftX(R.B, x);
    FindsShift(R, x, 2);
    var b := R.B.states[x].shifts[2];
    AfterB(R.B, b);
    LastIsB(R);
    OutSize(R);
    SameState(R.B, b, R.order[R.nxstate - 1], AFTER_B.basis);
    TargetNumbered(R, x);
    assert R.num[b] == R.nxstate - 1 by { assert Open(R); }
  }

  lemma FailsAfterB(R: Result)
    requires Made(R) && Served(R)
    ensures R.nxstate > 0 && D.FindShiftAction(R.T, 0, R.nxstate - 1) == D.AssertFails
  {
    LastIsB(R);
    CountsB(R, R.order[R.nxstate - 1]);
    assert Open(R);
    LastFails(LayoutOf(R), R.infos, R.order, R.nxstate, R.K, R.T, 0);
  }

  /** Whatever the generator makes of the grammar, its last numbered state has no token actions, and its parser
      crashes on the sentence A B. */
  lemma WitnessCrash(A: Analysis, R: Result)
    requires Generated(R) && R.B.g == GRAMMAR && Analyzed(GRAMMAR, A, R.B.states, R.B.fws)
    ensures Derives(GRAMMAR, [3], [1, 2])
    ensures AllFound(R.steps) && !LastHasTokens(R)
    ensures D.After(R.T, 100, D.Start([1, 2, 0]), 4).status == D.Crashed
  {
    WitnessSentence();
    NowMade(A, R);
    LastIsB(R);
    AllNarrow(R);
    NowServed(R);
    var x := FindsAll(R);
    WitnessRun(R.T, x, R.nxstate - 1);
  }

  lemma FindsAll(R: Result) returns (x: nat)
    requires Made(R) && Served(R)
    ensures R.nxstate > 0 && Lookups(R.T, x, R.nxstate - 1)
  {
    FindsA(R);
    FindsX(R);
    FindsB(R);
    FailsAfterB(R);
    RuleA(R);
    x := R.num[R.B.states[0].shifts[4]];
  }

  lemma RuleA(R: Result)
    requires Made(R)
    ensures var T := R.T;
      |T.ruleLhs| == |T.ruleNRhs| == 5 && T.ruleLhs[2] == 4 && T.ruleNRhs[2] == 1 && 0 < T.nxstate <= T.nstate
    ensures R.T.nxstate == R.nxstate
  {
    GeneratedHeader(R);
    assert GRAMMAR.rules[2].iRule == 2;
    assert Open(R);
  }
}
