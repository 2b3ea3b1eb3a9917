/** The whole generator: from a grammar to the tables of its parser, and what that parser then does. */
module Generate {
  import opened Grammars
  import opened Automata
  import opened Lalr
  import opened MergeSort
  import opened ConfigLists
  import opened StateTables
  import opened Actions
  import opened ActionLists
  import opened Compress
  import opened Compression
  import opened Decisions
  import opened Codes
  import opened Cells
  import opened Resort
  import opened Filling
  import opened Report
  import opened Simulation
  import opened ParserRuns
  import opened Termination
  import opened Seals
  import opened Lookaheads
  import FollowSets
  import M = Machine
  import D = Driver

  /** Everything up to and including compression. */
  datatype Build = Build(g: Grammar, states: seq<State>, fws: map<Node, set<nat>>,
                         aps: seq<seq<Action>>, mid: seq<seq<Action>>,
                         p: Plan, out: seq<seq<Action>>)

  /** The automaton, the resolved actions, and the first pass over them. */
  ghost predicate PlanOk(B: Build) {
    && B.g.Valid() && B.g.StartIsolated() && StatesOk(B.g, B.states) && IsAutomaton(B.g, B.states)
    && StartAtEnd(B.g, B.fws)
    && Planned(B.g, B.states, B.fws, B.aps, B.mid, B.p)
  }

  /** ... and the other passes. */
  ghost predicate BuildOk(B: Build) {
    PlanOk(B) && |B.out| == |B.states| && SqueezedUpTo(B.g, B.p, B.states, B.mid, B.out, |B.states|)
  }

  /** BuildOk, sealed. */
  ghost predicate Built(B: Build) {
    forall q {:trigger Open(q)} :: Open(q) && q == B ==> BuildOk(q)
  }

  function CellOf(B: Build, i: nat): Cell
    requires i < |B.aps| && i < |B.mid|
  {
    Cell(i, B.aps[i], B.mid[i])
  }

  lemma PlanBests(B: Build)
    requires BuildOk(B)
    ensures BestsOk(B.g, B.p)
  {
    forall i | 0 <= i < |B.p.best| ensures B.p.best[i] < |B.g.rules| {
      assert FirstPass(B.g, B.aps[i], B.mid[i], B.p.isAuto[i], B.p.best[i]);
      if B.p.best[i] >= 0 { BestInState(B.g, B.states, B.fws, i, B.aps[i], B.p.best[i]); }
    }
  }

  lemma CellReady(B: Build, i: nat)
    requires BuildOk(B) && i < |B.states|
    ensures Squeezable(B.g, B.states, B.fws, B.p, CellOf(B, i), B.out[i])
  {
    PlanBests(B);
  }

  lemma ListReady(B: Build, i: nat)
    requires BuildOk(B) && i < |B.states|
    ensures ListRefers(B.g, |B.out|, B.out[i]) && CodedDistinct(B.out[i])
  {
    CellReady(B, i);
    var l := B.out[i];
    forall a | a in l ensures Refers(B.g, |B.out|, a) {
      var k :| 0 <= k < |l| && l[k] == a;
      if Coded(a) { CodedSound(B.g, B.states, B.fws, B.p, CellOf(B, i), l, k); }
    }
    forall k, m | 0 <= k < m < |l| && Coded(l[k]) && Coded(l[m]) ensures l[k].sp != l[m].sp {
      CodedOnce(B.g, B.states, B.fws, B.p, CellOf(B, i), l, k, m);
    }
  }

  lemma ListsReady(B: Build)
    requires BuildOk(B)
    ensures ListsRefer(B.g, B.out)
    ensures forall num: seq<nat> :: |num| == |B.out| ==> LayoutOk(Layout(B.g, num, B.out))
  {
    forall i | 0 <= i < |B.out| ensures ListRefers(B.g, |B.out|, B.out[i]) && CodedDistinct(B.out[i]) {
      ListReady(B, i);
    }
  }

  // ---- the default of a state ----

  lemma {:induction false} DefaultCodeFrom(g: Grammar, num: seq<nat>, l: seq<Action>) returns (i: int)
    requires ListRefers(g, |num|, l)
    ensures i == -1
      || (0 <= i < |l| && l[i] in l && Coded(l[i]) && l[i].sp >= g.nsymbol
          && DefaultCode(g, num, l) == ComputeAction(g, num, UNSET, l[i]))
    ensures i == -1 ==> DefaultCode(g, num, l) == -1 && forall k ::
      0 <= k < |l| ==> !(Coded(l[k]) && l[k].sp >= g.nsymbol)
  {
    if l == [] {
      i := -1;
    } else {
      var n := |l| - 1;
      assert l == l[..n] + [l[n]];
      if Coded(l[n]) && l[n].sp >= g.nsymbol {
        i := n;
      } else {
        i := DefaultCodeFrom(g, num, l[..n]);
      }
    }
  }

  /** The only coded action on {default} is the reduction by the best rule, if there is one. */
  ghost predicate DefaultActs(g: Grammar, l: seq<Action>, best: int) {
    && (CodedOn(l, g.nsymbol) <==> best >= 0)
    && (forall k :: 0 <= k < |l| && Coded(l[k]) && l[k].sp >= g.nsymbol ==> best >= 0 && IsReduce(l[k], best))
  }

  lemma DefaultOnly(B: Build, i: nat)
    requires BuildOk(B) && i < |B.states|
    ensures DefaultActs(B.g, B.out[i], B.p.best[i])
  {
    CellReady(B, i);
    var l := B.out[i];
    DefaultKept(B.g, B.states, B.fws, B.p, CellOf(B, i), l);
    forall k | 0 <= k < |l| && Coded(l[k]) && l[k].sp >= B.g.nsymbol
      ensures B.p.best[i] >= 0 && IsReduce(l[k], B.p.best[i])
    {
      CodedSound(B.g, B.states, B.fws, B.p, CellOf(B, i), l, k);
    }
  }

  lemma DefaultValue(g: Grammar, num: seq<nat>, l: seq<Action>, best: int)
    requires ListRefers(g, |num|, l) && DefaultActs(g, l, best)
    ensures DefaultCode(g, num, l) == if best >= 0 then IRule(g, best) else -1
  {
    var k := DefaultCodeFrom(g, num, l);
  }

  // ---- the tables answer as the decisions say ----

  /** The build, its resorted states, the insertions into the packed table, and the tables written out. */
  datatype Result = Result(B: Build, infos: seq<Info>, order: seq<nat>, num: seq<nat>, nxstate: nat,
                           steps: seq<Step>, K: Packed, T: D.Tables)

  function LayoutOf(R: Result): Layout { Layout(R.B.g, R.num, R.B.out) }

  ghost predicate ResultOk(R: Result) {
    && BuildOk(R.B) && |R.infos| == |R.B.out| && R.B.out != []
    && (forall j :: 0 <= j < |R.B.out| ==>
          ListRefers(R.B.g, |R.B.out|, R.B.out[j]) && R.infos[j] == InfoOf(R.B.g, Ids(0, |R.B.out|), R.B.out[j]))
    && Renumbered(|R.B.out|, R.order, R.num) && Trimmed(R.B.p, R.order, R.nxstate)
    && LayoutOk(LayoutOf(R)) && Emitted(LayoutOf(R), R.infos, R.order, R.nxstate, R.K, R.T)
    && Serves(LayoutOf(R), R.order, R.nxstate, R.K)
  }

  /** ResultOk, sealed. */
  ghost predicate Served(R: Result) {
    forall q {:trigger Open(q)} :: Open(q) && q == R ==> ResultOk(q)
  }

  /** The last state that has a row number has token actions. */
  ghost predicate LastHasTokens(R: Result) {
    0 < R.nxstate <= |R.order| && R.order[R.nxstate - 1] < |R.infos| && R.infos[R.order[R.nxstate - 1]].nTknAct > 0
  }

  /** All rows can be read, and no offset is left out. */
  ghost predicate Finished(R: Result) { Served(R) && LastHasTokens(R) }

  function CtxOf(R: Result): Ctx {
    Ctx(R.B.g, R.B.states, Dec(R.B.aps, R.B.p), R.B.p, R.num, R.T)
  }

  lemma MachineReady(R: Result)
    requires Served(R)
    ensures MachineOk(CtxOf(R))
  {
    assert Open(R);
    var B := R.B;
    DecAllowed(B.g, B.states, B.fws, B.aps, B.mid, B.p);
    forall j | 0 <= j < |B.states| && AutoTo(B.p, j) ensures Automatic(B.g, B.states, Dec(B.aps, B.p), j, B.p.best[j]) {
      AutoStates(B.g, B.states, B.fws, B.aps, B.mid, B.p, j);
    }
  }

  lemma NotAutoNumber(R: Result, j: nat)
    requires Served(R) && j < |R.B.states| && !AutoTo(R.B.p, j)
    ensures |R.num| == |R.B.states| && |R.order| == |R.B.states| && R.num[j] < R.nxstate <= |R.order|
    ensures R.order[R.num[j]] == j
  {
    assert Open(R);
    assert FirstPass(R.B.g, R.B.aps[j], R.B.mid[j], R.B.p.isAuto[j], R.B.p.best[j]);
    KeptNumber(R.B.p, R.order, R.num, R.nxstate, j);
  }

  lemma NumbersReady(R: Result)
    requires Served(R)
    ensures NumbersOk(CtxOf(R))
  {
    forall j | 0 <= j < |R.B.states| && !AutoTo(R.B.p, j) ensures |R.num| == |R.B.states| && R.num[j] < R.nxstate {
      NotAutoNumber(R, j);
    }
    assert Open(R);
  }

  lemma DefaultFound(R: Result, i: nat)
    requires Served(R) && i < |R.B.states| && !AutoTo(R.B.p, i)
    ensures |R.num| == |R.B.states| && R.num[i] < |R.T.yyDefault| && i < |R.B.p.best|
    ensures R.T.yyDefault[R.num[i]] == if R.B.p.best[i] >= 0 then R.T.MinReduce() + IRule(R.B.g, R.B.p.best[i])
      else R.T.ErrorAction()
  {
    NotAutoNumber(R, i);
    DefaultInfo(R, i);
    DefaultEntry(R, R.num[i]);
  }

  lemma DefaultInfo(R: Result, i: nat)
    requires Served(R) && i < |R.B.states|
    ensures i < |R.infos| && i < |R.B.p.best|
    ensures R.infos[i].iDfltReduce == if R.B.p.best[i] >= 0 then IRule(R.B.g, R.B.p.best[i]) else -1
  {
    assert Open(R);
    DefaultOnly(R.B, i);
    DefaultValue(R.B.g, Ids(0, |R.B.out|), R.B.out[i], R.B.p.best[i]);
  }

  lemma DefaultEntry(R: Result, n: nat)
    requires Served(R) && n < R.nxstate
    ensures n < |R.T.yyDefault| && n < |R.order| && R.order[n] < |R.infos| && R.infos[R.order[n]].iDfltReduce >= -1
    ensures var d := R.infos[R.order[n]].iDfltReduce; R.T.yyDefault[n] == if d < 0 then R.T.ErrorAction()
      else d + R.T.MinReduce()
  {
    assert Open(R);
  }

  /** The code of an action that means a decision is the code of the decision. */
  lemma MeansCode(x: Ctx, L: Layout, a: Action, d: M.Act)
    requires Means(x.p, a, d) && a.sp < x.g.nterminal && L.g == x.g && L.num == x.num && Refers(x.g, |x.num|, a)
    requires Coded(a)
    requires x.T.nstate == |x.num| && |x.T.ruleLhs| == |x.g.rules|
    ensures ComputeAction(L.g, L.num, L.Code(), a) == ActCode(x, d)
  {
  }

  lemma TokenHere(R: Result, i: nat, t: nat, q: nat)
    requires Served(R) && i < |R.B.states| && !AutoTo(R.B.p, i) && t < R.B.g.nterminal
    requires i < |R.B.out| && q < |R.B.out[i]| && Coded(R.B.out[i][q]) && R.B.out[i][q].sp == t
    ensures |R.num| == |R.B.states|
    ensures D.FindShiftAction(R.T, t, R.num[i]) == D.Found(ActCode(CtxOf(R), Dec(R.B.aps, R.B.p)(i, t)))
  {
    NotAutoNumber(R, i);
    assert Open(R);
    var L, l := LayoutOf(R), R.B.out[i];
    CellReady(R.B, i);
    CodedSound(R.B.g, R.B.states, R.B.fws, R.B.p, CellOf(R.B, i), l, q);
    MeansCode(CtxOf(R), L, l[q], Dec(R.B.aps, R.B.p)(i, t));
    var k := RowHas(L.g, L.num, L.Code(), l, true, q);
    TokenHit(L, R.infos, R.order, R.nxstate, R.K, R.T, R.num[i], k);
  }

  lemma TokenNotHere(R: Result, i: nat, t: nat)
    requires Finished(R) && i < |R.B.states| && !AutoTo(R.B.p, i) && t < R.B.g.nterminal
    requires i < |R.B.out| && !CodedOn(R.B.out[i], t)
    ensures |R.num| == |R.B.states|
    ensures D.FindShiftAction(R.T, t, R.num[i]) == D.Found(ActCode(CtxOf(R), Dec(R.B.aps, R.B.p)(i, t)))
  {
    MissFound(R, i, t);
    DefaultFound(R, i);
    MissDecides(R, i, t);
  }

  lemma MissFound(R: Result, i: nat, t: nat)
    requires Finished(R) && i < |R.B.states| && !AutoTo(R.B.p, i) && t < R.B.g.nterminal
    requires i < |R.B.out| && !CodedOn(R.B.out[i], t)
    ensures i < |R.num| && R.num[i] < |R.T.yyDefault|
    ensures D.FindShiftAction(R.T, t, R.num[i]) == D.Found(R.T.yyDefault[R.num[i]])
  {
    NotAutoNumber(R, i);
    ShiftTableFull(R);
    assert Open(R);
    RowMisses(LayoutOf(R), R.B.out[i], t);
    TokenMiss(LayoutOf(R), R.infos, R.order, R.nxstate, R.K, R.T, R.num[i], t);
  }

  lemma MissDecides(R: Result, i: nat, t: nat)
    requires Served(R) && i < |R.B.states| && t < R.B.g.nterminal && i < |R.B.out| && !CodedOn(R.B.out[i], t)
    ensures i < |R.B.p.best| && Dec(R.B.aps, R.B.p)(i, t) == if R.B.p.best[i] >= 0 then M.Reduce(R.B.p.best[i])
      else M.Fail
  {
    assert Open(R);
    CellReady(R.B, i);
    TokenKept(R.B.g, R.B.states, R.B.fws, R.B.p, CellOf(R.B, i), R.B.out[i], t);
  }

  lemma RowMisses(L: Layout, l: seq<Action>, t: nat)
    requires ListRefers(L.g, |L.num|, l) && !CodedOn(l, t)
    ensures var row := RowOf(L.g, L.num, L.Code(), l, true); forall k :: 0 <= k < |row| ==> row[k].lookahead != t
  {
    var row := RowOf(L.g, L.num, L.Code(), l, true);
    forall k | 0 <= k < |row| ensures row[k].lookahead != t {
      var q := RowFrom(L.g, L.num, L.Code(), l, true, k);
    }
  }

  /** The last state has a token row, so no offset is left out. */
  lemma ShiftTableFull(R: Result)
    requires Finished(R)
    ensures |R.T.yyShiftOfst| == R.nxstate
  {
    assert Open(R);
    var L, last := LayoutOf(R), R.order[R.nxstate - 1];
    RowSize(L.g, L.num, L.Code(), L.out[last], true);
    assert (last, true) in R.K.ofst;
  }

  /** A coded action on a nonterminal is found. */
  lemma NonterminalFound(R: Result, i: nat, q: nat)
    requires Served(R) && i < |R.B.states| && !AutoTo(R.B.p, i) && i < |R.B.out| && q < |R.B.out[i]|
    requires Coded(R.B.out[i][q]) && R.B.g.nterminal <= R.B.out[i][q].sp < R.B.g.nsymbol
    ensures i < |R.num| && Refers(R.B.g, |R.num|, R.B.out[i][q])
    ensures D.FindReduceAction(R.T, R.num[i], R.B.out[i][q].sp) ==
      D.Found(ComputeAction(R.B.g, R.num, LayoutOf(R).Code(), R.B.out[i][q]))
  {
    NotAutoNumber(R, i);
    assert Open(R);
    var L, l := LayoutOf(R), R.B.out[i];
    var k := RowHas(L.g, L.num, L.Code(), l, false, q);
    GotoHit(L, R.infos, R.order, R.nxstate, R.K, R.T, R.num[i], k);
  }

  /** What the compressed list holds for a goto. */
  lemma GotoAction(R: Result, i: nat, a: nat) returns (q: nat)
    requires Served(R) && MachineOk(CtxOf(R)) && i < |R.B.states| && a in R.B.states[i].shifts && a >= R.B.g.nterminal
    ensures i < |R.B.out| && q < |R.B.out[i]| && Coded(R.B.out[i][q]) && R.B.out[i][q].sp == a < R.B.g.nsymbol
    ensures (R.B.out[i][q].ty, R.B.out[i][q].x) ==
      ShiftAct(R.B.p, R.B.states[i], EndSym(R.B.g, R.B.p, R.B.states[i], a))
  {
    assert Open(R);
    CellReady(R.B, i);
    var l := R.B.out[i];
    GotoKept(R.B.g, R.B.states, R.B.fws, R.B.p, CellOf(R.B, i), l, a);
    q :| 0 <= q < |l| && Coded(l[q]) && l[q].sp == a;
    CodedSound(R.B.g, R.B.states, R.B.fws, R.B.p, CellOf(R.B, i), l, q);
  }

  /** The code of a converted shift over a nonterminal is what the stack holds for its target. */
  lemma GotoCode(x: Ctx, L: Layout, a: Action, st: State, e: nat)
    requires e in st.shifts && (a.ty, a.x) == ShiftAct(x.p, st, e) && a.sp >= x.g.nterminal
    requires L.g == x.g && L.num == x.num && Refers(x.g, |x.num|, a) && x.T.nstate == |x.num|
    requires |x.T.ruleLhs| == |x.g.rules|
    ensures ComputeAction(L.g, L.num, L.Code(), a) == StackCode(x, st.shifts[e])
  {
  }

  lemma GotoReady(R: Result, i: nat, a: nat)
    requires Served(R) && MachineOk(CtxOf(R)) && NumbersOk(CtxOf(R))
    requires i < |R.B.states| && !AutoTo(R.B.p, i) && a in R.B.states[i].shifts && a >= R.B.g.nterminal
    ensures GotoFound(CtxOf(R), i, a)
  {
    var q := GotoAction(R, i, a);
    NonterminalFound(R, i, q);
    GotoCode(CtxOf(R), LayoutOf(R), R.B.out[i][q], R.B.states[i], EndSym(R.B.g, R.B.p, R.B.states[i], a));
  }

  lemma AcceptAct(R: Result) returns (q: nat)
    requires Served(R)
    ensures 0 < |R.B.out| == |R.B.states| && q < |R.B.out[0]| && R.B.out[0][q].ty == ACCEPT
    ensures R.B.g.nterminal <= R.B.out[0][q].sp == R.B.g.start < R.B.g.nsymbol
  {
    assert Open(R);
    var l := R.B.out[0];
    CellReady(R.B, 0);
    AcceptKept(R.B.g, R.B.states, R.B.fws, R.B.p, CellOf(R.B, 0), l);
    q :| 0 <= q < |l| && Coded(l[q]) && l[q].sp == R.B.g.start;
    CodedSound(R.B.g, R.B.states, R.B.fws, R.B.p, CellOf(R.B, 0), l, q);
    if R.B.g.start in R.B.states[0].shifts {
      ShiftSymbol(R.B.g, R.B.states, 0, R.B.g.start);
      assert false;
    }
  }

  lemma AcceptReady(R: Result)
    requires Served(R) && MachineOk(CtxOf(R)) && NumbersOk(CtxOf(R))
    ensures D.FindReduceAction(R.T, 0, R.B.g.start) == D.Found(R.T.AcceptAction())
  {
    StartNotAuto(CtxOf(R));
    var q := AcceptAct(R);
    NonterminalFound(R, 0, q);
  }

  /** The generated tables make the driver simulate the machine. */
  lemma TablesReady(R: Result)
    requires Finished(R)
    ensures Ready(CtxOf(R))
  {
    var x := CtxOf(R);
    MachineReady(R);
    NumbersReady(R);
    AcceptReady(R);
    forall i, a | 0 <= i < |x.states| && !AutoTo(x.p, i) && a in x.states[i].shifts && a >= x.g.nterminal
      ensures GotoFound(x, i, a)
    {
      GotoReady(R, i, a);
    }
    forall i, t: nat | 0 <= i < |x.states| && !AutoTo(x.p, i) && t < x.g.nterminal
      ensures D.FindShiftAction(x.T, t, x.num[i]) == D.Found(ActCode(x, x.dec(i, t)))
    {
      TokenReady(R, i, t);
    }
  }

  lemma TokenReady(R: Result, i: nat, t: nat)
    requires Finished(R) && i < |R.B.states| && !AutoTo(R.B.p, i) && t < R.B.g.nterminal
    ensures |R.num| == |R.B.states|
    ensures D.FindShiftAction(R.T, t, R.num[i]) == D.Found(ActCode(CtxOf(R), Dec(R.B.aps, R.B.p)(i, t)))
  {
    assert |R.B.out| == |R.B.states| by { assert Open(R); }
    if CodedOn(R.B.out[i], t) {
      var q :| 0 <= q < |R.B.out[i]| && Coded(R.B.out[i][q]) && R.B.out[i][q].sp == t;
      TokenHere(R, i, t, q);
    } else {
      TokenNotHere(R, i, t);
    }
  }

  // ---- from the grammar to the parser ----

  /** The parser is safe and sound on every token sequence. */
  ghost predicate SoundParser(g: Grammar, T: D.Tables) {
    forall w, depth: nat, n: nat :: M.AllTerminal(g, w) ==> SoundRun(g, w, D.After(T, depth, D.Start(w), n))
  }

  /** The parser accepts exactly the sentences of the grammar. */
  ghost predicate ExactParser(g: Grammar, T: D.Tables) {
    forall w :: M.AllTerminal(g, w) ==> (Accepts(T, w) <==> Derives(g, [g.start], w))
  }

  lemma ResultSound(R: Result)
    requires Finished(R)
    ensures SoundParser(R.B.g, R.T)
  {
    TablesReady(R);
    forall w, depth: nat, n: nat | M.AllTerminal(R.B.g, w)
      ensures SoundRun(R.B.g, w, D.After(R.T, depth, D.Start(w), n))
    {
      DriverSound(CtxOf(R), depth, w, n);
    }
  }

  /** From any point of any run, the parser is done with the token at hand after finitely many iterations. */
  ghost predicate EndingParser(g: Grammar, T: D.Tables) {
    forall w, depth: nat, n: nat :: M.AllTerminal(g, w) ==> EndsHere(T, depth, D.After(T, depth, D.Start(w), n))
  }

  ghost predicate EndsHere(T: D.Tables, depth: nat, k: D.Run) {
    k.status == D.Going && k.input != [] ==> Finishes(T, depth, k.s, k.input[0])
  }

  lemma ResultEnding(R: Result)
    requires Finished(R) && FollowClosed(R.B.g, R.B.states, R.B.fws) && ConflictFree(R.B.g, R.B.states, R.B.fws)
    requires Generating(R.B.g)
    ensures EndingParser(R.B.g, R.T)
  {
    TablesReady(R);
    ParserPrepared(R);
    forall w, depth: nat, n: nat | M.AllTerminal(R.B.g, w)
      ensures EndsHere(R.T, depth, D.After(R.T, depth, D.Start(w), n))
    {
      DriverEnds(CtxOf(R), R.B.fws, depth, w, n);
    }
  }

  lemma ResultExact(R: Result)
    requires Finished(R) && FollowClosed(R.B.g, R.B.states, R.B.fws) && ConflictFree(R.B.g, R.B.states, R.B.fws)
    ensures ExactParser(R.B.g, R.T)
  {
    TablesReady(R);
    var x := CtxOf(R);
    ParserPrepared(R);
    forall w | M.AllTerminal(R.B.g, w) ensures Accepts(R.T, w) <==> Derives(R.B.g, [R.B.g.start], w) {
      DriverExact(x, R.B.fws, w);
    }
  }

  lemma ParserPrepared(R: Result)
    requires Served(R) && FollowClosed(R.B.g, R.B.states, R.B.fws) && ConflictFree(R.B.g, R.B.states, R.B.fws)
    ensures M.Prepared(M.Parser(R.B.g, R.B.states, R.B.fws, Dec(R.B.aps, R.B.p)))
  {
    assert Open(R);
    DecFaithful(R.B.g, R.B.states, R.B.fws, R.B.aps, R.B.mid, R.B.p);
  }

  /** No terminal was declared %nonassoc. */
  ghost predicate NoNonassoc(g: Grammar) {
    forall s: nat :: s < g.nterminal && Prec(g, s) >= 0 ==> AssocOf(g, s) == LEFT || AssocOf(g, s) == RIGHT
  }

  /** FindFirstSets, FindStates and FindLinks: nullability and FIRST sets, the states, and the propagation
      links. */
  datatype Analysis = Analysis(f: Firsts, tab: Table, links: FollowSets.Links)

  /** The states are those of the automaton, and fws is the least family of lookahead sets that contains the
      initial ones and is closed under the links. */
  ghost predicate Analyzed(g: Grammar, A: Analysis, states: seq<State>, fws: map<Node, set<nat>>) {
    && A.f.g == g && A.f.Exact() && TableOk(A.f, A.tab) && A.tab.states == states && IsAutomaton(g, states)
    && LinksFinal(A.f, states, A.links) && FollowSets.Propagated(A.links, A.tab.fws, fws)
    && FollowClosed(g, states, fws)
  }

  /** No shift loses to a reduction in a tie, whatever the analysis finds. */
  ghost predicate TieFree(g: Grammar) {
    forall A, states, fws, i, s: nat :: Analyzed(g, A, states, fws) && 0 <= i < |states| ==>
      !TieFought(g, states, fws, i, s)
  }

  /** In particular without %nonassoc. */
  lemma NonassocTies(g: Grammar)
    requires NoNonassoc(g)
    ensures TieFree(g)
  {
    forall A, states, fws, i, s: nat | Analyzed(g, A, states, fws) && 0 <= i < |states|
      ensures !TieFought(g, states, fws, i, s)
    {
      assert NoTies(g, states, fws, i);
      NoTieFought(g, states, fws, i, s);
    }
  }

  lemma TiesFree(g: Grammar, A: Analysis, states: seq<State>, fws: map<Node, set<nat>>)
    requires TieFree(g) && Analyzed(g, A, states, fws)
    ensures forall i, s: nat :: 0 <= i < |states| ==> !TieFought(g, states, fws, i, s)
  {
  }

  /** How the third pass of the compression ended. */
  ghost predicate EndedAs(B: Build, fuel: nat, o: Outcome) {
    && |B.mid| == |B.states|
    && (o.Done? ==> NoCycles(B.g, B.p, B.states))
    && (o.AssertionFails? ==> !NoCycles(B.g, B.p, B.states))
    && (fuel >= B.g.nsymbol ==>
          o == VerdictAll(B.g, B.p, B.states, B.mid, 0) && (o.Done? <==> NoCycles(B.g, B.p, B.states)))
  }

  /** There is no code-free unit rule. */
  ghost predicate NoUnits(g: Grammar) {
    forall r: nat :: !IsUnit(g, r)
  }

  lemma NoUnitsAcyclic(g: Grammar)
    requires NoUnits(g)
    ensures UnitAcyclic(g)
  {
    forall x: nat, n: nat | n > 0 ensures !UnitPath(g, x, n, x) { }
  }

  /** FindActions and CompressTables. */
  method BuildActions(g: Grammar, states: seq<State>, fws: map<Node, set<nat>>, fuel: nat)
    returns (o: Outcome, out: seq<seq<Action>>, p: Plan, ghost B: Build)
    requires g.Valid() && g.StartIsolated() && SmallEnough(g)
    requires StatesOk(g, states) && IsAutomaton(g, states) && FollowClosed(g, states, fws) && StartAtEnd(g, fws)
    requires forall i :: 0 <= i < |states| ==> Distinct(states[i].cfp)
    requires forall i, s: nat :: 0 <= i < |states| ==> !TieFought(g, states, fws, i, s)
    ensures B.g == g && B.states == states && B.fws == fws && B.out == out && B.p == p && PlanOk(B)
    ensures EndedAs(B, fuel, o)
    ensures o.Done? ==> Built(B) && |out| == |states|
    ensures |p.isAuto| == |p.best| == |states|
  {
    forall i | 0 <= i < |states| ensures !Overrun(g, states, fws, i) { NoTieNoOverrun(g, states, fws, i); }
    var ok, aps, nconflict := FindActions(g, states, fws);
    forall i | 0 <= i < |states| ensures Resolved(g, states, fws, i, aps[i]) {
      ResolvedCleanly(g, states, fws, i, aps[i]);
    }
    var mid;
    o, out, p, mid := CompressTables(g, states, fws, aps, fuel);
    B := Build(g, states, fws, aps, mid, p, out);
    assert o.Done? ==> BuildOk(B);
  }

  /** What the phases produced, one from the other: the compressed lists, the counts and order of the states,
      the packed table and the tables written out. */
  ghost predicate PhasesOk(R: Result) {
    && Built(R.B) && |R.infos| == |R.B.out| && ListsRefer(R.B.g, R.B.out)
    && (forall j :: 0 <= j < |R.B.out| ==> R.infos[j] == InfoOf(R.B.g, Ids(0, |R.B.out|), R.B.out[j]))
    && Renumbered(|R.B.out|, R.order, R.num) && InOrder(R.infos, R.order) && Trimmed(R.B.p, R.order, R.nxstate)
    && LayoutOk(LayoutOf(R)) && PackedBy(LayoutOf(R), R.order, R.nxstate, R.steps, R.K)
    && Emitted(LayoutOf(R), R.infos, R.order, R.nxstate, R.K, R.T)
  }

  /** PhasesOk, sealed. */
  ghost predicate Generated(R: Result) {
    forall q {:trigger Open(q)} :: Open(q) && q == R ==> PhasesOk(q)
  }

  /** What can go wrong: a search in the packed table that ends without a break where something is visible, or a
      last numbered state without token actions. */
  ghost predicate Usable(R: Result) {
    AllFound(R.steps) && LastHasTokens(R)
  }

  /** ResortStates and ReportTable. */
  method BuildTables(g: Grammar, out: seq<seq<Action>>, p: Plan, ghost B: Build) returns (T: D.Tables, ghost R: Result)
    requires Built(B) && B.g == g && B.out == out && B.p == p && RulesNumbered(g)
    ensures R.B == B && R.T == T && Generated(R) && T.nterminal == g.nterminal
    ensures |T.ruleLhs| == |T.ruleNRhs| == |g.rules|
  {
    BuiltReady(B);
    var infos, order, num, nxstate := ResortStates(g, out, p);
    var L := Layout(g, num, out);
    BuiltLayout(B, num);
    DefaultsKnown(B, infos);
    var K;
    ghost var steps;
    T, K, steps := ReportTable(L, infos, order, nxstate);
    R := Result(B, infos, order, num, nxstate, steps, K, T);
    assert PhasesOk(R);
  }

  lemma BuiltReady(B: Build)
    requires Built(B)
    ensures ListsRefer(B.g, B.out) && B.out != [] && |B.p.isAuto| == |B.out| && B.g.nterminal <= B.g.nsymbol
  {
    assert Open(B);
    ListsReady(B);
  }

  lemma BuiltLayout(B: Build, num: seq<nat>)
    requires Built(B) && |num| == |B.out|
    ensures LayoutOk(Layout(B.g, num, B.out))
  {
    assert Open(B);
    ListsReady(B);
  }

  lemma DefaultsKnown(B: Build, infos: seq<Info>)
    requires Built(B) && ListsRefer(B.g, B.out)
    requires |infos| == |B.out| && forall j :: 0 <= j < |B.out| ==> infos[j] == InfoOf(B.g, Ids(0, |B.out|), B.out[j])
    ensures forall j :: 0 <= j < |B.out| ==> infos[j].iDfltReduce >= -1
  {
    assert Open(B);
    forall j | 0 <= j < |B.out| ensures infos[j].iDfltReduce >= -1 {
      DefaultOnly(B, j);
      assert ListRefers(B.g, |B.out|, B.out[j]);
      DefaultValue(B.g, Ids(0, |B.out|), B.out[j], B.p.best[j]);
    }
  }

  lemma NowServed(R: Result)
    requires Generated(R) && AllFound(R.steps)
    ensures Served(R)
  {
    assert Open(R) && Open(R.B);
    PackedServes(LayoutOf(R), R.order, R.nxstate, R.steps, R.K);
    assert ResultOk(R);
  }

  // ---- codes ----

  /** Every SHIFT that is left leads to a state with a row number. */
  lemma ShiftsNumbered(R: Result, i: nat, k: nat)
    requires Generated(R) && i < |R.B.out| && k < |R.B.out[i]| && R.B.out[i][k].ty == SHIFT
    ensures R.B.out[i][k].x < |R.num| && R.num[R.B.out[i][k].x] < R.nxstate
  {
    ShiftTarget(R, i, k);
    TargetNumbered(R, R.B.out[i][k].x);
  }

  lemma ShiftTarget(R: Result, i: nat, k: nat)
    requires Generated(R) && i < |R.B.out| && k < |R.B.out[i]| && R.B.out[i][k].ty == SHIFT
    ensures R.B.out[i][k].x < |R.B.states| && !AutoTo(R.B.p, R.B.out[i][k].x)
  {
    assert Open(R) && Open(R.B);
    CellReady(R.B, i);
    ShiftLeft(R.B.g, R.B.states, R.B.fws, R.B.p, CellOf(R.B, i), R.B.out[i], k);
  }

  lemma TargetNumbered(R: Result, j: nat)
    requires Generated(R) && j < |R.B.states| && !AutoTo(R.B.p, j)
    ensures j < |R.num| && R.num[j] < R.nxstate
  {
    assert Open(R) && Open(R.B);
    assert FirstPass(R.B.g, R.B.aps[j], R.B.mid[j], R.B.p.isAuto[j], R.B.p.best[j]);
    KeptNumber(R.B.p, R.order, R.num, R.nxstate, j);
  }

  /** All action codes that the tables can hold are read back as they were meant. */
  lemma CodesReadBack(R: Result, i: nat, k: nat, i': nat, k': nat)
    requires Generated(R) && i < |R.B.out| && i' < |R.B.out| && k < |R.B.out[i]| && k' < |R.B.out[i']|
    requires Coded(R.B.out[i][k]) && Coded(R.B.out[i'][k'])
    ensures ReadBack(R.B.g, R.num, R.nxstate, R.B.out[i][k], R.B.out[i'][k'])
  {
    if R.B.out[i][k].ty == SHIFT { ShiftsNumbered(R, i, k); }
    if R.B.out[i'][k'].ty == SHIFT { ShiftsNumbered(R, i', k'); }
    CodesRefer(R, i, k);
    CodesRefer(R, i', k');
    CodesRoundTrip(R.B.g, R.num, R.nxstate, R.B.out[i][k], R.B.out[i'][k']);
  }

  lemma CodesRefer(R: Result, i: nat, k: nat)
    requires Generated(R) && i < |R.B.out| && k < |R.B.out[i]|
    ensures Refers(R.B.g, |R.num|, R.B.out[i][k]) && R.nxstate <= |R.num|
    ensures forall r :: 0 <= r < |R.B.g.rules| ==> R.B.g.rules[r].iRule < |R.B.g.rules|
  {
    assert Open(R);
    assert ListRefers(R.B.g, |R.B.out|, R.B.out[i]);
  }

  /** The rule tables, and the numbers that the driver reads. */
  ghost predicate Header(g: Grammar, T: D.Tables) {
    && T.nterminal == g.nterminal && 0 < T.nxstate <= T.nstate && |T.yyDefault| == T.nxstate
    && |T.ruleLhs| == |T.ruleNRhs| == |g.rules|
    && (forall r :: 0 <= r < |g.rules| ==>
          g.rules[r].iRule < |g.rules| && T.ruleLhs[g.rules[r].iRule] == g.rules[r].lhs
          && T.ruleNRhs[g.rules[r].iRule] == |g.rules[r].rhs|)
  }

  lemma GeneratedHeader(R: Result)
    requires Generated(R)
    ensures Header(R.B.g, R.T)
  {
    assert Open(R);
  }

  /** The generator from end to end, for a grammar that the reader accepted and in which no shift loses in a tie.
      It comes to its end exactly when no state has a cycle of code-free unit rules between auto-reduce states, in
      particular when the code-free unit rules of the grammar form no cycle.
      When every search in the packed table found a clear place and the last numbered state has token actions,
      the generated parser is safe and sound on every token sequence, and exact when no (state, token) pair had
      two candidate actions; then it also is done with every token, when every nonterminal derives some word. */
  method GenerateParser(g: Grammar, fuel: nat)
    returns (o: Outcome, T: D.Tables, ghost A: Analysis, ghost B: Build, ghost R: Result)
    requires g.Valid() && g.StartIsolated() && SmallEnough(g) && RulesNumbered(g) && TieFree(g)
    ensures B.g == g && Analyzed(g, A, B.states, B.fws) && PlanOk(B) && EndedAs(B, fuel, o)
    ensures o.Done? ==> R.B == B && R.T == T && Generated(R) && Header(g, T)
    ensures fuel >= g.nsymbol && UnitAcyclic(g) ==> o.Done?
    ensures o.Done? && Usable(R) ==> SoundParser(g, T)
    ensures o.Done? && Usable(R) && ConflictFree(g, B.states, B.fws) ==> ExactParser(g, T)
    ensures o.Done? && Usable(R) && ConflictFree(g, B.states, B.fws) && Generating(g) ==> EndingParser(g, T)
  {
    ConfigsFit(g);
    var tab, fws, links, f := BuildLookaheads(g);
    var states := tab.states;
    A := Analysis(f, tab, links);
    TableStates(f, tab);
    TiesFree(g, A, states, fws);
    var out, p;
    o, out, p, B := BuildActions(g, states, fws, fuel);
    if UnitAcyclic(g) { AcyclicNoCycles(g, states, fws, B.aps, B.mid, B.p); }
    if o.Done? {
      T, R := BuildTables(g, out, p, B);
      GeneratedHeader(R);
      if Usable(R) { ResultUsable(R); }
    } else {
      T := D.Tables(g.nterminal, 0, 0, [], [], [], [], [], [], []);
      R := Result(B, [], [], [], 0, [], Packed([], 0, 0, map[], 0), T);
    }
  }

  lemma ResultUsable(R: Result)
    requires Generated(R) && Usable(R) && FollowClosed(R.B.g, R.B.states, R.B.fws)
    ensures SoundParser(R.B.g, R.T)
    ensures ConflictFree(R.B.g, R.B.states, R.B.fws) ==> ExactParser(R.B.g, R.T)
    ensures ConflictFree(R.B.g, R.B.states, R.B.fws) && Generating(R.B.g) ==> EndingParser(R.B.g, R.T)
  {
    NowServed(R);
    ResultSound(R);
    if ConflictFree(R.B.g, R.B.states, R.B.fws) {
      ResultExact(R);
      if Generating(R.B.g) { ResultEnding(R); }
    }
  }

  lemma ConfigsFit(g: Grammar)
    requires g.Valid() && SmallEnough(g)
    ensures |AllConfigs(g)| < Pow2(LISTSIZE)
  {
    AtLeast(|AllConfigs(g)|, g.nterminal);
  }

  lemma AtLeast(a: nat, b: nat)
    requires b > 0
    ensures a * b >= a
  {
  }

  lemma TableStates(f: Firsts, T: Table)
    requires TableOk(f, T)
    ensures StatesOk(f.g, T.states) && forall i :: 0 <= i < |T.states| ==> Distinct(T.states[i].cfp)
  {
  }
}
