/** Compression preserves the meaning of every cell: what the compressed list of a state holds, in
terms of the decisions made before compression. */
module Cells {
  import opened Grammars
  import opened Automata
  import opened Lalr
  import opened StateTables
  import opened Actions
  import opened ActionLists
  import opened Compress
  import opened Compression
  import opened Decisions
  import opened Codes
  import M = Machine

  /** One state: its number, its action list before compression, and its list after the first pass. */
  datatype Cell = Cell(j: nat, l: seq<Action>, m: seq<Action>)

  ghost predicate Squeezable(g: Grammar, states: seq<State>, fws: map<Node, set<nat>>, p: Plan, k: Cell,
          n: seq<Action>) {
    && g.Valid() && g.StartIsolated() && IsAutomaton(g, states)
    && k.j < |states| == |p.isAuto| == |p.best| && Resolved(g, states, fws, k.j, k.l)
    && FirstPass(g, k.l, k.m, p.isAuto[k.j], p.best[k.j])
    && ChainOk(g, p, states[k.j]) && SqueezedList(g, p, states[k.j], k.m, n)
    && BestsOk(g, p)
  }

  ghost predicate BestsOk(g: Grammar, p: Plan) {
    forall i :: 0 <= i < |p.best| ==> p.best[i] < |g.rules|
  }

  /** The converted form of a decision about a terminal. */
  predicate Means(p: Plan, a: Action, d: M.Act) {
    match d
    case Shift(j) => if AutoTo(p, j) then a.ty == SHIFTREDUCE && a.x == p.best[j] else a.ty == SHIFT && a.x == j
    case Reduce(r) => a.ty == REDUCE && a.x == r
    case Fail => false
  }

  /** What a coded action of the compressed list can be. */
  ghost predicate CellSound(g: Grammar, st: State, p: Plan, k: Cell, a: Action)
    requires ChainOk(g, p, st) && k.j < |p.best|
  {
    if a.sp < g.nterminal then
      Means(p, a, Decide(k.l, p.best[k.j], a.sp)) && !(p.best[k.j] >= 0 && IsReduce(a, p.best[k.j]))
    else if a.sp == g.nsymbol then p.best[k.j] >= 0 && IsReduce(a, p.best[k.j])
    else if a.sp in st.shifts then (a.ty, a.x) == ShiftAct(p, st, EndSym(g, p, st, a.sp))
    else k.j == 0 && a.sp == g.start && a.ty == ACCEPT
  }

  lemma CodedSound(g: Grammar, states: seq<State>, fws: map<Node, set<nat>>, p: Plan, k: Cell, n: seq<Action>, i: nat)
    requires Squeezable(g, states, fws, p, k, n) && i < |n| && Coded(n[i])
    ensures CellSound(g, states[k.j], p, k, n[i])
    ensures Refers(g, |states|, n[i])
  {
    var b := k.m[i];
    assert b in k.m;
    MidElements(g, states, fws, k.j, k.l, k.m, p.isAuto[k.j], p.best[k.j], b);
    assert n[i] == Squeezed(g, p, states[k.j], b);
    if b in k.l && !(p.best[k.j] >= 0 && IsReduce(b, p.best[k.j])) {
      if b.sp < g.nterminal {
        TokenSound(g, states, fws, p, k, b);
      } else {
        NonterminalSound(g, states, fws, p, k, b);
      }
    } else {
      DefaultSound(g, states, fws, p, k, b);
    }
  }

  /** A SHIFT that is left does not lead to an auto-reduce state. */
  lemma ShiftLeft(g: Grammar, states: seq<State>, fws: map<Node, set<nat>>, p: Plan, k: Cell, n: seq<Action>, i: nat)
    requires Squeezable(g, states, fws, p, k, n) && i < |n| && n[i].ty == SHIFT
    ensures n[i].x < |states| && !AutoTo(p, n[i].x)
  {
    CodedSound(g, states, fws, p, k, n, i);
    SoundShift(g, states[k.j], p, k, n[i]);
  }

  lemma SoundShift(g: Grammar, st: State, p: Plan, k: Cell, a: Action)
    requires ChainOk(g, p, st) && k.j < |p.best| && CellSound(g, st, p, k, a) && a.ty == SHIFT
    ensures !AutoTo(p, a.x)
  {
  }

  lemma TokenSound(g: Grammar, states: seq<State>, fws: map<Node, set<nat>>, p: Plan, k: Cell, b: Action)
    requires g.Valid() && g.StartIsolated() && IsAutomaton(g, states)
    requires k.j < |states| == |p.isAuto| == |p.best| && Resolved(g, states, fws, k.j, k.l)
    requires ChainOk(g, p, states[k.j])
    requires BestsOk(g, p)
    requires b in k.l && !(p.best[k.j] >= 0 && IsReduce(b, p.best[k.j])) && b.sp < g.nterminal
    ensures var a := Squeezed(g, p, states[k.j], b);
      Coded(a) ==> CellSound(g, states[k.j], p, k, a) && Refers(g, |states|, a)
  {
    var a := Squeezed(g, p, states[k.j], b);
    assert a == Converted(p, b);
    if Coded(a) {
      assert IsLive(b);
      assert Candidate(g, states, fws, k.j, b.sp, b.ty, b.x);
      FindLiveIs(g, k.l, b);
      if b.ty == SHIFT { ShiftSymbol(g, states, k.j, b.sp); }
    }
  }

  lemma NonterminalSound(g: Grammar, states: seq<State>, fws: map<Node, set<nat>>, p: Plan, k: Cell, b: Action)
    requires g.Valid() && g.StartIsolated() && IsAutomaton(g, states)
    requires k.j < |states| == |p.isAuto| == |p.best| && Resolved(g, states, fws, k.j, k.l)
    requires ChainOk(g, p, states[k.j])
    requires BestsOk(g, p) && b in k.l && b.sp >= g.nterminal
    ensures var a := Squeezed(g, p, states[k.j], b);
      Coded(a) ==> CellSound(g, states[k.j], p, k, a) && Refers(g, |states|, a)
  {
    NonterminalAction(g, states, fws, k.j, k.l, b);
    if b.sp in states[k.j].shifts {
      ShiftSymbol(g, states, k.j, EndSym(g, p, states[k.j], b.sp));
    }
  }

  lemma DefaultSound(g: Grammar, states: seq<State>, fws: map<Node, set<nat>>, p: Plan, k: Cell, b: Action)
    requires g.Valid() && k.j < |states| == |p.isAuto| == |p.best| && ChainOk(g, p, states[k.j]) && BestsOk(g, p)
    requires p.best[k.j] >= 0
    requires ((b.ty == NOT_USED && b.sp < g.nterminal) || (IsReduce(b, p.best[k.j]) && b.sp == g.nsymbol))
    ensures var a := Squeezed(g, p, states[k.j], b);
      Coded(a) ==> CellSound(g, states[k.j], p, k, a) && Refers(g, |states|, a)
  {
  }

  // ---- nothing is lost ----

  /** Some coded action of the list is on symbol s. */
  ghost predicate CodedOn(n: seq<Action>, s: nat) {
    exists i :: 0 <= i < |n| && Coded(n[i]) && n[i].sp == s
  }

  /** The action that list element b became is there. */
  lemma Survives(g: Grammar, states: seq<State>, fws: map<Node, set<nat>>, p: Plan, k: Cell, n: seq<Action>, b: Action)
    requires Squeezable(g, states, fws, p, k, n) && b in k.m && Coded(b)
    ensures CodedOn(n, b.sp)
  {
    var i :| 0 <= i < |k.m| && k.m[i] == b;
    SqueezedCoded(g, p, states[k.j], b);
    assert n[i] == Squeezed(g, p, states[k.j], b);
  }

  lemma SqueezedCoded(g: Grammar, p: Plan, st: State, b: Action)
    requires ChainOk(g, p, st) && Coded(b)
    ensures Coded(Squeezed(g, p, st, b)) && Squeezed(g, p, st, b).sp == b.sp
  {
  }

  /** A terminal whose decision is not the default reduction keeps its entry. */
  lemma TokenKept(g: Grammar, states: seq<State>, fws: map<Node, set<nat>>, p: Plan, k: Cell, n: seq<Action>, t: nat)
    requires Squeezable(g, states, fws, p, k, n) && t < g.nterminal && !CodedOn(n, t)
    ensures Decide(k.l, p.best[k.j], t) == if p.best[k.j] >= 0 then M.Reduce(p.best[k.j]) else M.Fail
  {
    var best := p.best[k.j];
    match FindLive(k.l, t) {
      case None =>
      case Some(a) =>
        if best >= 0 && IsReduce(a, best) {
        } else {
          MidKeeps(g, k.l, k.m, p.isAuto[k.j], best, a);
          Survives(g, states, fws, p, k, n, a);
          assert false;
        }
    }
  }

  lemma GotoKept(g: Grammar, states: seq<State>, fws: map<Node, set<nat>>, p: Plan, k: Cell, n: seq<Action>, x: nat)
    requires Squeezable(g, states, fws, p, k, n) && x >= g.nterminal && x in states[k.j].shifts
    ensures CodedOn(n, x)
  {
    assert Candidate(g, states, fws, k.j, x, SHIFT, states[k.j].shifts[x]);
    LiveKept(g, states, fws, p, k, n, x);
  }

  lemma AcceptKept(g: Grammar, states: seq<State>, fws: map<Node, set<nat>>, p: Plan, k: Cell, n: seq<Action>)
    requires Squeezable(g, states, fws, p, k, n) && k.j == 0
    ensures CodedOn(n, g.start)
  {
    assert Candidate(g, states, fws, k.j, g.start, ACCEPT, 0);
    LiveKept(g, states, fws, p, k, n, g.start);
  }

  lemma LiveKept(g: Grammar, states: seq<State>, fws: map<Node, set<nat>>, p: Plan, k: Cell, n: seq<Action>, x: nat)
    requires Squeezable(g, states, fws, p, k, n) && x >= g.nterminal && LiveOn(k.l, x)
    ensures CodedOn(n, x)
  {
    var a :| a in k.l && IsLive(a) && a.sp == x;
    NonterminalAction(g, states, fws, k.j, k.l, a);
    MidKeeps(g, k.l, k.m, p.isAuto[k.j], p.best[k.j], a);
    Survives(g, states, fws, p, k, n, a);
  }

  lemma DefaultKept(g: Grammar, states: seq<State>, fws: map<Node, set<nat>>, p: Plan, k: Cell, n: seq<Action>)
    requires Squeezable(g, states, fws, p, k, n)
    ensures CodedOn(n, g.nsymbol) <==> p.best[k.j] >= 0
  {
    if p.best[k.j] >= 0 {
      var a :| a in k.m && IsReduce(a, p.best[k.j]) && a.sp == g.nsymbol;
      Survives(g, states, fws, p, k, n, a);
    }
    if CodedOn(n, g.nsymbol) {
      var i :| 0 <= i < |n| && Coded(n[i]) && n[i].sp == g.nsymbol;
      CodedSound(g, states, fws, p, k, n, i);
    }
  }

  // ---- nothing is there twice ----

  /** After conflict resolution no symbol has two actions with a code, if and only if no tie was fought: the shift
      that loses in a tie becomes an ERROR, which has a code, beside the reduction that is left. */
  lemma OneCodeEach(g: Grammar, states: seq<State>, fws: map<Node, set<nat>>, i: nat, r: seq<Action>)
    requires i < |states| && Resolution(g, states, fws, i, r)
    ensures (forall s: nat :: !TieFought(g, states, fws, i, s))
       <==> (forall j, k :: 0 <= j < k < |r| && Coded(r[j]) && Coded(r[k]) ==> r[j].sp != r[k].sp)
  {
    ResolvedCleanly(g, states, fws, i, r);
    if Resolved(g, states, fws, i, r) {
      forall j, k | 0 <= j < k < |r| && Coded(r[j]) && Coded(r[k]) ensures r[j].sp != r[k].sp {
        assert r[j] in r && r[k] in r && r[j].id != r[k].id;
      }
    } else {
      var s: nat :| TieFought(g, states, fws, i, s);
      TieTwice(g, states, fws, i, r, s);
    }
  }

  lemma TieTwice(g: Grammar, states: seq<State>, fws: map<Node, set<nat>>, i: nat, r: seq<Action>, s: nat)
    requires i < |states| && Resolution(g, states, fws, i, r) && TieFought(g, states, fws, i, s)
    ensures exists j, k :: 0 <= j < k < |r| && Coded(r[j]) && Coded(r[k]) && r[j].sp == r[k].sp
  {
    var y: nat :| TieAt(g, states, fws, i, s, y);
    assert ErrorOn(r, s) && LiveOn(r, s);
    var a :| a in r && a.ty == ERROR && a.sp == s;
    var b :| b in r && IsLive(b) && b.sp == s;
    var j :| 0 <= j < |r| && r[j] == a;
    var k :| 0 <= k < |r| && r[k] == b;
    if j < k { assert Coded(r[j]) && Coded(r[k]); } else { assert Coded(r[k]) && Coded(r[j]); }
  }

  lemma CodedOnce(g: Grammar, states: seq<State>, fws: map<Node, set<nat>>, p: Plan, k: Cell, n: seq<Action>, i: nat,
          i': nat)
    requires Squeezable(g, states, fws, p, k, n) && i < i' < |n| && Coded(n[i]) && Coded(n[i'])
    ensures n[i].sp != n[i'].sp
  {
    var b, b' := k.m[i], k.m[i'];
    assert b in k.m && b' in k.m;
    assert n[i] == Squeezed(g, p, states[k.j], b) && n[i'] == Squeezed(g, p, states[k.j], b');
    CodedFrom(g, states, fws, p, k, b);
    CodedFrom(g, states, fws, p, k, b');
    MidIds(g, k, p, i, i');
  }

  lemma MidIds(g: Grammar, k: Cell, p: Plan, i: nat, i': nat)
    requires k.j < |p.isAuto| == |p.best| && FirstPass(g, k.l, k.m, p.isAuto[k.j], p.best[k.j]) && OneEach(g, k.l)
    requires i < i' < |k.m|
    ensures k.m[i] != k.m[i']
  {
    assert k.m[i].id != k.m[i'].id;
  }

  /** A coded action comes from a live one, or is the default. */
  lemma CodedFrom(g: Grammar, states: seq<State>, fws: map<Node, set<nat>>, p: Plan, k: Cell, b: Action)
    requires g.Valid() && k.j < |states| == |p.isAuto| == |p.best| && Resolved(g, states, fws, k.j, k.l)
    requires FirstPass(g, k.l, k.m, p.isAuto[k.j], p.best[k.j]) && ChainOk(g, p, states[k.j]) && b in k.m
    requires g.StartIsolated() && IsAutomaton(g, states)
    requires Coded(Squeezed(g, p, states[k.j], b))
    ensures Squeezed(g, p, states[k.j], b).sp == b.sp
    ensures (b in k.l && IsLive(b) && b.sp < g.nsymbol)
      || (p.best[k.j] >= 0 && IsReduce(b, p.best[k.j]) && b.sp == g.nsymbol)
  {
    MidElements(g, states, fws, k.j, k.l, k.m, p.isAuto[k.j], p.best[k.j], b);
    if b in k.l && IsGoto(g, states[k.j], b) { NonterminalAction(g, states, fws, k.j, k.l, b); }
  }
}
