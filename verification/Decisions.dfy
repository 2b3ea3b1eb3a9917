/** The decisions that the compressed tables stand for: the surviving action of each cell, and the
default reduction of the state in every empty cell. */
module Decisions {
  import opened Grammars
  import opened Automata
  import opened Lalr
  import opened StateTables
  import opened Actions
  import opened Machine
  import opened ActionLists
  import opened Compress
  import opened Compression
  import opened Seals
  import opened Options

  /** The live action of the list on lookahead t. */
  function FindLive(l: seq<Action>, t: nat): (r: Option<Action>)
    ensures r.Some? ==> r.value in l && IsLive(r.value) && r.value.sp == t
    ensures r.None? ==> forall a :: a in l ==> !(IsLive(a) && a.sp == t)
  {
    if l == [] then None
    else if IsLive(l[0]) && l[0].sp == t then Some(l[0])
    else FindLive(l[1..], t)
  }

  function Decide(l: seq<Action>, best: int, t: nat): Act {
    match FindLive(l, t)
    case Some(a) => if a.ty == SHIFT then Shift(a.x) else if a.ty == REDUCE then Machine.Reduce(a.x) else Fail
    case None => if best >= 0 then Machine.Reduce(best) else Fail
  }

  /** The decision function of the parser after compression. */
  function Dec(aps: seq<seq<Action>>, p: Plan): Decision {
    (i: nat, t: nat) => if i < |aps| && i < |p.best| then Decide(aps[i], p.best[i], t) else Fail
  }

  lemma FindLiveIs(g: Grammar, l: seq<Action>, a: Action)
    requires OneEach(g, l) && a in l && IsLive(a)
    ensures FindLive(l, a.sp) == Some(a)
  {
  }

  /** Default reductions are decisions the automaton allows: empty cells become an error or the
      default reduction, never a shift and never an accept. */
  lemma DecAllowed(g: Grammar, states: seq<State>, fws: map<Node, set<nat>>, aps: seq<seq<Action>>,
          mid: seq<seq<Action>>, p: Plan)
    requires g.Valid() && IsAutomaton(g, states) && StartAtEnd(g, fws) && Planned(g, states, fws, aps, mid, p)
    ensures Allowed(g, states, Dec(aps, p))
  {
    forall i, t | 0 <= i < |states| && 0 <= t < g.nterminal ensures ActAllowed(g, states, i, t, Dec(aps, p)(i, t)) {
      DecideAllowed(g, states, fws, i, aps[i], mid[i], p.isAuto[i], p.best[i], t);
    }
  }

  lemma DecideAllowed(g: Grammar, states: seq<State>, fws: map<Node, set<nat>>, i: nat, l: seq<Action>,
          m: seq<Action>, isAuto: bool, best: int, t: nat)
    requires StartAtEnd(g, fws) && i < |states| && Resolved(g, states, fws, i, l) && FirstPass(g, l, m, isAuto, best)
    ensures ActAllowed(g, states, i, t, Decide(l, best, t))
  {
    match FindLive(l, t) {
      case Some(a) => assert Candidate(g, states, fws, i, a.sp, a.ty, a.x);
      case None => if best >= 0 { BestInState(g, states, fws, i, l, best); }
    }
  }

  /** No (state, terminal) pair has two candidate actions. */
  ghost predicate ConflictFree(g: Grammar, states: seq<State>, fws: map<Node, set<nat>>) {
    forall i, s: nat, ty, x: nat, ty', x': nat ::
      0 <= i < |states| && s < g.nterminal && Candidate(g, states, fws, i, s, ty, x)
      && Candidate(g, states, fws, i, s, ty', x') ==>
        ty == ty' && x == x'
  }

  lemma DecFaithful(g: Grammar, states: seq<State>, fws: map<Node, set<nat>>, aps: seq<seq<Action>>,
          mid: seq<seq<Action>>, p: Plan)
    requires Planned(g, states, fws, aps, mid, p) && ConflictFree(g, states, fws)
    ensures Faithful(g, states, fws, Dec(aps, p))
  {
    forall i, t | 0 <= i < |states| && 0 <= t < g.nterminal && t in states[i].shifts
      ensures Dec(aps, p)(i, t) == Shift(states[i].shifts[t])
    {
      TheCandidate(g, states, fws, i, aps[i], p.best[i], t, SHIFT, states[i].shifts[t]);
    }
    forall i, c, t | 0 <= i < |states| && c in states[i].cfp && Reducible(g, fws, i, c, t)
      ensures Dec(aps, p)(i, t) == Machine.Reduce(c.rule)
    {
      assert c == Config(c.rule, |g.rules[c.rule].rhs|);
      TheCandidate(g, states, fws, i, aps[i], p.best[i], t, REDUCE, c.rule);
    }
  }

  lemma TheCandidate(g: Grammar, states: seq<State>, fws: map<Node, set<nat>>, i: nat, l: seq<Action>, best: int,
          t: nat, ty: ActionType, x: nat)
    requires i < |states| && Resolved(g, states, fws, i, l) && ConflictFree(g, states, fws)
    requires t < g.nterminal && Candidate(g, states, fws, i, t, ty, x)
    ensures FindLive(l, t).Some? && FindLive(l, t).value.ty == ty && FindLive(l, t).value.x == x
  {
    assert LiveOn(l, t);
    var a := FindLive(l, t).value;
    assert Candidate(g, states, fws, i, a.sp, a.ty, a.x);
  }

  // ---- auto-reduce states ----

  /** What makes a state an auto-reduce state: no nonterminal leads on from it, every terminal leads to
      its one reduction, and that reduction pops something. */
  ghost predicate Automatic(g: Grammar, states: seq<State>, dec: Decision, j: nat, r: int)
    requires j < |states|
  {
    && (forall x :: x in states[j].shifts ==> x < g.nterminal)
    && 0 <= r < |g.rules| && |g.rules[r].rhs| > 0 && g.rules[r].lhs != g.start
    && Config(r, |g.rules[r].rhs|) in states[j].cfp
    && forall t: nat :: t < g.nterminal ==> dec(j, t) == Machine.Reduce(r)
  }

  lemma AutoStates(g: Grammar, states: seq<State>, fws: map<Node, set<nat>>, aps: seq<seq<Action>>,
          mid: seq<seq<Action>>, p: Plan, j: nat)
    requires g.Valid() && g.StartIsolated() && StatesOk(g, states) && IsAutomaton(g, states)
    requires Planned(g, states, fws, aps, mid, p) && j < |states| && AutoTo(p, j)
    ensures Automatic(g, states, Dec(aps, p), j, p.best[j])
  {
    var l, r := aps[j], p.best[j];
    assert Resolved(g, states, fws, j, l) && FirstPass(g, l, mid[j], p.isAuto[j], r);
    BestInState(g, states, fws, j, l, r);
    AutoNoGotos(g, states, fws, j, l, r);
    if |g.rules[r].rhs| == 0 {
      GotoForRule(g, states, j, r);
      assert false;
    }
    forall t: nat | t < g.nterminal ensures Dec(aps, p)(j, t) == Machine.Reduce(r) {
      match FindLive(l, t) {
        case Some(a) => assert Candidate(g, states, fws, j, a.sp, a.ty, a.x);
        case None =>
      }
    }
  }

  lemma AutoNoGotos(g: Grammar, states: seq<State>, fws: map<Node, set<nat>>, j: nat, l: seq<Action>, r: int)
    requires g.Valid() && g.StartIsolated() && IsAutomaton(g, states) && j < |states|
    requires Resolved(g, states, fws, j, l) && Forced(l, r)
    ensures forall x :: x in states[j].shifts ==> x < g.nterminal
  {
    forall x | x in states[j].shifts ensures x < g.nterminal {
      assert Candidate(g, states, fws, j, x, SHIFT, states[j].shifts[x]);
      assert LiveOn(l, x);
      var a :| a in l && IsLive(a) && a.sp == x;
      if x >= g.nterminal { NonterminalAction(g, states, fws, j, l, a); ShiftSymbol(g, states, j, x); }
    }
  }
}
