/** Canonical LR(1) items and the lookahead sets of the LALR(1) automaton. */
module Lalr {
  import opened Grammars
  import opened FirstSets
  import opened Automata
  import opened Seals

  /** A configuration inside a state. */
  datatype Node = Node(state: nat, cfg: Config)

  /** The item [c, t] is valid for the path, by a derivation of height n in the canonical LR(1)
      construction: start items have lookahead $, the dot moves along the path, and the closure of
      [A ::= u . B v, a] holds [B ::= . w, t] for every t in FIRST(v a). */
  ghost predicate Lr1In(g: Grammar, n: nat, path: seq<nat>, c: Config, t: nat) {
    if n == 0 then
      path == [] && c.dot == 0 && c.rule < |g.rules| && g.rules[c.rule].lhs == g.start && t == 0
    else
      || (&& path != [] && c.dot > 0 && AtDot(g, Retreat(c), path[|path| - 1])
          && Lr1In(g, n - 1, path[..|path| - 1], Retreat(c), t))
      || (exists p, a :: Lr1In(g, n - 1, path, p, a) && ClosesTo(g, p, a, c, t))
  }

  ghost predicate ClosesTo(g: Grammar, p: Config, a: nat, c: Config, t: nat) {
    Predicts(g, p, c) && t < g.nterminal && Begins(g, Rest(g, p) + [a], t)
  }

  ghost predicate Lr1(g: Grammar, path: seq<nat>, c: Config, t: nat) {
    exists n: nat :: Lr1In(g, n, path, c, t)
  }

  /** FIRST(v a) is FIRST(v), with a added when v is nullable. */
  lemma BeginsWithEnd(g: Grammar, v: seq<nat>, a: nat, t: nat)
    requires g.Valid() && a < g.nterminal
    ensures Begins(g, v + [a], t) <==> Begins(g, v, t) || (Nullable(g, v) && t == a)
  {
    if Begins(g, v, t) { BeginsExtend(g, v, [a], t); }
    if Nullable(g, v) && t == a {
      BeginsItself(g, a);
      BeginsAfter(g, v, [a], a);
    }
    if Begins(g, v + [a], t) {
      var rest :| Derives(g, v + [a], [t] + rest);
      var n: nat :| DerivesIn(g, n, v + [a], [t] + rest);
      var n1, n2, w1, w2 := DerivesInSplit(g, n, v, [a], [t] + rest);
      TerminalDerivesItself(g, n2, a, w2);
      assert ([t] + rest)[0] == t;
      if w1 != [] {
        assert w1 == [t] + w1[1..] by { assert w1[0] == (w1 + w2)[0]; }
        assert Derives(g, v, [t] + w1[1..]);
      } else {
        assert Derives(g, v, []);
      }
    }
  }

  /** The lookahead sets contain their seeds and are closed along the two kinds of link. */
  ghost predicate FollowClosed(g: Grammar, states: seq<State>, fws: map<Node, set<nat>>) {
    && (forall i, c :: 0 <= i < |states| && c in states[i].cfp ==> Node(i, c) in fws)
    && (forall c :: states != [] && c in states[0].basis ==> Node(0, c) in fws && 0 in fws[Node(0, c)])
    && (forall i, p, c :: 0 <= i < |states| && p in states[i].cfp && Predicts(g, p, c) ==>
          ClosureLinked(g, fws, i, p, c))
    && (forall i, c, x :: 0 <= i < |states| && c in states[i].cfp && AtDot(g, c, x) && x in states[i].shifts ==>
          ShiftLinked(fws, i, c, states[i].shifts[x]))
  }

  ghost predicate ClosureLinked(g: Grammar, fws: map<Node, set<nat>>, i: nat, p: Config, c: Config)
    requires p.rule < |g.rules| && p.dot < |g.rules[p.rule].rhs|
  {
    && Node(i, p) in fws && Node(i, c) in fws
    && (forall t: nat :: t < g.nterminal && Begins(g, Rest(g, p), t) ==> t in fws[Node(i, c)])
    && (Nullable(g, Rest(g, p)) ==> fws[Node(i, p)] <= fws[Node(i, c)])
  }

  ghost predicate ShiftLinked(fws: map<Node, set<nat>>, i: nat, c: Config, j: nat) {
    Node(i, c) in fws && Node(j, Advance(c)) in fws && fws[Node(i, c)] <= fws[Node(j, Advance(c))]
  }

  /** A start rule has no lookahead but $. */
  ghost predicate StartAtEnd(g: Grammar, fws: map<Node, set<nat>>) {
    forall n, t :: n in fws && t in fws[n] && n.cfg.rule < |g.rules| && g.rules[n.cfg.rule].lhs == g.start ==> t == 0
  }

  lemma {:induction false} Lr1Terminal(g: Grammar, n: nat, path: seq<nat>, c: Config, t: nat)
    requires g.Valid() && Lr1In(g, n, path, c, t)
    ensures t < g.nterminal
  {
    if n > 0 {
      if path != [] && c.dot > 0 && AtDot(g, Retreat(c), path[|path| - 1])
          && Lr1In(g, n - 1, path[..|path| - 1], Retreat(c), t) {
        Lr1Terminal(g, n - 1, path[..|path| - 1], Retreat(c), t);
      }
    }
  }

  /** The automaton with closed follow-sets, sealed. */
  ghost predicate Followed(g: Grammar, states: seq<State>, fws: map<Node, set<nat>>) {
    g.Valid() && forall q {:trigger Open(q)} :: Open(q) && q == states ==> IsAutomaton(g, q) && FollowClosed(g, q, fws)
  }

  /** t is in the follow-set of c in the state that the path leads to. */
  ghost predicate Follows(states: seq<State>, fws: map<Node, set<nat>>, i: int, c: Config, t: nat) {
    0 <= i < |states| && c in states[i].cfp && Node(i, c) in fws && t in fws[Node(i, c)]
  }

  /** LALR completeness: whatever lookahead the canonical LR(1) construction gives a configuration
      along any path is in the follow-set of that configuration in the state the path leads to. */
  lemma LookaheadsComplete(g: Grammar, states: seq<State>, fws: map<Node, set<nat>>, n: nat, path: seq<nat>,
          c: Config, t: nat)
    requires g.Valid() && IsAutomaton(g, states) && FollowClosed(g, states, fws)
    requires Lr1In(g, n, path, c, t)
    ensures var i := StateOf(states, path);
      0 <= i < |states| && c in states[i].cfp && Node(i, c) in fws && t in fws[Node(i, c)]
  {
    CompleteFrom(g, states, fws, n, path, c, t);
  }

  lemma {:induction false} CompleteFrom(g: Grammar, states: seq<State>, fws: map<Node, set<nat>>, n: nat,
          path: seq<nat>, c: Config, t: nat)
    requires Followed(g, states, fws) && Lr1In(g, n, path, c, t)
    ensures Follows(states, fws, StateOf(states, path), c, t)
  {
    if n == 0 {
      CompleteStart(g, states, fws, c);
    } else if path != [] && c.dot > 0 && AtDot(g, Retreat(c), path[|path| - 1])
         && Lr1In(g, n - 1, path[..|path| - 1], Retreat(c), t) {
      CompleteFrom(g, states, fws, n - 1, path[..|path| - 1], Retreat(c), t);
      CompleteShift(g, states, fws, path, c, t);
    } else {
      var p, a :| Lr1In(g, n - 1, path, p, a) && ClosesTo(g, p, a, c, t);
      CompleteFrom(g, states, fws, n - 1, path, p, a);
      Lr1Terminal(g, n - 1, path, p, a);
      CompleteClose(g, states, fws, StateOf(states, path), p, a, c, t);
    }
  }

  lemma CompleteStart(g: Grammar, states: seq<State>, fws: map<Node, set<nat>>, c: Config)
    requires Followed(g, states, fws)
    requires c.dot == 0 && c.rule < |g.rules| && g.rules[c.rule].lhs == g.start
    ensures Follows(states, fws, 0, c, 0)
  {
    assert Open(states);
    assert c in states[0].basis;
    assert IsClosure(g, states[0].basis, states[0].cfp);
  }

  lemma CompleteShift(g: Grammar, states: seq<State>, fws: map<Node, set<nat>>, path: seq<nat>, c: Config, t: nat)
    requires Followed(g, states, fws) && path != [] && c.dot > 0 && AtDot(g, Retreat(c), path[|path| - 1])
    requires Follows(states, fws, StateOf(states, path[..|path| - 1]), Retreat(c), t)
    ensures Follows(states, fws, StateOf(states, path), c, t)
  {
    assert Open(states);
    var x, b, i := path[|path| - 1], Retreat(c), StateOf(states, path[..|path| - 1]);
    ShiftMoves(g, states, i, b, x);
    assert ShiftLinked(fws, i, b, states[i].shifts[x]);
    assert Advance(b) == c;
  }

  lemma CompleteClose(g: Grammar, states: seq<State>, fws: map<Node, set<nat>>, i: nat, p: Config, a: nat, c: Config,
          t: nat)
    requires Followed(g, states, fws) && Follows(states, fws, i, p, a) && a < g.nterminal && ClosesTo(g, p, a, c, t)
    ensures Follows(states, fws, i, c, t)
  {
    assert Open(states);
    assert IsClosure(g, states[i].basis, states[i].cfp);
    assert ClosureLinked(g, fws, i, p, c);
    BeginsWithEnd(g, Rest(g, p), a, t);
  }
}
