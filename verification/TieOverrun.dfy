/** A grammar on which FindActions fails the assertion in resolve_conflict:

      s ::= e.   e ::= e EQ e.   e ::= f.   f ::= e EQ e.   f ::= ID.      %nonassoc EQ.

After e EQ e, the shift of EQ meets the reduction e ::= e EQ e in a tie and becomes an ERROR; then it is matched
against the reduction f ::= e EQ e. */
module TieOverrun {
  import opened Grammars
  import opened Automata
  import opened Lalr
  import opened StateTables
  import opened Actions
  import opened ActionLists
  import opened Compress
  import opened Options
  import opened Generate
  import opened Samples

  const EQ: nat := 2
  const E: nat := 4

  const TIED := Grammar(3, 6,
    [Rule(3, [E], 0, -1, false), Rule(E, [E, EQ, E], 1, EQ, false), Rule(E, [5], 2, -1, false),
     Rule(5, [E, EQ, E], 3, EQ, false), Rule(5, [1], 4, -1, false)],
    3, [-1, -1, 1], [UNK, UNK, NONE])

  /** The generator accepts the grammar. */
  lemma TiedAccepted()
    ensures TIED.Valid() && TIED.StartIsolated() && SmallEnough(TIED)
  {
    TiedWellFormed();
    FewConfigs(TIED, 4);
  }

  lemma TiedWellFormed()
    ensures TIED.Valid() && TIED.StartIsolated() && |TIED.rules| == 5 && forall r ::
      0 <= r < 5 ==> |TIED.rules[r].rhs| < 4
  {
  }

  ghost predicate Sample(B: Build) { Mapped(B) && B.g == TIED }

  /** EQ can follow both rules for e EQ e, with the dot at d. */
  ghost predicate BothAhead(B: Build, i: nat, d: nat) {
    Ahead(B, i, Config(1, d), EQ) && Ahead(B, i, Config(3, d), EQ)
  }

  lemma AtStart(B: Build)
    requires Sample(B)
    ensures |B.states| > 0 && BothAhead(B, 0, 0)
  {
    AheadStart(B, Config(0, 0));
    ClosureOf(B, 0);
    AheadFirst(B, 0, Config(1, 0), Config(1, 0), EQ) by {
      AheadClose(B, 0, Config(0, 0), Config(1, 0), 0);
    }
    AheadFirst(B, 0, Config(1, 0), Config(2, 0), EQ);
    AheadClose(B, 0, Config(2, 0), Config(3, 0), EQ);
  }

  /** One symbol further. */
  lemma Onward(B: Build, i: nat, d: nat)
    requires Sample(B) && d < 3 && BothAhead(B, i, d)
    ensures var a := if d == 1 then EQ else E;
      i < |B.states| && a in B.states[i].shifts && B.states[i].shifts[a] < |B.states|
      && BothAhead(B, B.states[i].shifts[a], d + 1)
  {
    var a := if d == 1 then EQ else E;
    assert AtDot(TIED, Config(1, d), a) && AtDot(TIED, Config(3, d), a);
    AheadShift(B, i, Config(1, d), a, EQ);
    AheadShift(B, i, Config(3, d), a, EQ);
  }

  /** The state after e EQ e. */
  lemma AfterAll(B: Build) returns (i: nat)
    requires Sample(B)
    ensures i < |B.states| && BothAhead(B, i, 3) && EQ in B.states[i].shifts
  {
    AtStart(B);
    Onward(B, 0, 0);
    var e := B.states[0].shifts[E];
    Onward(B, e, 1);
    var q := B.states[e].shifts[EQ];
    Onward(B, q, 2);
    i := B.states[q].shifts[E];
    NextShift(B, q);
  }

  /** In e EQ . e the second operand may itself begin with e EQ. */
  lemma NextShift(B: Build, q: nat)
    requires Sample(B) && BothAhead(B, q, 2)
    ensures q < |B.states| && E in B.states[q].shifts
    ensures B.states[q].shifts[E] < |B.states| && EQ in B.states[B.states[q].shifts[E]].shifts
  {
    assert AtDot(TIED, Config(1, 2), E) && Predicts(TIED, Config(1, 2), Config(1, 0));
    AheadClose(B, q, Config(1, 2), Config(1, 0), EQ);
    AheadShift(B, q, Config(1, 0), E, EQ);
    AheadShift(B, B.states[q].shifts[E], Config(1, 1), EQ, EQ);
  }

  lemma TieMet(B: Build, i: nat)
    requires B.g == TIED && i < |B.states| && BothAhead(B, i, 3) && EQ in B.states[i].shifts
    ensures OverrunAt(TIED, B.states, B.fws, i, EQ, 1)
  {
    var w := Action(0, EQ, SHIFT, B.states[i].shifts[EQ]);
    assert Winner(TIED, B.states, B.fws, i, EQ, 0) == Some(w);
    assert !Beats(TIED, w, Action(0, EQ, REDUCE, 0));
    assert Winner(TIED, B.states, B.fws, i, EQ, 1) == Some(w);
    assert Candidate(TIED, B.states, B.fws, i, EQ, REDUCE, 1) && Candidate(TIED, B.states, B.fws, i, EQ, REDUCE, 3);
  }

  /** For any analysis of this grammar, FindActions fails the assertion. */
  lemma TieAborts(A: Analysis, states: seq<State>, fws: map<Node, set<nat>>)
    requires Analyzed(TIED, A, states, fws)
    ensures exists i :: 0 <= i < |states| && Overrun(TIED, states, fws, i)
  {
    TiedAccepted();
    TableStates(A.f, A.tab);
    var B := Build(TIED, states, fws, [], [], Plan([], []), []);
    var i := AfterAll(B);
    TieMet(B, i);
    assert Overrun(TIED, states, fws, i);
  }
}
