/** LR(0) configurations, closures and automata, stated without reference to how they are built. */
module Automata {
  import opened Grammars

  /** A rule with a dot. Rules are identified by their position, which is lemon's rp->index. */
  datatype Config = Config(rule: nat, dot: nat)

  /** One state: its sorted basis, its sorted closure, and its SHIFT actions by symbol. */
  datatype State = State(basis: seq<Config>, cfp: seq<Config>, shifts: map<nat, nat>)

  predicate InGrammar(g: Grammar, c: Config) {
    c.rule < |g.rules| && c.dot <= |g.rules[c.rule].rhs|
  }

  /** The symbol after the dot is x. */
  predicate AtDot(g: Grammar, c: Config, x: nat) {
    c.rule < |g.rules| && c.dot < |g.rules[c.rule].rhs| && g.rules[c.rule].rhs[c.dot] == x
  }

  /** The dot is at the extreme right. */
  predicate Complete(g: Grammar, c: Config) {
    c.rule < |g.rules| && c.dot == |g.rules[c.rule].rhs|
  }

  function Advance(c: Config): Config { Config(c.rule, c.dot + 1) }

  function Retreat(c: Config): Config
    requires c.dot > 0
  {
    Config(c.rule, c.dot - 1)
  }

  /** What follows the symbol after the dot. */
  function Rest(g: Grammar, c: Config): seq<nat>
    requires c.rule < |g.rules| && c.dot < |g.rules[c.rule].rhs|
  {
    g.rules[c.rule].rhs[c.dot + 1..]
  }

  /** The closure step: p has, after its dot, the left side of the rule that c starts. */
  predicate Predicts(g: Grammar, p: Config, c: Config) {
    c.rule < |g.rules| && c.dot == 0 && AtDot(g, p, g.rules[c.rule].lhs)
  }

  /** c is reached from the basis by n closure steps. */
  ghost predicate InClosure(g: Grammar, basis: seq<Config>, n: nat, c: Config) {
    if n == 0 then c in basis
    else exists p :: InClosure(g, basis, n - 1, p) && Predicts(g, p, c)
  }

  ghost predicate Reached(g: Grammar, basis: seq<Config>, c: Config) {
    exists n: nat :: InClosure(g, basis, n, c)
  }

  /** cfp holds exactly the configurations reachable from the basis by closure steps. */
  ghost predicate IsClosure(g: Grammar, basis: seq<Config>, cfp: seq<Config>) {
    && (forall c :: c in cfp ==> InGrammar(g, c))
    && (forall c :: c in basis ==> c in cfp)
    && (forall p, c :: p in cfp && Predicts(g, p, c) ==> c in cfp)
    && (forall c :: c in cfp ==> Reached(g, basis, c))
  }

  /** basis holds exactly the configurations of cfp that have x after the dot, with the dot moved over it. */
  ghost predicate IsKernel(g: Grammar, cfp: seq<Config>, x: nat, basis: seq<Config>) {
    forall c :: c in basis <==> c.dot > 0 && Retreat(c) in cfp && AtDot(g, Retreat(c), x)
  }

  ghost predicate HasAtDot(g: Grammar, cfp: seq<Config>, x: nat) {
    exists c :: c in cfp && AtDot(g, c, x)
  }

  ghost predicate IsStart(g: Grammar, basis: seq<Config>) {
    forall c :: c in basis <==> c.dot == 0 && c.rule < |g.rules| && g.rules[c.rule].lhs == g.start
  }

  /** The recorded shifts of state i lead to the right states. */
  ghost predicate ShiftsSound(g: Grammar, states: seq<State>, i: nat)
    requires i < |states|
  {
    forall x :: x in states[i].shifts ==>
      && states[i].shifts[x] < |states|
      && HasAtDot(g, states[i].cfp, x)
      && IsKernel(g, states[i].cfp, x, states[states[i].shifts[x]].basis)
  }

  /** Every symbol that can follow the dot in state i has a shift. */
  ghost predicate ShiftsTotal(g: Grammar, states: seq<State>, i: nat)
    requires i < |states|
  {
    forall x :: HasAtDot(g, states[i].cfp, x) ==> x in states[i].shifts
  }

  /** The LR(0) automaton of the grammar. */
  ghost predicate IsAutomaton(g: Grammar, states: seq<State>) {
    && states != [] && IsStart(g, states[0].basis)
    && (forall i :: 0 <= i < |states| ==> IsClosure(g, states[i].basis, states[i].cfp))
    && (forall i :: 0 <= i < |states| ==> ShiftsSound(g, states, i) && ShiftsTotal(g, states, i))
  }

  /** The state a path of symbols leads to from state 0, or -1. */
  function StateOf(states: seq<State>, path: seq<nat>): int {
    if path == [] then 0
    else
      var i, x := StateOf(states, path[..|path| - 1]), path[|path| - 1];
      if 0 <= i < |states| && x in states[i].shifts then states[i].shifts[x] else -1
  }

  // ---- the order of configurations ----

  function Configcmp(a: Config, b: Config): int {
    if a.rule != b.rule then a.rule - b.rule else a.dot - b.dot
  }

  ghost predicate StrictlySorted(s: seq<Config>) {
    forall i, j :: 0 <= i < j < |s| ==> Configcmp(s[i], s[j]) < 0
  }

  /** A strictly sorted list is determined by the set of its elements. */
  lemma {:induction false} StrictlySortedUnique(a: seq<Config>, b: seq<Config>)
    requires StrictlySorted(a) && StrictlySorted(b)
    requires forall c :: c in a <==> c in b
    ensures a == b
  {
    assert (|a| > 0 ==> a[0] in b) && (|b| > 0 ==> b[0] in a);
    if a != [] {
      assert a[0] in a && a[0] in b;
      assert b[0] in b && b[0] in a;
      assert a[0] == b[0];
      var a', b' := a[1..], b[1..];
      forall c ensures c in a' <==> c in b' {
        assert c in a' ==> c in a && c != a[0];
        assert c in b' ==> c in b && c != b[0];
        assert c in a ==> c == a[0] || c in a';
        assert c in b ==> c == b[0] || c in b';
      }
      StrictlySortedUnique(a', b');
      assert a == [a[0]] + a' && b == [b[0]] + b';
    }
  }

  // ---- facts about any automaton ----

  /** A configuration with its dot moved is in the basis: closure steps add only dot-0 configurations. */
  lemma MovedInBasis(g: Grammar, basis: seq<Config>, cfp: seq<Config>, c: Config)
    requires IsClosure(g, basis, cfp) && c in cfp && c.dot > 0
    ensures c in basis
  {
    assert Reached(g, basis, c);
    var n: nat :| InClosure(g, basis, n, c);
  }

  /** A configuration that is not in the basis was predicted. */
  lemma PredictedBy(g: Grammar, basis: seq<Config>, cfp: seq<Config>, c: Config) returns (p: Config)
    requires IsClosure(g, basis, cfp) && c in cfp && c !in basis
    ensures p in cfp && Predicts(g, p, c)
  {
    assert Reached(g, basis, c);
    var n: nat :| InClosure(g, basis, n, c);
    p :| InClosure(g, basis, n - 1, p) && Predicts(g, p, c);
    ClosureMember(g, basis, cfp, n - 1, p);
  }

  lemma {:induction false} ClosureMember(g: Grammar, basis: seq<Config>, cfp: seq<Config>, n: nat, c: Config)
    requires IsClosure(g, basis, cfp) && InClosure(g, basis, n, c)
    ensures c in cfp
  {
    if n > 0 {
      var p :| InClosure(g, basis, n - 1, p) && Predicts(g, p, c);
      ClosureMember(g, basis, cfp, n - 1, p);
    }
  }

  /** State 0 is never the target of a shift: its basis has the dot at 0. */
  lemma NeverShiftToZero(g: Grammar, states: seq<State>, i: nat, x: nat)
    requires IsAutomaton(g, states) && i < |states| && x in states[i].shifts
    ensures states[i].shifts[x] != 0
  {
    assert ShiftsSound(g, states, i);
    var c :| c in states[i].cfp && AtDot(g, c, x);
    assert Retreat(Advance(c)) == c;
    assert Advance(c) in states[states[i].shifts[x]].basis;
  }

  /** Shifting over x moves every configuration with x after its dot into the target. */
  lemma ShiftMoves(g: Grammar, states: seq<State>, i: nat, c: Config, x: nat)
    requires IsAutomaton(g, states) && i < |states| && c in states[i].cfp && AtDot(g, c, x)
    ensures x in states[i].shifts && states[i].shifts[x] < |states|
    ensures Advance(c) in states[states[i].shifts[x]].basis
    ensures Advance(c) in states[states[i].shifts[x]].cfp
  {
    assert HasAtDot(g, states[i].cfp, x);
    assert ShiftsTotal(g, states, i) && ShiftsSound(g, states, i);
    var j := states[i].shifts[x];
    assert IsKernel(g, states[i].cfp, x, states[j].basis);
    assert Retreat(Advance(c)) == c;
    assert IsClosure(g, states[j].basis, states[j].cfp);
  }
}
