/** The LR machine over an automaton, for any way of choosing actions that the automaton allows.

The parser stack is represented by the path of grammar symbols on it; the state at each level is
the state that the path up to there leads to. */
module Machine {
  import opened Grammars
  import opened FirstSets
  import opened Automata
  import opened Lalr
  import opened Seals

  datatype Act = Shift(state: nat) | Reduce(rule: nat) | Fail

  type Decision = (nat, nat) -> Act

  datatype Conf =
    | Running(path: seq<nat>, input: seq<nat>)
    | Accepted(input: seq<nat>)
    | Rejected
    | Stuck   // a pop below the bottom, or no goto after a reduction

  ghost predicate AllTerminal(g: Grammar, w: seq<nat>) {
    forall i :: 0 <= i < |w| ==> w[i] < g.nterminal
  }

  ghost predicate Live(states: seq<State>, path: seq<nat>) {
    0 <= StateOf(states, path) < |states|
  }

  /** Shifts go where the automaton says; a reduction needs its completed configuration in the
      state; a rule of the start symbol is reduced only at end of input. */
  ghost predicate Allowed(g: Grammar, states: seq<State>, dec: Decision) {
    forall i, t :: 0 <= i < |states| && 0 <= t < g.nterminal ==> ActAllowed(g, states, i, t, dec(i, t))
  }

  ghost predicate ActAllowed(g: Grammar, states: seq<State>, i: nat, t: nat, a: Act)
    requires i < |states|
  {
    match a
    case Shift(j) => t in states[i].shifts && states[i].shifts[t] == j
    case Reduce(r) =>
      && r < |g.rules|
      && Config(r, |g.rules[r].rhs|) in states[i].cfp
      && (g.rules[r].lhs == g.start ==> t == 0)
    case Fail => true
  }

  /** Pop the right-hand side of rule r and go to the left-hand side. */
  function ReduceStep(g: Grammar, states: seq<State>, path: seq<nat>, r: nat, input: seq<nat>): Conf
    requires r < |g.rules|
  {
    var n := |g.rules[r].rhs|;
    if n > |path| then Stuck
    else
      var below := path[..|path| - n];
      if g.rules[r].lhs == g.start then
        if below == [] then Accepted(input) else Stuck
      else
        var path' := below + [g.rules[r].lhs];
        if 0 <= StateOf(states, path') < |states| then Running(path', input) else Stuck
  }

  function Step1(g: Grammar, states: seq<State>, dec: Decision, k: Conf): Conf {
    if !k.Running? || k.input == [] || StateOf(states, k.path) < 0 then k
    else
      match dec(StateOf(states, k.path), k.input[0])
      case Shift(j) => Running(k.path + [k.input[0]], k.input[1..])
      case Reduce(r) => if r < |g.rules| then ReduceStep(g, states, k.path, r, k.input) else Stuck
      case Fail => Rejected
  }

  function Run(g: Grammar, states: seq<State>, dec: Decision, k: Conf, n: nat): Conf
    decreases n
  {
    if n == 0 then k else Run(g, states, dec, Step1(g, states, dec, k), n - 1)
  }

  /** n steps lead from k to k'. */
  ghost predicate Reaches(g: Grammar, states: seq<State>, dec: Decision, k: Conf, n: nat, k': Conf)
    decreases n
  {
    if n == 0 then k == k' else Reaches(g, states, dec, Step1(g, states, dec, k), n - 1, k')
  }

  lemma {:induction false} RunReaches(g: Grammar, states: seq<State>, dec: Decision, k: Conf, n: nat, k': Conf)
    ensures Reaches(g, states, dec, k, n, k') <==> Run(g, states, dec, k, n) == k'
    decreases n
  {
    if n > 0 {
      RunReaches(g, states, dec, Step1(g, states, dec, k), n - 1, k');
    }
  }

  lemma {:induction false} ReachesPlus(g: Grammar, states: seq<State>, dec: Decision, k: Conf, n: nat, k': Conf,
          m: nat, k'': Conf)
    requires Reaches(g, states, dec, k, n, k') && Reaches(g, states, dec, k', m, k'')
    ensures Reaches(g, states, dec, k, n + m, k'')
    decreases n
  {
    if n > 0 {
      ReachesPlus(g, states, dec, Step1(g, states, dec, k), n - 1, k', m, k'');
    }
  }

  // ---- stack safety ----

  lemma LivePrefix(states: seq<State>, path: seq<nat>)
    requires Live(states, path) && path != []
    ensures Live(states, path[..|path| - 1])
    ensures var i := StateOf(states, path[..|path| - 1]);
      path[|path| - 1] in states[i].shifts && states[i].shifts[path[|path| - 1]] == StateOf(states, path)
  {
  }

  lemma LiveShift(g: Grammar, states: seq<State>, path: seq<nat>, x: nat)
    requires IsAutomaton(g, states) && Live(states, path) && x in states[StateOf(states, path)].shifts
    ensures Live(states, path + [x])
    ensures StateOf(states, path + [x]) == states[StateOf(states, path)].shifts[x]
  {
    assert ShiftsSound(g, states, StateOf(states, path));
    StateOfShift(states, path, x);
  }

  lemma StateOfShift(states: seq<State>, path: seq<nat>, x: nat)
    requires Live(states, path) && x in states[StateOf(states, path)].shifts
    ensures StateOf(states, path + [x]) == states[StateOf(states, path)].shifts[x]
  {
    var p := path + [x];
    assert p[..|p| - 1] == path && p[|p| - 1] == x;
  }

  /** In a state reached over at least one symbol, basis configurations have moved over that
      symbol and come from the state below. */
  lemma BasisMoved(g: Grammar, states: seq<State>, path: seq<nat>, c: Config)
    requires IsAutomaton(g, states) && Live(states, path) && path != []
    requires c in states[StateOf(states, path)].basis
    ensures c.dot > 0 && Live(states, path[..|path| - 1])
    ensures Retreat(c) in states[StateOf(states, path[..|path| - 1])].cfp
    ensures AtDot(g, Retreat(c), path[|path| - 1])
  {
    LivePrefix(states, path);
    assert ShiftsSound(g, states, StateOf(states, path[..|path| - 1]));
  }

  lemma DotStepDown(g: Grammar, states: seq<State>, path: seq<nat>, c: Config)
    requires IsAutomaton(g, states) && Live(states, path)
    requires c in states[StateOf(states, path)].cfp && c.dot > 0
    ensures path != [] && Live(states, path[..|path| - 1])
    ensures Retreat(c) in states[StateOf(states, path[..|path| - 1])].cfp
    ensures AtDot(g, Retreat(c), path[|path| - 1])
  {
    var i := StateOf(states, path);
    assert IsClosure(g, states[i].basis, states[i].cfp);
    MovedInBasis(g, states[i].basis, states[i].cfp, c);
    assert path != [];
    BasisMoved(g, states, path, c);
  }

  /** A configuration with dot d in the top state has its first d symbols on top of the stack, and
      its dot-0 form d entries below. */
  lemma {:induction false} DotSymbolsOnStack(g: Grammar, states: seq<State>, path: seq<nat>, c: Config)
    requires IsAutomaton(g, states) && Live(states, path) && c in states[StateOf(states, path)].cfp
    ensures c.rule < |g.rules| && c.dot <= |g.rules[c.rule].rhs| && c.dot <= |path|
    ensures path[|path| - c.dot..] == g.rules[c.rule].rhs[..c.dot]
    ensures var below := path[..|path| - c.dot];
      Live(states, below) && Config(c.rule, 0) in states[StateOf(states, below)].cfp
    decreases c.dot
  {
    if c.dot == 0 {
      assert IsClosure(g, states[StateOf(states, path)].basis, states[StateOf(states, path)].cfp);
      assert path[..|path|] == path;
    } else {
      DotStepDown(g, states, path, c);
      DotSymbolsOnStack(g, states, path[..|path| - 1], Retreat(c));
      SuffixStep(path, g.rules[c.rule].rhs, c.dot);
    }
  }

  lemma SuffixStep(path: seq<nat>, rhs: seq<nat>, d: nat)
    requires 0 < d <= |rhs| && d <= |path| && path[|path| - 1] == rhs[d - 1]
    requires var below := path[..|path| - 1]; below[|below| - (d - 1)..] == rhs[..d - 1]
    ensures path[|path| - d..] == rhs[..d]
    ensures var below := path[..|path| - 1]; below[..|below| - (d - 1)] == path[..|path| - d]
  {
    var below := path[..|path| - 1];
    assert path[|path| - d..] == below[|below| - (d - 1)..] + [path[|path| - 1]];
    assert rhs[..d] == rhs[..d - 1] + [rhs[d - 1]];
  }

  /** A state whose closure starts a rule of the start symbol is reached by the empty path only. */
  lemma StartOnlyAtBottom(g: Grammar, states: seq<State>, path: seq<nat>, c: Config)
    requires IsAutomaton(g, states) && g.StartIsolated() && Live(states, path)
    requires c in states[StateOf(states, path)].cfp && c.dot == 0 && c.rule < |g.rules|
    requires g.rules[c.rule].lhs == g.start
    ensures path == []
  {
    var i := StateOf(states, path);
    assert IsClosure(g, states[i].basis, states[i].cfp);
    if c !in states[i].basis {
      var p := PredictedBy(g, states[i].basis, states[i].cfp, c);
      assert false;
    }
    if path != [] {
      BasisMoved(g, states, path, c);
      assert false;
    }
  }

  /** The exposed state always has a goto on the left side of the rule. */
  lemma GotoExists(g: Grammar, states: seq<State>, path: seq<nat>, c: Config)
    requires IsAutomaton(g, states) && Live(states, path)
    requires c in states[StateOf(states, path)].cfp && c.dot == 0 && c.rule < |g.rules|
    requires g.rules[c.rule].lhs != g.start
    ensures Live(states, path + [g.rules[c.rule].lhs])
  {
    var i := StateOf(states, path);
    assert IsClosure(g, states[i].basis, states[i].cfp);
    if c in states[i].basis && path != [] {
      BasisMoved(g, states, path, c);
      assert false;
    }
    var p := PredictedBy(g, states[i].basis, states[i].cfp, c);
    ShiftMoves(g, states, i, p, g.rules[c.rule].lhs);
    LiveShift(g, states, path, g.rules[c.rule].lhs);
  }

  /** A reduction that the automaton allows pops exactly its right-hand side, never passes the
      bottom, finds its goto, and accepts exactly at the bottom. */
  lemma ReduceSafe(g: Grammar, states: seq<State>, path: seq<nat>, r: nat, input: seq<nat>)
    requires IsAutomaton(g, states) && g.StartIsolated() && Live(states, path) && r < |g.rules|
    requires Config(r, |g.rules[r].rhs|) in states[StateOf(states, path)].cfp
    ensures var rhs := g.rules[r].rhs;
      && |rhs| <= |path| && path[|path| - |rhs|..] == rhs
      && Live(states, path[..|path| - |rhs|])
      && (g.rules[r].lhs == g.start ==> path == rhs && ReduceStep(g, states, path, r, input) == Accepted(input))
      && (g.rules[r].lhs != g.start ==>
            var path' := path[..|path| - |rhs|] + [g.rules[r].lhs];
            Live(states, path') && ReduceStep(g, states, path, r, input) == Running(path', input))
  {
    var rhs := g.rules[r].rhs;
    WholeRuleOnStack(g, states, path, r);
    var below := path[..|path| - |rhs|];
    if g.rules[r].lhs == g.start {
      StartOnlyAtBottom(g, states, below, Config(r, 0));
      assert path == below + rhs;
    } else {
      GotoExists(g, states, below, Config(r, 0));
    }
  }

  /** The same, with the part of the stack that stays named. */
  lemma ReduceTo(g: Grammar, states: seq<State>, path: seq<nat>, r: nat, input: seq<nat>) returns (below: seq<nat>)
    requires IsAutomaton(g, states) && g.StartIsolated() && Live(states, path) && r < |g.rules|
    requires Config(r, |g.rules[r].rhs|) in states[StateOf(states, path)].cfp
    ensures path == below + g.rules[r].rhs && Live(states, below)
    ensures g.rules[r].lhs == g.start ==> below == [] && ReduceStep(g, states, path, r, input) == Accepted(input)
    ensures g.rules[r].lhs != g.start ==>
      Live(states, below + [g.rules[r].lhs])
      && ReduceStep(g, states, path, r, input) == Running(below + [g.rules[r].lhs], input)
  {
    ReduceSafe(g, states, path, r, input);
    below := path[..|path| - |g.rules[r].rhs|];
    assert path == below + g.rules[r].rhs;
  }

  lemma WholeRuleOnStack(g: Grammar, states: seq<State>, path: seq<nat>, r: nat)
    requires IsAutomaton(g, states) && Live(states, path) && r < |g.rules|
    requires Config(r, |g.rules[r].rhs|) in states[StateOf(states, path)].cfp
    ensures var rhs := g.rules[r].rhs;
      && |rhs| <= |path| && path[|path| - |rhs|..] == rhs && path == path[..|path| - |rhs|] + rhs
      && Live(states, path[..|path| - |rhs|]) && Config(r, 0) in states[StateOf(states, path[..|path| - |rhs|])].cfp
  {
    var rhs := g.rules[r].rhs;
    DotSymbolsOnStack(g, states, path, Config(r, |rhs|));
    assert rhs[..|rhs|] == rhs;
  }

  // ---- whole runs: safety and soundness ----

  /** What holds after any number of steps, when `done` has been consumed. */
  ghost predicate Inv(g: Grammar, states: seq<State>, done: seq<nat>, k: Conf) {
    match k
    case Running(path, input) =>
      Live(states, path) && Derives(g, path, done) && 0 !in done && AllTerminal(g, input)
    case Accepted(input) =>
      input != [] && input[0] == 0 && Derives(g, [g.start], done) && 0 !in done
    case Rejected => true
    case Stuck => false
  }

  /** The tokens not yet consumed. */
  function Left(k: Conf): seq<nat> {
    if k.Running? || k.Accepted? then k.input else []
  }

  /** w is what has been consumed followed by what is left, unless the run was rejected. */
  ghost predicate Splits(w: seq<nat>, done: seq<nat>, k: Conf) {
    k != Rejected ==> done + Left(k) == w
  }

  lemma StepInv(g: Grammar, states: seq<State>, dec: Decision, done: seq<nat>, k: Conf) returns (done': seq<nat>)
    requires g.Valid() && g.StartIsolated() && IsAutomaton(g, states) && Allowed(g, states, dec)
    requires Inv(g, states, done, k)
    ensures Inv(g, states, done', Step1(g, states, dec, k))
    ensures Splits(done + Left(k), done', Step1(g, states, dec, k))
  {
    done' := done;
    if k.Running? && k.input != [] {
      var i, t := StateOf(states, k.path), k.input[0];
      assert ActAllowed(g, states, i, t, dec(i, t));
      match dec(i, t) {
        case Shift(j) =>
          ShiftInv(g, states, done, k.path, t, k.input[1..]);
          done' := done + [t];
          assert done' + k.input[1..] == done + k.input;
        case Reduce(r) => ReduceInv(g, states, done, k, r);
        case Fail =>
      }
    }
  }

  lemma ShiftInv(g: Grammar, states: seq<State>, done: seq<nat>, path: seq<nat>, t: nat, input: seq<nat>)
    requires g.Valid() && IsAutomaton(g, states)
    requires Live(states, path) && Derives(g, path, done) && 0 !in done && AllTerminal(g, input)
    requires t in states[StateOf(states, path)].shifts
    ensures Inv(g, states, done + [t], Running(path + [t], input))
  {
    LiveShift(g, states, path, t);
    DerivesRefl(g, [t]);
    DerivesConcat(g, path, done, [t], [t]);
    ShiftNotEnd(g, states, StateOf(states, path), t);
  }

  /** The end marker is never shifted. */
  lemma ShiftNotEnd(g: Grammar, states: seq<State>, i: nat, t: nat)
    requires g.Valid() && IsAutomaton(g, states) && i < |states| && t in states[i].shifts
    ensures t != 0
  {
    assert ShiftsSound(g, states, i);
    var c :| c in states[i].cfp && AtDot(g, c, t);
  }

  lemma ReduceInv(g: Grammar, states: seq<State>, done: seq<nat>, k: Conf, r: nat)
    requires g.StartIsolated() && IsAutomaton(g, states) && Inv(g, states, done, k) && k.Running? && k.input != []
    requires ActAllowed(g, states, StateOf(states, k.path), k.input[0], Reduce(r))
    ensures Inv(g, states, done, ReduceStep(g, states, k.path, r, k.input))
    ensures Left(ReduceStep(g, states, k.path, r, k.input)) == k.input
  {
    ReduceSafe(g, states, k.path, r, k.input);
    ReduceDerives(g, k.path, r, done);
    assert [] + [g.rules[r].lhs] == [g.rules[r].lhs];
  }

  lemma ReduceDerives(g: Grammar, path: seq<nat>, r: nat, w: seq<nat>)
    requires r < |g.rules| && |g.rules[r].rhs| <= |path|
    requires path[|path| - |g.rules[r].rhs|..] == g.rules[r].rhs
    requires Derives(g, path, w)
    ensures Derives(g, path[..|path| - |g.rules[r].rhs|] + [g.rules[r].lhs], w)
  {
    var below := path[..|path| - |g.rules[r].rhs|];
    assert path == below + g.rules[r].rhs;
    DerivesUnreduce(g, below, r, w);
  }

  lemma {:induction false} RunInv(g: Grammar, states: seq<State>, dec: Decision, done: seq<nat>, k: Conf, n: nat)
    returns (done': seq<nat>)
    requires g.Valid() && g.StartIsolated() && IsAutomaton(g, states) && Allowed(g, states, dec)
    requires Inv(g, states, done, k)
    ensures Inv(g, states, done', Run(g, states, dec, k, n))
    ensures Splits(done + Left(k), done', Run(g, states, dec, k, n))
    decreases n
  {
    done' := done;
    if n > 0 {
      var k' := Step1(g, states, dec, k);
      done' := StepInv(g, states, dec, done, k);
      ghost var mid := done';
      done' := RunInv(g, states, dec, done', k', n - 1);
      RejectedStays(g, states, dec, k', n - 1);
    }
  }

  lemma {:induction false} RejectedStays(g: Grammar, states: seq<State>, dec: Decision, k: Conf, n: nat)
    ensures k == Rejected ==> Run(g, states, dec, k, n) == Rejected
    decreases n
  {
    if n > 0 {
      RejectedStays(g, states, dec, Step1(g, states, dec, k), n - 1);
    }
  }

  /** Soundness and safety: from the empty stack, no run on any token sequence gets stuck, and a
      run that accepts has consumed, up to the first $, a sentence of the grammar. */
  lemma Soundness(g: Grammar, states: seq<State>, dec: Decision, w: seq<nat>, n: nat)
    returns (done: seq<nat>)
    requires g.Valid() && g.StartIsolated() && IsAutomaton(g, states) && Allowed(g, states, dec)
    requires AllTerminal(g, w)
    ensures var k := Run(g, states, dec, Running([], w), n);
      && k != Stuck
      && (k.Accepted? ==>
            && w == done + k.input && k.input != [] && k.input[0] == 0 && 0 !in done
            && Derives(g, [g.start], done))
  {
    DerivesRefl(g, []);
    done := RunInv(g, states, dec, [], Running([], w), n);
    assert [] + w == w;
  }

  // ---- completeness ----

  /** The decision agrees with every action the follow-sets call for. It can exist only when no
      (state, token) pair has two candidates, that is, when the grammar has no conflict. */
  ghost predicate Faithful(g: Grammar, states: seq<State>, fws: map<Node, set<nat>>, dec: Decision) {
    && (forall i, t :: 0 <= i < |states| && 0 <= t < g.nterminal && t in states[i].shifts ==>
          dec(i, t) == Shift(states[i].shifts[t]))
    && (forall i, c, t :: 0 <= i < |states| && c in states[i].cfp && Reducible(g, fws, i, c, t) ==>
          dec(i, t) == Reduce(c.rule))
  }

  /** c is complete and t is in its follow-set. */
  predicate Reducible(g: Grammar, fws: map<Node, set<nat>>, i: nat, c: Config, t: nat) {
    Complete(g, c) && t < g.nterminal && Node(i, c) in fws && t in fws[Node(i, c)]
  }

  /** A grammar with its automaton, follow-sets and decisions. */
  datatype Parser = Parser(g: Grammar, states: seq<State>, fws: map<Node, set<nat>>, dec: Decision)

  /** What a complete parser needs of them. */
  ghost predicate Fitting(s: Parser) {
    match s
    case Parser(g, states, fws, dec) =>
      IsAutomaton(g, states) && FollowClosed(g, states, fws) && Faithful(g, states, fws, dec)
  }

  /** Fitting, sealed. */
  ghost predicate Prepared(s: Parser) {
    && s.g.Valid() && s.g.StartIsolated()
    && forall q {:trigger Open(q)} :: Open(q) && q == s ==> Fitting(q)
  }

  lemma Lr1Advance(g: Grammar, path: seq<nat>, c: Config, a: nat, x: nat)
    requires Lr1(g, path, c, a) && AtDot(g, c, x)
    ensures Lr1(g, path + [x], Advance(c), a)
  {
    var n: nat :| Lr1In(g, n, path, c, a);
    var p := path + [x];
    assert p[..|p| - 1] == path && Retreat(Advance(c)) == c;
    assert Lr1In(g, n + 1, p, Advance(c), a);
  }

  /** The closure gives the first token after the word as a lookahead. */
  lemma Lr1Close(g: Grammar, path: seq<nat>, c: Config, a: nat, r: nat, m2: nat, w2: seq<nat>, b: nat)
    requires Lr1(g, path, c, a) && r < |g.rules| && AtDot(g, c, g.rules[r].lhs)
    requires Word(g, m2, Rest(g, c), w2) && b == (w2 + [a])[0] && b < g.nterminal
    ensures Lr1(g, path, Config(r, 0), b)
  {
    assert Open(w2);
    var n: nat :| Lr1In(g, n, path, c, a);
    DerivesRefl(g, [a]);
    assert Derives(g, Rest(g, c), w2);
    DerivesConcat(g, Rest(g, c), w2, [a], [a]);
    assert w2 + [a] == [b] + (w2 + [a])[1..];
    assert ClosesTo(g, c, a, Config(r, 0), b);
    assert Lr1In(g, n + 1, path, Config(r, 0), b);
  }

  /** With x after the dot of a valid item, one step shifts a terminal x. */
  lemma ShiftNow(s: Parser, path: seq<nat>, c: Config, a: nat, x: nat, after: seq<nat>)
    requires Prepared(s) && Lr1(s.g, path, c, a) && AtDot(s.g, c, x) && x < s.g.nterminal
    ensures Consumes(s.g, s.states, s.dec, path, [x], [x], after, 1)
  {
    assert Open(s);
    var k: nat :| Lr1In(s.g, k, path, c, a);
    LookaheadsComplete(s.g, s.states, s.fws, k, path, c, a);
    ShiftMoves(s.g, s.states, StateOf(s.states, path), c, x);
    var start := Running(path, [x] + after);
    assert start.input[1..] == after;
    assert Reaches(s.g, s.states, s.dec, Step1(s.g, s.states, s.dec, start), 0, Running(path + [x], after));
  }

  /** With a whole right-hand side on the stack and a valid lookahead, the tables say reduce. */
  lemma ReduceEnabled(s: Parser, path: seq<nat>, r: nat, b: nat, input: seq<nat>)
    requires Prepared(s) && r < |s.g.rules|
    requires Lr1(s.g, path, Config(r, |s.g.rules[r].rhs|), b)
    ensures Live(s.states, path) && s.dec(StateOf(s.states, path), b) == Reduce(r)
    ensures |s.g.rules[r].rhs| <= |path|
    ensures ReduceStep(s.g, s.states, path, r, input) ==
      if s.g.rules[r].lhs == s.g.start then Accepted(input)
      else Running(path[..|path| - |s.g.rules[r].rhs|] + [s.g.rules[r].lhs], input)
  {
    ReduceDecided(s, path, r, b);
    ReducePrepared(s, path, r, input);
  }

  lemma ReducePrepared(s: Parser, path: seq<nat>, r: nat, input: seq<nat>)
    requires Prepared(s) && r < |s.g.rules| && Live(s.states, path)
    requires Config(r, |s.g.rules[r].rhs|) in s.states[StateOf(s.states, path)].cfp
    ensures |s.g.rules[r].rhs| <= |path|
    ensures ReduceStep(s.g, s.states, path, r, input) ==
      if s.g.rules[r].lhs == s.g.start then Accepted(input)
      else Running(path[..|path| - |s.g.rules[r].rhs|] + [s.g.rules[r].lhs], input)
  {
    PreparedAutomaton(s);
    ReduceSafe(s.g, s.states, path, r, input);
  }

  lemma PreparedAutomaton(s: Parser)
    requires Prepared(s)
    ensures IsAutomaton(s.g, s.states)
  {
    assert Open(s);
  }

  lemma ReduceDecided(s: Parser, path: seq<nat>, r: nat, b: nat)
    requires Prepared(s) && r < |s.g.rules| && Lr1(s.g, path, Config(r, |s.g.rules[r].rhs|), b)
    ensures Live(s.states, path) && s.dec(StateOf(s.states, path), b) == Reduce(r)
    ensures Config(r, |s.g.rules[r].rhs|) in s.states[StateOf(s.states, path)].cfp
  {
    assert Open(s);
    var c := Config(r, |s.g.rules[r].rhs|);
    var k: nat :| Lr1In(s.g, k, path, c, b);
    LookaheadsComplete(s.g, s.states, s.fws, k, path, c, b);
    Lr1Terminal(s.g, k, path, c, b);
    assert Reducible(s.g, s.fws, StateOf(s.states, path), c, b);
  }

  /** ... and one step reduces. */
  lemma ReduceNow(s: Parser, path: seq<nat>, r: nat, b: nat, z: seq<nat>)
    requires Prepared(s) && r < |s.g.rules|
    requires Lr1(s.g, path + s.g.rules[r].rhs, Config(r, |s.g.rules[r].rhs|), b)
    ensures Reaches(s.g, s.states, s.dec, Running(path + s.g.rules[r].rhs, [b] + z), 1,
                    if s.g.rules[r].lhs == s.g.start then Accepted([b] + z)
                      else Running(path + [s.g.rules[r].lhs], [b] + z))
  {
    var p := path + s.g.rules[r].rhs;
    ReduceEnabled(s, p, r, b, [b] + z);
    assert p[..|p| - |s.g.rules[r].rhs|] == path;
    var k := Step1(s.g, s.states, s.dec, Running(p, [b] + z));
    assert Reaches(s.g, s.states, s.dec, k, 0, k);
  }

  /** form derives the terminal word w in m steps, sealed. */
  ghost predicate Word(g: Grammar, m: nat, form: seq<nat>, w: seq<nat>) {
    AllTerminal(g, w) && forall q {:trigger Open(q)} :: Open(q) && q == w ==> DerivesIn(g, m, form, q)
  }

  /** The word of a right-hand side splits at its first symbol. */
  lemma SplitHead(g: Grammar, m: nat, form: seq<nat>, d: nat, w: seq<nat>)
    returns (m1: nat, m2: nat, w1: seq<nat>, w2: seq<nat>)
    requires d < |form| && Word(g, m, form[d..], w)
    ensures m1 + m2 == m && w == w1 + w2
    ensures Word(g, m1, [form[d]], w1) && Word(g, m2, form[d + 1..], w2)
  {
    assert Open(w);
    assert form[d..] == [form[d]] + form[d + 1..];
    m1, m2, w1, w2 := DerivesInSplit(g, m, [form[d]], form[d + 1..], w);
    assert forall i :: 0 <= i < |w1| ==> w1[i] == w[i];
    assert forall i :: 0 <= i < |w2| ==> w2[i] == w[|w1| + i];
  }

  /** What Consume promises: `n` steps take the word `w` off the input and put `rest` on the stack. */
  ghost predicate Consumes(g: Grammar, states: seq<State>, dec: Decision, path: seq<nat>, rest: seq<nat>, w: seq<nat>,
          t: seq<nat>, n: nat) {
    Reaches(g, states, dec, Running(path, w + t), n, Running(path + rest, t))
  }

  /** The rest of c's rule has been recognised as w, and the completed item is valid on the new stack. */
  ghost predicate Recognised(s: Parser, path: seq<nat>, c: Config, a: nat, w: seq<nat>, z: seq<nat>, n: nat)
    requires InGrammar(s.g, c)
  {
    match s
    case Parser(g, states, _, dec) =>
      && Consumes(g, states, dec, path, g.rules[c.rule].rhs[c.dot..], w, [a] + z, n)
      && Lr1(g, path + g.rules[c.rule].rhs[c.dot..], Config(c.rule, |g.rules[c.rule].rhs|), a)
  }

  lemma RecognisedNothing(s: Parser, path: seq<nat>, c: Config, a: nat, m: nat, w: seq<nat>, z: seq<nat>)
    requires Complete(s.g, c) && Lr1(s.g, path, c, a)
    requires Word(s.g, m, s.g.rules[c.rule].rhs[c.dot..], w)
    ensures Recognised(s, path, c, a, w, z, 0)
  {
    assert Open(w);
    var rhs := s.g.rules[c.rule].rhs;
    assert rhs[c.dot..] == [];
    EmptyDerivesEmpty(s.g, m, w);
    assert path + rhs[c.dot..] == path && [] + ([a] + z) == [a] + z;
  }

  lemma RecognisedMore(s: Parser, path: seq<nat>, c: Config, x: nat, a: nat, w: seq<nat>, w1: seq<nat>, w2: seq<nat>,
          z: seq<nat>, n1: nat, n2: nat)
    requires InGrammar(s.g, c) && AtDot(s.g, c, x) && w == w1 + w2
    requires Consumes(s.g, s.states, s.dec, path, [x], w1, w2 + ([a] + z), n1)
    requires Recognised(s, path + [x], Advance(c), a, w2, z, n2)
    ensures Recognised(s, path, c, a, w, z, n1 + n2)
  {
    var rhs, d, t := s.g.rules[c.rule].rhs, c.dot, [a] + z;
    assert w1 + (w2 + t) == w + t;
    assert (path + [x]) + rhs[d + 1..] == path + rhs[d..];
    ReachesPlus(s.g, s.states, s.dec, Running(path, w + t), n1, Running(path + [x], w2 + t), n2,
        Running(path + rhs[d..], t));
  }

  /** From a stack on which the item [c, a] is valid, the machine consumes exactly a word derived
      from what follows the dot of c, and pushes those symbols, when a is the token after the word. */
  lemma {:induction false} Consume(s: Parser, path: seq<nat>, c: Config, a: nat, m: nat, w: seq<nat>, z: seq<nat>)
    returns (n: nat)
    requires Prepared(s) && Lr1(s.g, path, c, a) && InGrammar(s.g, c)
    requires Word(s.g, m, s.g.rules[c.rule].rhs[c.dot..], w)
    ensures Recognised(s, path, c, a, w, z, n)
    decreases m, |s.g.rules[c.rule].rhs| - c.dot
  {
    var rhs := s.g.rules[c.rule].rhs;
    if c.dot == |rhs| {
      n := 0;
      RecognisedNothing(s, path, c, a, m, w, z);
    } else {
      var x := rhs[c.dot];
      var m1, m2, w1, w2 := SplitHead(s.g, m, rhs, c.dot, w);
      var n1 := ConsumeSymbol(s, path, c, a, x, m1, w1, m2, w2, z);
      Lr1Advance(s.g, path, c, a, x);
      var n2 := Consume(s, path + [x], Advance(c), a, m2, w2, z);
      n := n1 + n2;
      RecognisedMore(s, path, c, x, a, w, w1, w2, z, n1, n2);
    }
  }

  /** The same for one symbol: a terminal is shifted; for a nonterminal its rule is recognised and
      then reduced. */
  lemma {:induction false} ConsumeSymbol(s: Parser, path: seq<nat>, c: Config, a: nat, x: nat, m1: nat, w1: seq<nat>,
          m2: nat, w2: seq<nat>, z: seq<nat>)
    returns (n: nat)
    requires Prepared(s) && Lr1(s.g, path, c, a) && AtDot(s.g, c, x)
    requires Word(s.g, m1, [x], w1) && Word(s.g, m2, Rest(s.g, c), w2)
    ensures Consumes(s.g, s.states, s.dec, path, [x], w1, w2 + ([a] + z), n)
    decreases m1, 0
  {
    var after := w2 + ([a] + z);
    if x < s.g.nterminal {
      TerminalWord(s.g, m1, x, w1);
      ShiftNow(s, path, c, a, x, after);
      n := 1;
    } else {
      var r := SymbolRule(s.g, m1, x, w1);
      var b, z' := SplitAfter(s.g, path, c, a, w2, z);
      Lr1Close(s.g, path, c, a, r, m2, w2, b);
      var n1 := Consume(s, path, Config(r, 0), b, m1 - 1, w1, z');
      n := n1 + 1;
      NotStart(s.g, c, x);
      ReduceRecognised(s, path, r, b, w1, z', n1);
    }
  }

  /** A recognised right-hand side is reduced by one more step. */
  lemma ReduceRecognised(s: Parser, path: seq<nat>, r: nat, b: nat, w: seq<nat>, z: seq<nat>, n: nat)
    requires Prepared(s) && r < |s.g.rules| && Recognised(s, path, Config(r, 0), b, w, z, n)
    ensures Reaches(s.g, s.states, s.dec, Running(path, w + ([b] + z)), n + 1,
      if s.g.rules[r].lhs == s.g.start then Accepted([b] + z) else Running(path + [s.g.rules[r].lhs], [b] + z))
  {
    var rhs, t := s.g.rules[r].rhs, [b] + z;
    assert rhs[0..] == rhs;
    ReduceNow(s, path, r, b, z);
    ReachesPlus(s.g, s.states, s.dec, Running(path, w + t), n, Running(path + rhs, t), 1,
      if s.g.rules[r].lhs == s.g.start then Accepted(t) else Running(path + [s.g.rules[r].lhs], t));
  }

  lemma NotStart(g: Grammar, c: Config, x: nat)
    requires g.StartIsolated() && AtDot(g, c, x)
    ensures x != g.start
  {
  }

  lemma TerminalWord(g: Grammar, m: nat, x: nat, w: seq<nat>)
    requires g.Valid() && x < g.nterminal && Word(g, m, [x], w)
    ensures w == [x]
  {
    assert Open(w);
    TerminalDerivesItself(g, m, x, w);
  }

  lemma SymbolRule(g: Grammar, m: nat, x: nat, w: seq<nat>) returns (r: nat)
    requires x >= g.nterminal && Word(g, m, [x], w)
    ensures m > 0 && r < |g.rules| && g.rules[r].lhs == x && Word(g, m - 1, g.rules[r].rhs[0..], w)
  {
    assert Open(w);
    assert m > 0 by {
      assert [x][0] == x;
    }
    r := FirstRule(g, m, x, w);
    assert g.rules[r].rhs[0..] == g.rules[r].rhs;
  }

  /** The token that comes right after the word of the symbol. */
  lemma SplitAfter(g: Grammar, path: seq<nat>, c: Config, a: nat, w2: seq<nat>, z: seq<nat>)
    returns (b: nat, z': seq<nat>)
    requires g.Valid() && Lr1(g, path, c, a) && AllTerminal(g, w2)
    ensures b == (w2 + [a])[0] && b < g.nterminal && [b] + z' == w2 + ([a] + z)
  {
    var n: nat :| Lr1In(g, n, path, c, a);
    Lr1Terminal(g, n, path, c, a);
    var after := w2 + ([a] + z);
    b, z' := after[0], after[1..];
  }

  /** Completeness: with a faithful decision, every sentence followed by $ is accepted. */
  lemma Completeness(s: Parser, w: seq<nat>, z: seq<nat>)
    returns (n: nat)
    requires Prepared(s)
    requires Derives(s.g, [s.g.start], w) && AllTerminal(s.g, w)
    ensures Run(s.g, s.states, s.dec, Running([], w + ([0] + z)), n) == Accepted([0] + z)
  {
    var m: nat :| DerivesIn(s.g, m, [s.g.start], w);
    var r := SymbolRule(s.g, m, s.g.start, w);
    var c := Config(r, 0);
    assert Lr1In(s.g, 0, [], c, 0);
    var n1 := Consume(s, [], c, 0, m - 1, w, z);
    n := n1 + 1;
    ReduceRecognised(s, [], r, 0, w, z, n1);
    RunReaches(s.g, s.states, s.dec, Running([], w + ([0] + z)), n, Accepted([0] + z));
  }
}
