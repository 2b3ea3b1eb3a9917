/** Without conflicts, and when every nonterminal derives some word, the parser is done with every token after
finitely many iterations, also with a token that cannot come next: default reductions do not go on for ever.

Whatever the parser reduces on a wrong token, it would also reduce on some token that can follow the stack it
arrives at. There are finitely many tokens, and with each one that can follow, the parser gets on. */
module Termination {
  import opened Grammars
  import opened FirstSets
  import opened Automata
  import opened Lalr
  import opened Machine
  import opened Lookaheads
  import opened Simulation
  import opened ParserRuns
  import opened Seals
  import D = Driver

  // ---- words ----

  /** Every nonterminal derives some word of terminals. */
  ghost predicate Generating(g: Grammar) {
    forall x :: g.nterminal <= x < g.nsymbol ==> HasWord(g, x)
  }

  ghost predicate HasWord(g: Grammar, x: nat) {
    exists w :: AllTerminal(g, w) && Derives(g, [x], w)
  }

  ghost predicate AllSymbols(g: Grammar, v: seq<nat>) {
    forall k :: 0 <= k < |v| ==> v[k] < g.nsymbol
  }

  lemma {:induction false} FormWord(g: Grammar, v: seq<nat>) returns (w: seq<nat>)
    requires Generating(g) && AllSymbols(g, v)
    ensures AllTerminal(g, w) && Derives(g, v, w)
  {
    if v == [] {
      w := [];
      DerivesRefl(g, []);
    } else {
      var x, tail := v[0], v[1..];
      assert v == [x] + tail;
      var w1 := SymbolWord(g, x);
      var w2 := FormWord(g, tail);
      w := w1 + w2;
      DerivesConcat(g, [x], w1, tail, w2);
    }
  }

  lemma SymbolWord(g: Grammar, x: nat) returns (w: seq<nat>)
    requires Generating(g) && x < g.nsymbol
    ensures AllTerminal(g, w) && Derives(g, [x], w)
  {
    if x < g.nterminal {
      w := [x];
      DerivesRefl(g, [x]);
    } else {
      assert HasWord(g, x);
      w :| AllTerminal(g, w) && Derives(g, [x], w);
    }
  }

  lemma {:induction false} DerivesSymbols(g: Grammar, n: nat, a: seq<nat>, b: seq<nat>)
    requires g.Valid() && AllSymbols(g, a) && DerivesIn(g, n, a, b)
    ensures AllSymbols(g, b)
    decreases n
  {
    if n > 0 {
      var m :| Step(g, a, m) && DerivesIn(g, n - 1, m, b);
      StepSymbols(g, a, m);
      DerivesSymbols(g, n - 1, m, b);
    }
  }

  lemma StepSymbols(g: Grammar, a: seq<nat>, m: seq<nat>)
    requires g.Valid() && AllSymbols(g, a) && Step(g, a, m)
    ensures AllSymbols(g, m)
  {
    var i: nat, r: nat :| StepAt(g, a, m, i, r);
  }

  /** A form that can begin with t derives a word that does. */
  lemma WordFrom(g: Grammar, v: seq<nat>, t: nat) returns (m: nat, w: seq<nat>)
    requires g.Valid() && Generating(g) && AllSymbols(g, v) && t < g.nterminal && Begins(g, v, t)
    ensures w != [] && w[0] == t && Word(g, m, v, w)
  {
    var rest :| Derives(g, v, [t] + rest);
    var n: nat :| DerivesIn(g, n, v, [t] + rest);
    DerivesSymbols(g, n, v, [t] + rest);
    assert forall k :: 0 <= k < |rest| ==> rest[k] == ([t] + rest)[k + 1];
    var u := FormWord(g, rest);
    DerivesRefl(g, [t]);
    DerivesConcat(g, [t], [t], rest, u);
    DerivesTrans(g, v, [t] + rest, [t] + u);
    w := [t] + u;
    m :| DerivesIn(g, m, v, w);
  }

  lemma NullableWord(g: Grammar, v: seq<nat>) returns (m: nat)
    requires Nullable(g, v)
    ensures Word(g, m, v, [])
  {
    m :| DerivesIn(g, m, v, []);
  }

  lemma GeneratingProductive(g: Grammar)
    requires Generating(g)
    ensures Productive(g)
  {
    forall x | g.nterminal <= x < g.nsymbol
      ensures Nullable(g, [x]) || exists t: nat :: t < g.nterminal && Begins(g, [x], t)
    {
      var w := SymbolWord(g, x);
      if w != [] {
        assert w == [w[0]] + w[1..];
        assert Begins(g, [x], w[0]);
      }
    }
  }

  // ---- being done with a token ----

  /** After n steps the machine is done with the token t: it has shifted it, accepted, or rejected it. */
  ghost predicate Ends(s: Parser, path: seq<nat>, t: nat, n: nat) {
    var k := Run(s.g, s.states, s.dec, Running(path, [t]), n);
    !(k.Running? && k.input == [t])
  }

  /** The input only gets shorter. */
  lemma {:induction false} Shrinks(s: Parser, k: Conf, n: nat)
    ensures var k' := Run(s.g, s.states, s.dec, k, n); k'.Running? ==> k.Running? && |k'.input| <= |k.input|
    decreases n
  {
    if n > 0 { Shrinks(s, Step1(s.g, s.states, s.dec, k), n - 1); }
  }

  lemma {:induction false} RunPlus(s: Parser, k: Conf, m: nat, n: nat)
    ensures Run(s.g, s.states, s.dec, k, m + n) == Run(s.g, s.states, s.dec, Run(s.g, s.states, s.dec, k, m), n)
    decreases m
  {
    if m > 0 { RunPlus(s, Step1(s.g, s.states, s.dec, k), m - 1, n); }
  }

  /** While the first token is the same, what comes after it does not matter. */
  lemma {:induction false} SameFirst(s: Parser, path: seq<nat>, t: nat, z: seq<nat>, n: nat)
    requires !Ends(s, path, t, n)
    ensures var k := Run(s.g, s.states, s.dec, Running(path, [t]), n);
      Run(s.g, s.states, s.dec, Running(path, [t] + z), n) == Running(k.path, [t] + z)
    decreases n
  {
    if n > 0 {
      var k := Step1(s.g, s.states, s.dec, Running(path, [t]));
      Shrinks(s, k, n - 1);
      OneStepSame(s, path, t, z);
      SameFirst(s, k.path, t, z, n - 1);
    }
  }

  lemma OneStepSame(s: Parser, path: seq<nat>, t: nat, z: seq<nat>)
    requires var k := Step1(s.g, s.states, s.dec, Running(path, [t])); k.Running? && k.input != []
    ensures var k := Step1(s.g, s.states, s.dec, Running(path, [t]));
      k.input == [t] && Step1(s.g, s.states, s.dec, Running(path, [t] + z)) == Running(k.path, [t] + z)
  {
    assert ([t] + z)[0] == t;
  }

  /** So it is enough to get on with one continuation. */
  lemma EndsWith(s: Parser, path: seq<nat>, t: nat, z: seq<nat>, n: nat, k: Conf)
    requires Reaches(s.g, s.states, s.dec, Running(path, [t] + z), n, k)
    requires !k.Running? || |k.input| < |z| + 1
    ensures Ends(s, path, t, n)
  {
    RunReaches(s.g, s.states, s.dec, Running(path, [t] + z), n, k);
    if !Ends(s, path, t, n) { SameFirst(s, path, t, z, n); }
  }

  lemma EndsLater(s: Parser, path: seq<nat>, t: nat, n: nat, m: nat)
    requires Ends(s, path, t, n) && n <= m
    ensures Ends(s, path, t, m)
  {
    RunPlus(s, Running(path, [t]), n, m - n);
    var k := Run(s.g, s.states, s.dec, Running(path, [t]), n);
    Shrinks(s, k, m - n);
    OneOrNone(s, path, t, n);
  }

  lemma {:induction false} OneOrNone(s: Parser, path: seq<nat>, t: nat, n: nat)
    ensures var k := Run(s.g, s.states, s.dec, Running(path, [t]), n); k.Running? ==> k.input == [t] || k.input == []
    decreases n
  {
    if n > 0 {
      var k := Step1(s.g, s.states, s.dec, Running(path, [t]));
      if k.Running? && k.input == [t] {
        OneOrNone(s, k.path, t, n - 1);
      } else {
        Shrinks(s, k, n - 1);
      }
    }
  }

  lemma EndsAfter(s: Parser, path: seq<nat>, t: nat, n: nat, path': seq<nat>, m: nat)
    requires Reaches(s.g, s.states, s.dec, Running(path, [t]), n, Running(path', [t])) && Ends(s, path', t, m)
    ensures Ends(s, path, t, n + m)
  {
    RunReaches(s.g, s.states, s.dec, Running(path, [t]), n, Running(path', [t]));
    RunPlus(s, Running(path, [t]), n, m);
  }

  // ---- tokens that can follow the stack ----

  /** The token can come after the path: some valid item goes on with it. */
  ghost predicate MayFollow(g: Grammar, path: seq<nat>, t: nat) {
    t < g.nterminal && exists c, a :: Lr1(g, path, c, a) && GoesOn(g, c, a, t)
  }

  ghost predicate GoesOn(g: Grammar, c: Config, a: nat, t: nat) {
    InGrammar(g, c) && Begins(g, g.rules[c.rule].rhs[c.dot..] + [a], t)
  }

  /** Below a valid item there is its rule's beginning on the stack, and under that the item with its dot at 0. */
  lemma {:induction false} ItemBelow(g: Grammar, k: nat, path: seq<nat>, c: Config, a: nat) returns (below: seq<nat>)
    requires InGrammar(g, c) && Lr1In(g, k, path, c, a)
    ensures k >= c.dot && path == below + g.rules[c.rule].rhs[..c.dot]
    ensures Lr1In(g, k - c.dot, below, Config(c.rule, 0), a)
    decreases c.dot
  {
    var rhs := g.rules[c.rule].rhs;
    if c.dot == 0 {
      below := path;
      assert path == path + rhs[..0];
    } else {
      var n := |path| - 1;
      below := ItemBelow(g, k - 1, path[..n], Retreat(c), a);
      assert rhs[..c.dot] == rhs[..c.dot - 1] + [rhs[c.dot - 1]];
      assert path == path[..n] + [path[n]];
    }
  }

  /** A whole rule is on the stack, with a valid lookahead: reducing leads to the item that predicted the rule. */
  lemma ParentItem(g: Grammar, k: nat, below: seq<nat>, r: nat, a: nat) returns (p: Config, a2: nat)
    requires r < |g.rules| && g.rules[r].lhs != g.start && Lr1In(g, k, below, Config(r, 0), a)
    ensures k > 0 && Lr1In(g, k - 1, below, p, a2) && ClosesTo(g, p, a2, Config(r, 0), a)
  {
    p, a2 :| Lr1In(g, k - 1, below, p, a2) && ClosesTo(g, p, a2, Config(r, 0), a);
  }

  /** The machine gets on with a token that can follow. */
  lemma {:induction false} ItemEnds(s: Parser, k: nat, path: seq<nat>, c: Config, a: nat, t: nat) returns (n: nat)
    requires Prepared(s) && Generating(s.g) && Lr1In(s.g, k, path, c, a) && GoesOn(s.g, c, a, t) && t < s.g.nterminal
    ensures Ends(s, path, t, n)
    decreases k - c.dot
  {
    var rest := s.g.rules[c.rule].rhs[c.dot..];
    Lr1Terminal(s.g, k, path, c, a);
    BeginsWithEnd(s.g, rest, a, t);
    if Begins(s.g, rest, t) {
      n := WordEnds(s, path, c, a, t);
    } else {
      var below := ItemBelow(s.g, k, path, c, a);
      var n1 := RuleReduced(s, path, c, a, below);
      if s.g.rules[c.rule].lhs == s.g.start {
        n := n1;
      } else {
        var path' := below + [s.g.rules[c.rule].lhs];
        var c', a2 := NextItem(s.g, k - c.dot, below, c.rule, a);
        var n2 := ItemEnds(s, k - c.dot, path', c', a2, a);
        EndsAfter(s, path, a, n1, path', n2);
        n := n1 + n2;
      }
    }
  }

  /** After the reduction the item that predicted the rule goes on with the same token. */
  lemma NextItem(g: Grammar, k: nat, below: seq<nat>, r: nat, a: nat) returns (c: Config, a2: nat)
    requires r < |g.rules| && g.rules[r].lhs != g.start && Lr1In(g, k, below, Config(r, 0), a)
    ensures c.dot > 0 && Lr1In(g, k, below + [g.rules[r].lhs], c, a2) && GoesOn(g, c, a2, a)
  {
    var p;
    p, a2 := ParentItem(g, k, below, r, a);
    AdvanceIn(g, k - 1, below, p, a2, g.rules[r].lhs);
    c := Advance(p);
  }

  lemma AdvanceIn(g: Grammar, k: nat, path: seq<nat>, c: Config, a: nat, x: nat)
    requires Lr1In(g, k, path, c, a) && AtDot(g, c, x)
    ensures Lr1In(g, k + 1, path + [x], Advance(c), a)
  {
    var p := path + [x];
    assert p[..|p| - 1] == path && Retreat(Advance(c)) == c;
  }

  /** The token begins a word of the rest of the rule: it is consumed. */
  lemma WordEnds(s: Parser, path: seq<nat>, c: Config, a: nat, t: nat) returns (n: nat)
    requires Prepared(s) && Generating(s.g) && Lr1(s.g, path, c, a) && InGrammar(s.g, c) && t < s.g.nterminal
    requires Begins(s.g, s.g.rules[c.rule].rhs[c.dot..], t)
    ensures Ends(s, path, t, n)
  {
    var rest := s.g.rules[c.rule].rhs[c.dot..];
    assert AllSymbols(s.g, rest);
    var m, w := WordFrom(s.g, rest, t);
    n := Consume(s, path, c, a, m, w, []);
    var z := w[1..] + [a];
    assert w + ([a] + []) == [t] + z;
    EndsWith(s, path, t, z, n, Running(path + rest, [a] + []));
  }

  /** The rest of the rule derives nothing: it is recognised, and the rule is reduced. */
  lemma RuleReduced(s: Parser, path: seq<nat>, c: Config, a: nat, below: seq<nat>) returns (n: nat)
    requires Prepared(s) && Lr1(s.g, path, c, a) && InGrammar(s.g, c)
    requires Nullable(s.g, s.g.rules[c.rule].rhs[c.dot..]) && path == below + s.g.rules[c.rule].rhs[..c.dot]
    ensures s.g.rules[c.rule].lhs == s.g.start ==> Ends(s, path, a, n)
    ensures s.g.rules[c.rule].lhs != s.g.start ==>
      Reaches(s.g, s.states, s.dec, Running(path, [a]), n, Running(below + [s.g.rules[c.rule].lhs], [a]))
  {
    var rhs := s.g.rules[c.rule].rhs;
    var m := NullableWord(s.g, rhs[c.dot..]);
    var n1 := Consume(s, path, c, a, m, [], []);
    assert [] + ([a] + []) == [a] == [a] + [];
    assert path + rhs[c.dot..] == below + rhs;
    ReduceAfter(s, path, below, c.rule, a, n1);
    n := n1 + 1;
  }

  /** One more step reduces the rule. */
  lemma ReduceAfter(s: Parser, path: seq<nat>, below: seq<nat>, r: nat, a: nat, n: nat)
    requires Prepared(s) && r < |s.g.rules| && Lr1(s.g, below + s.g.rules[r].rhs, Config(r, |s.g.rules[r].rhs|), a)
    requires Reaches(s.g, s.states, s.dec, Running(path, [a]), n, Running(below + s.g.rules[r].rhs, [a]))
    ensures s.g.rules[r].lhs == s.g.start ==> Ends(s, path, a, n + 1)
    ensures s.g.rules[r].lhs != s.g.start ==>
      Reaches(s.g, s.states, s.dec, Running(path, [a]), n + 1, Running(below + [s.g.rules[r].lhs], [a]))
  {
    ReduceNow(s, below, r, a, []);
    assert [a] + [] == [a];
    var k := if s.g.rules[r].lhs == s.g.start then Accepted([a]) else Running(below + [s.g.rules[r].lhs], [a]);
    ReachesPlus(s.g, s.states, s.dec, Running(path, [a]), n, Running(below + s.g.rules[r].rhs, [a]), 1, k);
    if s.g.rules[r].lhs == s.g.start { EndsWith(s, path, a, [], n + 1, k); }
  }

  lemma FollowEnds(s: Parser, path: seq<nat>, t: nat) returns (n: nat)
    requires Prepared(s) && Generating(s.g) && MayFollow(s.g, path, t)
    ensures Ends(s, path, t, n)
  {
    var c, a :| Lr1(s.g, path, c, a) && GoesOn(s.g, c, a, t);
    var k: nat :| Lr1In(s.g, k, path, c, a);
    n := ItemEnds(s, k, path, c, a, t);
  }

  // ---- what follows after a reduction could follow before ----

  /** A token that can follow a symbol on the stack follows it in an item that has that symbol after its dot. */
  lemma {:induction false} KernelFollow(g: Grammar, k: nat, below: seq<nat>, x: nat, c: Config, b: nat, t: nat)
    returns (p: Config, a: nat)
    requires g.Valid() && Lr1In(g, k, below + [x], c, b) && GoesOn(g, c, b, t) && t < g.nterminal
    ensures Lr1(g, below, p, a) && AtDot(g, p, x) && Begins(g, Rest(g, p) + [a], t)
    decreases k
  {
    var path := below + [x];
    assert path[..|path| - 1] == below && path[|path| - 1] == x;
    if c.dot > 0 && AtDot(g, Retreat(c), x) && Lr1In(g, k - 1, below, Retreat(c), b) {
      p, a := Retreat(c), b;
    } else {
      var q, d :| Lr1In(g, k - 1, path, q, d) && ClosesTo(g, q, d, c, b);
      Lr1Terminal(g, k - 1, path, q, d);
      PredictorFollows(g, q, d, c, b, t);
      p, a := KernelFollow(g, k - 1, below, x, q, d, t);
    }
  }

  /** If the predicted item goes on with t, so does the item that predicted it. */
  lemma PredictorFollows(g: Grammar, q: Config, d: nat, c: Config, b: nat, t: nat)
    requires g.Valid() && ClosesTo(g, q, d, c, b) && GoesOn(g, c, b, t) && t < g.nterminal && d < g.nterminal
    ensures GoesOn(g, q, d, t)
  {
    var rhs, x := g.rules[c.rule].rhs, g.rules[c.rule].lhs;
    var after := Rest(g, q) + [d];
    assert rhs[0..] == rhs;
    assert g.rules[q.rule].rhs[q.dot..] + [d] == [x] + after;
    DerivesRule(g, c.rule);
    BeginsWithEnd(g, rhs, b, t);
    if Begins(g, rhs, t) {
      var rest :| Derives(g, rhs, [t] + rest);
      DerivesTrans(g, [x], rhs, [t] + rest);
      BeginsExtend(g, [x], after, t);
    } else {
      DerivesTrans(g, [x], rhs, []);
      BeginsAfter(g, [x], after, t);
    }
  }

  /** The dot walks over what is on the stack. */
  lemma {:induction false} WalkOver(g: Grammar, below: seq<nat>, r: nat, d: nat, t: nat)
    requires r < |g.rules| && d <= |g.rules[r].rhs| && Lr1(g, below, Config(r, 0), t)
    ensures Lr1(g, below + g.rules[r].rhs[..d], Config(r, d), t)
    decreases d
  {
    var rhs := g.rules[r].rhs;
    if d == 0 {
      assert below + rhs[..0] == below;
    } else {
      WalkOver(g, below, r, d - 1, t);
      assert (below + rhs[..d - 1]) + [rhs[d - 1]] == below + rhs[..d];
      Lr1Advance(g, below + rhs[..d - 1], Config(r, d - 1), t, rhs[d - 1]);
    }
  }

  /** A reduction that leads to a stack which t can follow is what the machine does on t. */
  lemma ReduceBefore(s: Parser, below: seq<nat>, r: nat, t: nat)
    requires Prepared(s) && r < |s.g.rules| && MayFollow(s.g, below + [s.g.rules[r].lhs], t)
    ensures var path := below + s.g.rules[r].rhs;
      && Live(s.states, path) && s.dec(StateOf(s.states, path), t) == Machine.Reduce(r) && MayFollow(s.g, path, t)
  {
    var rhs, x := s.g.rules[r].rhs, s.g.rules[r].lhs;
    var path := below + rhs;
    var c, b :| Lr1(s.g, below + [x], c, b) && GoesOn(s.g, c, b, t);
    var k: nat :| Lr1In(s.g, k, below + [x], c, b);
    var p, a := KernelFollow(s.g, k, below, x, c, b, t);
    Lr1Step(s.g, below, p, a, Config(r, 0), t);
    WalkOver(s.g, below, r, |rhs|, t);
    assert rhs[..|rhs|] == rhs;
    ReduceDecided(s, path, r, t);
    BeginsItself(s.g, t);
    assert rhs[|rhs|..] + [t] == [t];
    assert GoesOn(s.g, Config(r, |rhs|), t, t);
  }

  // ---- some token can always follow ----

  lemma SomeFollow(s: Parser, path: seq<nat>) returns (t: nat)
    requires Prepared(s) && Generating(s.g) && Live(s.states, path)
    ensures MayFollow(s.g, path, t)
  {
    GeneratingProductive(s.g);
    PreparedAutomaton(s);
    var c := SomeBasis(s, path);
    var a := SomeLookahead(s.g, s.states, path, 0, c);
    Lr1IsTerminal(s.g, path, c, a);
    BasisInGrammar(s, path, c);
    t := SomethingBegins(s.g, s.g.rules[c.rule].rhs[c.dot..], a);
    assert GoesOn(s.g, c, a, t);
  }

  lemma BasisInGrammar(s: Parser, path: seq<nat>, c: Config)
    requires IsAutomaton(s.g, s.states) && Live(s.states, path) && c in s.states[StateOf(s.states, path)].basis
    ensures InGrammar(s.g, c)
  {
    var st := s.states[StateOf(s.states, path)];
    assert IsClosure(s.g, st.basis, st.cfp);
  }

  /** No state has an empty basis. */
  lemma SomeBasis(s: Parser, path: seq<nat>) returns (c: Config)
    requires s.g.Valid() && Generating(s.g) && IsAutomaton(s.g, s.states) && Live(s.states, path)
    ensures c in s.states[StateOf(s.states, path)].basis
  {
    if path == [] {
      var r := StartRule(s.g);
      c := Config(r, 0);
    } else {
      LivePrefix(s.states, path);
      var i, x := StateOf(s.states, path[..|path| - 1]), path[|path| - 1];
      assert ShiftsSound(s.g, s.states, i);
      var b :| b in s.states[i].cfp && AtDot(s.g, b, x);
      assert Retreat(Advance(b)) == b;
      c := Advance(b);
    }
  }

  lemma StartRule(g: Grammar) returns (r: nat)
    requires g.Valid() && Generating(g)
    ensures r < |g.rules| && g.rules[r].lhs == g.start
  {
    var w := SymbolWord(g, g.start);
    var n: nat :| DerivesIn(g, n, [g.start], w);
    assert n > 0 by {
      assert [g.start][0] == g.start;
    }
    r := FirstRule(g, n, g.start, w);
  }

  // ---- every token ends ----

  /** One bound for all tokens below u that can follow. */
  lemma {:induction false} FollowBound(s: Parser, path: seq<nat>, u: nat) returns (n: nat)
    requires Prepared(s) && Generating(s.g)
    ensures forall t: nat :: t < u && MayFollow(s.g, path, t) ==> Ends(s, path, t, n)
  {
    n := 0;
    if u > 0 {
      var n1 := FollowBound(s, path, u - 1);
      var n2 := 0;
      if MayFollow(s.g, path, u - 1) { n2 := FollowEnds(s, path, u - 1); }
      n := if n1 > n2 then n1 else n2;
      forall t: nat | t < u && MayFollow(s.g, path, t) ensures Ends(s, path, t, n) {
        EndsLater(s, path, t, if t == u - 1 then n2 else n1, n);
      }
    }
  }

  /** The machine that stays with a token only reduces. */
  lemma StaysReduces(s: Parser, path: seq<nat>, t: nat, n: nat) returns (below: seq<nat>, r: nat)
    requires Prepared(s) && Allowed(s.g, s.states, s.dec) && Live(s.states, path) && t < s.g.nterminal
    requires n > 0 && !Ends(s, path, t, n)
    ensures r < |s.g.rules| && path == below + s.g.rules[r].rhs && Live(s.states, below + [s.g.rules[r].lhs])
    ensures s.g.rules[r].lhs != s.g.start
    ensures Step1(s.g, s.states, s.dec, Running(path, [t])) == Running(below + [s.g.rules[r].lhs], [t])
    ensures !Ends(s, below + [s.g.rules[r].lhs], t, n - 1)
  {
    PreparedAutomaton(s);
    var k := Step1(s.g, s.states, s.dec, Running(path, [t]));
    Shrinks(s, k, n - 1);
    var i := StateOf(s.states, path);
    assert ActAllowed(s.g, s.states, i, t, s.dec(i, t));
    r := s.dec(i, t).rule;
    below := ReduceTo(s.g, s.states, path, r, [t]);
  }

  /** What the machine does with t it would also do with any token that can follow the stack it arrives at. */
  lemma {:induction false} SameReductions(s: Parser, path: seq<nat>, t: nat, n: nat, u: nat)
    requires Prepared(s) && Allowed(s.g, s.states, s.dec) && Live(s.states, path) && t < s.g.nterminal
    requires !Ends(s, path, t, n) && MayFollow(s.g, Run(s.g, s.states, s.dec, Running(path, [t]), n).path, u)
    ensures MayFollow(s.g, path, u) && !Ends(s, path, u, n)
    decreases n
  {
    if n > 0 {
      var below, r := StaysReduces(s, path, t, n);
      var x := s.g.rules[r].lhs;
      SameReductions(s, below + [x], t, n - 1, u);
      ReduceBefore(s, below, r, u);
      SameStep(s, path, below, r, t, u);
    }
  }

  lemma SameStep(s: Parser, path: seq<nat>, below: seq<nat>, r: nat, t: nat, u: nat)
    requires r < |s.g.rules| && path == below + s.g.rules[r].rhs && Live(s.states, path)
    requires Step1(s.g, s.states, s.dec, Running(path, [t])) == Running(below + [s.g.rules[r].lhs], [t])
    requires s.dec(StateOf(s.states, path), u) == Machine.Reduce(r)
    requires Live(s.states, below + [s.g.rules[r].lhs]) && s.g.rules[r].lhs != s.g.start
    ensures Step1(s.g, s.states, s.dec, Running(path, [u])) == Running(below + [s.g.rules[r].lhs], [u])
  {
    assert path[..|path| - |s.g.rules[r].rhs|] == below;
  }

  /** Termination: the machine is done with every token, whether or not it can come next. */
  lemma TokenEnds(s: Parser, path: seq<nat>, t: nat) returns (n: nat)
    requires Prepared(s) && Generating(s.g) && Allowed(s.g, s.states, s.dec)
    requires Live(s.states, path) && t < s.g.nterminal
    ensures Ends(s, path, t, n)
  {
    n := FollowBound(s, path, s.g.nterminal);
    if !Ends(s, path, t, n) {
      var last := Run(s.g, s.states, s.dec, Running(path, [t]), n).path;
      StaysLive(s, path, t, n);
      var u := SomeFollow(s, last);
      SameReductions(s, path, t, n, u);
      assert false;
    }
  }

  lemma {:induction false} StaysLive(s: Parser, path: seq<nat>, t: nat, n: nat)
    requires Prepared(s) && Allowed(s.g, s.states, s.dec) && Live(s.states, path) && t < s.g.nterminal
    requires !Ends(s, path, t, n)
    ensures Live(s.states, Run(s.g, s.states, s.dec, Running(path, [t]), n).path)
    decreases n
  {
    if n > 0 {
      var below, r := StaysReduces(s, path, t, n);
      StaysLive(s, below + [s.g.rules[r].lhs], t, n - 1);
    }
  }

  // ---- the driver ----

  /** The driver is done with the token after some number of iterations. */
  ghost predicate Finishes(T: D.Tables, depth: nat, s: D.PState, t: nat) {
    exists fuel: nat :: D.ParseToken(T, depth, s, t, fuel).1 != D.Again
  }

  lemma FinishesNow(T: D.Tables, depth: nat, s: D.PState, t: nat)
    requires D.Iterate(T, depth, s, t).1 != D.Again
    ensures Finishes(T, depth, s, t)
  {
    assert D.ParseToken(T, depth, s, t, 1).1 != D.Again;
  }

  lemma FinishesNext(T: D.Tables, depth: nat, s: D.PState, t: nat)
    requires D.Iterate(T, depth, s, t).1 == D.Again && Finishes(T, depth, D.Iterate(T, depth, s, t).0, t)
    ensures Finishes(T, depth, s, t)
  {
    var fuel: nat :| D.ParseToken(T, depth, D.Iterate(T, depth, s, t).0, t, fuel).1 != D.Again;
    D.ParseStep(T, depth, s, t, fuel + 1);
    assert D.ParseToken(T, depth, s, t, fuel + 1).1 != D.Again;
  }

  ghost function ParserOf(x: Ctx, fws: map<Node, set<nat>>): Parser {
    Machine.Parser(x.g, x.states, fws, x.dec)
  }

  /** The driver follows the machine until it is done with the token. */
  lemma {:induction false} DriverFinishes(x: Ctx, fws: map<Node, set<nat>>, depth: nat, s: D.PState, path: seq<nat>,
          t: nat, n: nat)
    requires Ready(x) && Rel(x, s, path) && t < x.g.nterminal && Ends(ParserOf(x, fws), path, t, n)
    ensures Finishes(x.T, depth, s, t)
    decreases n
  {
    var path', c := SimStep(x, depth, s, path, t, []);
    var r := D.Iterate(x.T, depth, s, t);
    assert [t] + [] == [t];
    if r.1 != D.Again {
      FinishesNow(x.T, depth, s, t);
    } else if Rel(x, r.0, path') && c > 0 && Reaches(x.g, x.states, x.dec, Running(path, [t]), c, Running(path', [t])) {
      EndsLeft(ParserOf(x, fws), path, t, n, path', c);
      DriverFinishes(x, fws, depth, r.0, path', t, n - c);
      FinishesNext(x.T, depth, s, t);
    } else {
      AcceptNow(x, depth, r.0, t);
      FinishesNow(x.T, depth, r.0, t);
      FinishesNext(x.T, depth, s, t);
    }
  }

  /** What is left to be done after c steps. */
  lemma EndsLeft(s: Parser, path: seq<nat>, t: nat, n: nat, path': seq<nat>, c: nat)
    requires Ends(s, path, t, n) && Reaches(s.g, s.states, s.dec, Running(path, [t]), c, Running(path', [t]))
    ensures c < n && Ends(s, path', t, n - c)
  {
    RunReaches(s.g, s.states, s.dec, Running(path, [t]), c, Running(path', [t]));
    if c >= n {
      EndsLater(s, path, t, n, c);
      assert false;
    }
    RunPlus(s, Running(path, [t]), c, n - c);
  }

  /** From any point of any run, the driver is done with the token at hand after finitely many iterations. */
  lemma DriverEnds(x: Ctx, fws: map<Node, set<nat>>, depth: nat, w: seq<nat>, n: nat)
    requires Ready(x) && Prepared(ParserOf(x, fws)) && Generating(x.g) && AllTerminal(x.g, w)
    ensures var k := D.After(x.T, depth, D.Start(w), n);
      k.status == D.Going && k.input != [] ==> Finishes(x.T, depth, k.s, k.input[0])
  {
    StartTracks(x, w);
    var path := AfterTracks(x, depth, w, D.Start(w), [], n);
    var k := D.After(x.T, depth, D.Start(w), n);
    if k.status == D.Going && k.input != [] { RunFinishes(x, fws, depth, w, k, path); }
  }

  lemma RunFinishes(x: Ctx, fws: map<Node, set<nat>>, depth: nat, w: seq<nat>, k: D.Run, path: seq<nat>)
    requires Ready(x) && Prepared(ParserOf(x, fws)) && Generating(x.g)
    requires Tracks(x, w, k, path) && k.status == D.Going && k.input != []
    ensures Finishes(x.T, depth, k.s, k.input[0])
  {
    var t := k.input[0];
    if Rel(x, k.s, path) {
      var n := RelEnds(x, fws, k.s, path, t);
      DriverFinishes(x, fws, depth, k.s, path, t, n);
    } else {
      AcceptNow(x, depth, k.s, t);
      FinishesNow(x.T, depth, k.s, t);
    }
  }

  lemma RelEnds(x: Ctx, fws: map<Node, set<nat>>, s: D.PState, path: seq<nat>, t: nat) returns (n: nat)
    requires Ready(x) && Prepared(ParserOf(x, fws)) && Generating(x.g) && Rel(x, s, path) && t < x.g.nterminal
    ensures Ends(ParserOf(x, fws), path, t, n)
  {
    assert Allowed(x.g, x.states, x.dec) by { assert Open(x); }
    n := TokenEnds(ParserOf(x, fws), path, t);
  }
}
