/** Grammars, sentential forms and derivations.

Symbols are numbered as lemon numbers them: terminals are 0 .. nterminal-1 (0 is the
end-of-input marker "$"), nonterminals are nterminal .. nsymbol-1, and nsymbol is the
index of the pseudo-symbol "{default}". */
module Grammars {

  datatype Assoc = LEFT | RIGHT | NONE | UNK

  /** One production. `precsym` is the symbol whose precedence the rule takes, or -1. */
  datatype Rule = Rule(lhs: nat, rhs: seq<nat>, iRule: nat, precsym: int, noCode: bool)

  datatype Grammar = Grammar(
    nterminal: nat,
    nsymbol: nat,
    rules: seq<Rule>,
    start: nat,
    prec: seq<int>,
    assoc: seq<Assoc>)
  {
    /** What the grammar reader guarantees once it has reported no error. */
    ghost predicate Valid() {
      && 0 < nterminal <= nsymbol
      && nterminal <= start < nsymbol
      && (forall r :: 0 <= r < |rules| ==>
            && nterminal <= rules[r].lhs < nsymbol
            && forall k :: 0 <= k < |rules[r].rhs| ==> 0 < rules[r].rhs[k] < nsymbol)
    }

    /** The start symbol is never on a right-hand side (lemon reports an error otherwise). */
    ghost predicate StartIsolated() {
      forall r, k :: 0 <= r < |rules| && 0 <= k < |rules[r].rhs| ==> rules[r].rhs[k] != start
    }
  }

  ghost predicate StepAt(g: Grammar, a: seq<nat>, b: seq<nat>, i: nat, r: nat) {
    && i < |a| && r < |g.rules|
    && g.rules[r].lhs == a[i]
    && b == a[..i] + g.rules[r].rhs + a[i+1..]
  }

  /** One rewriting step. */
  ghost predicate Step(g: Grammar, a: seq<nat>, b: seq<nat>) {
    exists i, r :: StepAt(g, a, b, i, r)
  }

  ghost predicate DerivesIn(g: Grammar, n: nat, a: seq<nat>, b: seq<nat>) {
    if n == 0 then a == b
    else exists m :: Step(g, a, m) && DerivesIn(g, n - 1, m, b)
  }

  /** `a` derives `b` in any number of steps. */
  ghost predicate Derives(g: Grammar, a: seq<nat>, b: seq<nat>) {
    exists n: nat :: DerivesIn(g, n, a, b)
  }

  lemma DerivesRefl(g: Grammar, a: seq<nat>)
    ensures Derives(g, a, a)
  {
    assert DerivesIn(g, 0, a, a);
  }

  lemma {:induction false} DerivesInTrans(g: Grammar, n: nat, m: nat, a: seq<nat>, b: seq<nat>, c: seq<nat>)
    requires DerivesIn(g, n, a, b) && DerivesIn(g, m, b, c)
    ensures DerivesIn(g, n + m, a, c)
  {
    if n > 0 {
      var x :| Step(g, a, x) && DerivesIn(g, n - 1, x, b);
      DerivesInTrans(g, n - 1, m, x, b, c);
    }
  }

  lemma DerivesTrans(g: Grammar, a: seq<nat>, b: seq<nat>, c: seq<nat>)
    requires Derives(g, a, b) && Derives(g, b, c)
    ensures Derives(g, a, c)
  {
    var n: nat :| DerivesIn(g, n, a, b);
    var m: nat :| DerivesIn(g, m, b, c);
    DerivesInTrans(g, n, m, a, b, c);
  }

  lemma StepContext(g: Grammar, u: seq<nat>, a: seq<nat>, b: seq<nat>, v: seq<nat>)
    requires Step(g, a, b)
    ensures Step(g, u + a + v, u + b + v)
  {
    var i: nat, r: nat :| StepAt(g, a, b, i, r);
    var a', b', rhs := u + a + v, u + b + v, g.rules[r].rhs;
    assert a'[..|u| + i] == u + a[..i];
    assert a'[|u| + i + 1..] == a[i+1..] + v;
    assert b' == (u + a[..i]) + rhs + (a[i+1..] + v);
    assert StepAt(g, a', b', |u| + i, r);
  }

  lemma {:induction false} DerivesInContext(g: Grammar, n: nat, u: seq<nat>, a: seq<nat>, b: seq<nat>, v: seq<nat>)
    requires DerivesIn(g, n, a, b)
    ensures DerivesIn(g, n, u + a + v, u + b + v)
  {
    if n > 0 {
      var x :| Step(g, a, x) && DerivesIn(g, n - 1, x, b);
      StepContext(g, u, a, x, v);
      DerivesInContext(g, n - 1, u, x, b, v);
    }
  }

  lemma DerivesContext(g: Grammar, u: seq<nat>, a: seq<nat>, b: seq<nat>, v: seq<nat>)
    requires Derives(g, a, b)
    ensures Derives(g, u + a + v, u + b + v)
  {
    var n: nat :| DerivesIn(g, n, a, b);
    DerivesInContext(g, n, u, a, b, v);
  }

  lemma DerivesConcat(g: Grammar, a: seq<nat>, b: seq<nat>, c: seq<nat>, d: seq<nat>)
    requires Derives(g, a, b) && Derives(g, c, d)
    ensures Derives(g, a + c, b + d)
  {
    DerivesContext(g, [], a, b, c);
    DerivesContext(g, b, c, d, []);
    assert [] + a + c == a + c && [] + b + c == b + c;
    assert b + c + [] == b + c && b + d + [] == b + d;
    DerivesTrans(g, a + c, b + c, b + d);
  }

  lemma DerivesRule(g: Grammar, r: nat)
    requires r < |g.rules|
    ensures Derives(g, [g.rules[r].lhs], g.rules[r].rhs)
  {
    var a, b := [g.rules[r].lhs], g.rules[r].rhs;
    assert StepAt(g, a, b, 0, r) by { assert a[..0] + b + a[1..] == b; }
    assert Step(g, a, b);
    assert DerivesIn(g, 0, b, b);
    assert DerivesIn(g, 1, a, b);
  }

  /** Applying a rule to the right end of a form: the step a reduction undoes. */
  lemma DerivesUnreduce(g: Grammar, u: seq<nat>, r: nat, w: seq<nat>)
    requires r < |g.rules|
    requires Derives(g, u + g.rules[r].rhs, w)
    ensures Derives(g, u + [g.rules[r].lhs], w)
  {
    DerivesRule(g, r);
    var a, b := [g.rules[r].lhs], g.rules[r].rhs;
    DerivesContext(g, u, a, b, []);
    assert u + a + [] == u + a && u + b + [] == u + b;
    DerivesTrans(g, u + a, u + b, w);
  }

  /** A step inside a concatenation is a step of the left or of the right part. */
  lemma StepSplit(g: Grammar, a: seq<nat>, c: seq<nat>, x: seq<nat>)
    returns (left: bool, y: seq<nat>)
    requires Step(g, a + c, x)
    ensures left ==> x == y + c && Step(g, a, y)
    ensures !left ==> x == a + y && Step(g, c, y)
  {
    var i: nat, r: nat :| StepAt(g, a + c, x, i, r);
    var rhs := g.rules[r].rhs;
    left := i < |a|;
    if left {
      y := a[..i] + rhs + a[i+1..];
      assert (a + c)[..i] == a[..i];
      assert (a + c)[i+1..] == a[i+1..] + c;
      assert StepAt(g, a, y, i, r);
    } else {
      var j := i - |a|;
      y := c[..j] + rhs + c[j+1..];
      assert (a + c)[..i] == a + c[..j];
      assert (a + c)[i+1..] == c[j+1..];
      assert StepAt(g, c, y, j, r);
    }
  }

  /** A derivation from a concatenation splits, and the steps are shared out. */
  lemma {:induction false} DerivesInSplit(g: Grammar, n: nat, a: seq<nat>, c: seq<nat>, w: seq<nat>)
    returns (n1: nat, n2: nat, w1: seq<nat>, w2: seq<nat>)
    requires DerivesIn(g, n, a + c, w)
    ensures n1 + n2 == n && w == w1 + w2
    ensures DerivesIn(g, n1, a, w1) && DerivesIn(g, n2, c, w2)
  {
    if n == 0 {
      n1, n2, w1, w2 := 0, 0, a, c;
    } else {
      var x :| Step(g, a + c, x) && DerivesIn(g, n - 1, x, w);
      var left, y := StepSplit(g, a, c, x);
      if left {
        n1, n2, w1, w2 := DerivesInSplit(g, n - 1, y, c, w);
        n1 := n1 + 1;
      } else {
        n1, n2, w1, w2 := DerivesInSplit(g, n - 1, a, y, w);
        n2 := n2 + 1;
      }
    }
  }

  /** A terminal derives only itself. */
  lemma TerminalDerivesItself(g: Grammar, n: nat, t: nat, w: seq<nat>)
    requires g.Valid() && t < g.nterminal
    requires DerivesIn(g, n, [t], w)
    ensures n == 0 && w == [t]
  {
    if n > 0 {
      assert false;
    }
  }

  /** The first step of a derivation from one nonterminal is one of its rules. */
  lemma FirstRule(g: Grammar, n: nat, x: nat, w: seq<nat>) returns (r: nat)
    requires n > 0 && DerivesIn(g, n, [x], w)
    ensures r < |g.rules| && g.rules[r].lhs == x && DerivesIn(g, n - 1, g.rules[r].rhs, w)
  {
    var m :| Step(g, [x], m) && DerivesIn(g, n - 1, m, w);
    var i: nat, r': nat :| StepAt(g, [x], m, i, r');
    r := r';
    assert m == g.rules[r].rhs by { assert [x][..0] + g.rules[r].rhs + [x][1..] == g.rules[r].rhs; }
  }
}
