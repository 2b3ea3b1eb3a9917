/** Nullable nonterminals and FIRST sets (FindFirstSets), exact against derivations. */
module FirstSets {
  import opened Grammars

  /** The form derives the empty string. */
  ghost predicate Nullable(g: Grammar, form: seq<nat>) {
    Derives(g, form, [])
  }

  /** The form derives some form that begins with `t`. */
  ghost predicate Begins(g: Grammar, form: seq<nat>, t: nat) {
    exists rest :: Derives(g, form, [t] + rest)
  }

  predicate AllLambda(lam: seq<bool>, form: seq<nat>) {
    forall k :: 0 <= k < |form| ==> form[k] < |lam| && lam[form[k]]
  }

  /** FIRST of a form, read off the computed tables. */
  function FirstOf(g: Grammar, lam: seq<bool>, first: seq<set<nat>>, form: seq<nat>): set<nat>
    requires |lam| == |first|
  {
    if form == [] || form[0] >= |lam| then {}
    else if form[0] < g.nterminal then {form[0]}
    else first[form[0]] + if lam[form[0]] then FirstOf(g, lam, first, form[1..]) else {}
  }

  // ---- what the two fixpoints mean ----

  ghost predicate LambdaSound(g: Grammar, lam: seq<bool>) {
    && |lam| == g.nsymbol
    && forall x {:trigger lam[x]} :: 0 <= x < |lam| && lam[x] ==> x >= g.nterminal && Nullable(g, [x])
  }

  predicate LambdaRule(g: Grammar, lam: seq<bool>, r: nat)
    requires r < |g.rules|
  {
    AllLambda(lam, g.rules[r].rhs) ==> g.rules[r].lhs < |lam| && lam[g.rules[r].lhs]
  }

  ghost predicate LambdaExact(g: Grammar, lam: seq<bool>) {
    && |lam| == g.nsymbol
    && forall x {:trigger lam[x]} :: 0 <= x < |lam| ==> (lam[x] <==> Nullable(g, [x]))
  }

  ghost predicate FirstSound(g: Grammar, first: seq<set<nat>>) {
    && |first| == g.nsymbol
    && forall x, t :: 0 <= x < |first| && t in first[x] ==> t < g.nterminal && Begins(g, [x], t)
  }

  /** Position k of rule r has been taken into the FIRST set of the left side. */
  predicate Taken(g: Grammar, first: seq<set<nat>>, r: nat, k: nat)
    requires g.nsymbol == |first| && r < |g.rules| && k < |g.rules[r].rhs|
  {
    var lhs, x := g.rules[r].lhs, g.rules[r].rhs[k];
    && lhs < |first| && x < |first|
    && if x < g.nterminal then x in first[lhs] else first[x] <= first[lhs]
  }

  predicate FirstRuleClosed(g: Grammar, lam: seq<bool>, first: seq<set<nat>>, r: nat)
    requires g.nsymbol == |first| && r < |g.rules|
  {
    forall k :: 0 <= k < |g.rules[r].rhs| && AllLambda(lam, g.rules[r].rhs[..k]) ==> Taken(g, first, r, k)
  }

  ghost predicate FirstExact(g: Grammar, first: seq<set<nat>>) {
    && |first| == g.nsymbol
    && forall x, t: nat :: g.nterminal <= x < |first| && t < g.nterminal ==> (t in first[x] <==> Begins(g, [x], t))
  }

  // ---- soundness steps ----

  lemma {:induction false} AllLambdaNullable(g: Grammar, lam: seq<bool>, form: seq<nat>)
    requires LambdaSound(g, lam) && AllLambda(lam, form)
    ensures Nullable(g, form)
  {
    if form == [] {
      DerivesRefl(g, form);
    } else {
      assert lam[form[0]];
      AllLambdaNullable(g, lam, form[1..]);
      var none: seq<nat> := [];
      DerivesConcat(g, [form[0]], none, form[1..], none);
      assert [form[0]] + form[1..] == form && none + none == none;
    }
  }

  lemma LambdaStep(g: Grammar, lam: seq<bool>, r: nat)
    requires LambdaSound(g, lam) && r < |g.rules| && AllLambda(lam, g.rules[r].rhs)
    ensures Nullable(g, [g.rules[r].lhs])
  {
    AllLambdaNullable(g, lam, g.rules[r].rhs);
    DerivesRule(g, r);
    DerivesTrans(g, [g.rules[r].lhs], g.rules[r].rhs, []);
  }

  /** A nullable prefix may be skipped: the form begins with whatever the rest begins with. */
  lemma BeginsAfter(g: Grammar, u: seq<nat>, v: seq<nat>, t: nat)
    requires Nullable(g, u) && Begins(g, v, t)
    ensures Begins(g, u + v, t)
  {
    var rest :| Derives(g, v, [t] + rest);
    DerivesConcat(g, u, [], v, [t] + rest);
    assert [] + ([t] + rest) == [t] + rest;
  }

  lemma BeginsExtend(g: Grammar, u: seq<nat>, v: seq<nat>, t: nat)
    requires Begins(g, u, t)
    ensures Begins(g, u + v, t)
  {
    var rest :| Derives(g, u, [t] + rest);
    DerivesRefl(g, v);
    DerivesConcat(g, u, [t] + rest, v, v);
    assert ([t] + rest) + v == [t] + (rest + v);
  }

  lemma BeginsItself(g: Grammar, t: nat)
    ensures Begins(g, [t], t)
  {
    DerivesRefl(g, [t]);
    assert [t] == [t] + [];
  }

  lemma BeginsByRule(g: Grammar, r: nat, k: nat, t: nat)
    requires r < |g.rules| && k < |g.rules[r].rhs|
    requires Nullable(g, g.rules[r].rhs[..k]) && Begins(g, [g.rules[r].rhs[k]], t)
    ensures Begins(g, [g.rules[r].lhs], t)
  {
    var rhs := g.rules[r].rhs;
    BeginsExtend(g, [rhs[k]], rhs[k+1..], t);
    BeginsAfter(g, rhs[..k], [rhs[k]] + rhs[k+1..], t);
    assert rhs[..k] + ([rhs[k]] + rhs[k+1..]) == rhs;
    var rest :| Derives(g, rhs, [t] + rest);
    DerivesRule(g, r);
    DerivesTrans(g, [g.rules[r].lhs], rhs, [t] + rest);
  }

  // ---- completeness: a closed table has seen every derivation ----

  lemma {:induction false} LambdaComplete(g: Grammar, lam: seq<bool>, n: nat, form: seq<nat>)
    requires g.Valid() && |lam| == g.nsymbol
    requires forall r :: 0 <= r < |g.rules| ==> LambdaRule(g, lam, r)
    requires DerivesIn(g, n, form, [])
    ensures AllLambda(lam, form)
  {
    if n > 0 {
      var x :| Step(g, form, x) && DerivesIn(g, n - 1, x, []);
      LambdaComplete(g, lam, n - 1, x);
      var i: nat, r: nat :| StepAt(g, form, x, i, r);
      LambdaUnstep(g, lam, form, x, i, r);
    }
  }

  /** If everything that a step leaves is lambda, so was everything before it. */
  lemma LambdaUnstep(g: Grammar, lam: seq<bool>, form: seq<nat>, x: seq<nat>, i: nat, r: nat)
    requires StepAt(g, form, x, i, r) && LambdaRule(g, lam, r) && AllLambda(lam, x)
    ensures AllLambda(lam, form)
  {
    var rhs := g.rules[r].rhs;
    assert forall k :: 0 <= k < |rhs| ==> x[i + k] == rhs[k];
    assert AllLambda(lam, rhs);
    forall k | 0 <= k < |form| ensures form[k] < |lam| && lam[form[k]] {
      if k < i {
        assert x[k] == form[k];
      } else if k > i {
        assert x[k - 1 + |rhs|] == form[k];
      }
    }
  }

  lemma {:induction false} FirstOfConcat(g: Grammar, lam: seq<bool>, first: seq<set<nat>>, u: seq<nat>, v: seq<nat>)
    requires |lam| == |first| && (forall x :: 0 <= x < g.nterminal && x < |lam| ==> !lam[x])
    ensures FirstOf(g, lam, first, u + v)
         == FirstOf(g, lam, first, u) + if AllLambda(lam, u) then FirstOf(g, lam, first, v) else {}
  {
    if u == [] {
      assert u + v == v;
    } else {
      assert (u + v)[1..] == u[1..] + v;
      FirstOfConcat(g, lam, first, u[1..], v);
      assert AllLambda(lam, u) <==> u[0] < |lam| && lam[u[0]] && AllLambda(lam, u[1..]) by {
        assert u == [u[0]] + u[1..];
      }
    }
  }

  /** FIRST of a right-hand side is inside FIRST of the left-hand side. */
  lemma {:induction false} FirstOfRule(g: Grammar, lam: seq<bool>, first: seq<set<nat>>, r: nat, k: nat)
    requires g.Valid() && |lam| == |first| == g.nsymbol && r < |g.rules| && k <= |g.rules[r].rhs|
    requires FirstRuleClosed(g, lam, first, r) && AllLambda(lam, g.rules[r].rhs[..k])
    ensures FirstOf(g, lam, first, g.rules[r].rhs[k..]) <= first[g.rules[r].lhs]
    decreases |g.rules[r].rhs| - k
  {
    var rhs := g.rules[r].rhs;
    if k < |rhs| {
      assert Taken(g, first, r, k);
      assert rhs[k..][0] == rhs[k] && rhs[k..][1..] == rhs[k+1..];
      if lam[rhs[k]] {
        assert rhs[..k+1] == rhs[..k] + [rhs[k]];
        FirstOfRule(g, lam, first, r, k + 1);
      }
    }
  }

  lemma {:induction false} FirstComplete(g: Grammar, lam: seq<bool>, first: seq<set<nat>>, n: nat, form: seq<nat>,
          t: nat, rest: seq<nat>)
    requires g.Valid() && |lam| == |first| == g.nsymbol && t < g.nterminal
    requires forall x :: 0 <= x < g.nterminal ==> !lam[x]
    requires forall r :: 0 <= r < |g.rules| ==> LambdaRule(g, lam, r) && FirstRuleClosed(g, lam, first, r)
    requires DerivesIn(g, n, form, [t] + rest)
    ensures t in FirstOf(g, lam, first, form)
  {
    if n > 0 {
      var x :| Step(g, form, x) && DerivesIn(g, n - 1, x, [t] + rest);
      FirstComplete(g, lam, first, n - 1, x, t, rest);
      FirstOfStep(g, lam, first, form, x);
    }
  }

  lemma FirstOfStep(g: Grammar, lam: seq<bool>, first: seq<set<nat>>, a: seq<nat>, b: seq<nat>)
    requires g.Valid() && |lam| == |first| == g.nsymbol
    requires forall x :: 0 <= x < g.nterminal ==> !lam[x]
    requires forall r :: 0 <= r < |g.rules| ==> LambdaRule(g, lam, r) && FirstRuleClosed(g, lam, first, r)
    requires Step(g, a, b)
    ensures FirstOf(g, lam, first, b) <= FirstOf(g, lam, first, a)
  {
    var i: nat, r: nat :| StepAt(g, a, b, i, r);
    var u, v, lhs, rhs := a[..i], a[i+1..], g.rules[r].lhs, g.rules[r].rhs;
    assert a == u + ([lhs] + v) && b == u + (rhs + v);
    FirstOfConcat(g, lam, first, u, [lhs] + v);
    FirstOfConcat(g, lam, first, u, rhs + v);
    FirstOfHead(g, lam, first, r, v);
  }

  lemma FirstOfHead(g: Grammar, lam: seq<bool>, first: seq<set<nat>>, r: nat, v: seq<nat>)
    requires g.Valid() && |lam| == |first| == g.nsymbol && r < |g.rules|
    requires forall x :: 0 <= x < g.nterminal ==> !lam[x]
    requires LambdaRule(g, lam, r) && FirstRuleClosed(g, lam, first, r)
    ensures FirstOf(g, lam, first, g.rules[r].rhs + v) <= FirstOf(g, lam, first, [g.rules[r].lhs] + v)
  {
    var lhs, rhs := g.rules[r].lhs, g.rules[r].rhs;
    FirstOfRule(g, lam, first, r, 0);
    assert rhs[0..] == rhs;
    FirstOfConcat(g, lam, first, rhs, v);
    assert ([lhs] + v)[1..] == v;
  }

  lemma LambdaFixpointExact(g: Grammar, lam: seq<bool>)
    requires g.Valid() && LambdaSound(g, lam)
    requires forall r :: 0 <= r < |g.rules| ==> LambdaRule(g, lam, r)
    ensures LambdaExact(g, lam)
  {
    forall x | 0 <= x < |lam| && Nullable(g, [x]) ensures lam[x] {
      var n: nat :| DerivesIn(g, n, [x], []);
      LambdaComplete(g, lam, n, [x]);
      assert [x][0] == x;
    }
  }

  lemma FirstFixpointExact(g: Grammar, lam: seq<bool>, first: seq<set<nat>>)
    requires g.Valid() && LambdaSound(g, lam) && FirstSound(g, first)
    requires forall r :: 0 <= r < |g.rules| ==> LambdaRule(g, lam, r) && FirstRuleClosed(g, lam, first, r)
    ensures FirstExact(g, first)
  {
    forall x, t: nat | g.nterminal <= x < |first| && t < g.nterminal && Begins(g, [x], t) ensures t in first[x] {
      var rest :| Derives(g, [x], [t] + rest);
      var n: nat :| DerivesIn(g, n, [x], [t] + rest);
      FirstComplete(g, lam, first, n, [x], t, rest);
      assert [x][0] == x && [x][1..] == [];
    }
  }

  /** FIRST of any form, read off exact tables, is exact. */
  lemma FirstOfExact(g: Grammar, lam: seq<bool>, first: seq<set<nat>>, form: seq<nat>, t: nat)
    requires g.Valid() && LambdaExact(g, lam) && FirstExact(g, first)
    requires t < g.nterminal && forall k :: 0 <= k < |form| ==> form[k] < g.nsymbol
    ensures t in FirstOf(g, lam, first, form) <==> Begins(g, form, t)
  {
    if t in FirstOf(g, lam, first, form) {
      FirstOfBegins(g, lam, first, form, t);
    }
    if Begins(g, form, t) {
      var rest :| Derives(g, form, [t] + rest);
      var n: nat :| DerivesIn(g, n, form, [t] + rest);
      BeginsFirstOf(g, lam, first, n, form, t, rest);
    }
  }

  lemma {:induction false} FirstOfBegins(g: Grammar, lam: seq<bool>, first: seq<set<nat>>, form: seq<nat>, t: nat)
    requires g.Valid() && LambdaExact(g, lam) && FirstExact(g, first)
    requires t < g.nterminal && t in FirstOf(g, lam, first, form)
    ensures Begins(g, form, t)
  {
    var x, tail := form[0], form[1..];
    assert form == [x] + tail;
    if x < g.nterminal {
      BeginsItself(g, t);
      BeginsExtend(g, [x], tail, t);
    } else if t in first[x] {
      BeginsExtend(g, [x], tail, t);
    } else {
      FirstOfBegins(g, lam, first, tail, t);
      BeginsAfter(g, [x], tail, t);
    }
  }

  lemma {:induction false} BeginsFirstOf(g: Grammar, lam: seq<bool>, first: seq<set<nat>>, n: nat, form: seq<nat>,
          t: nat, rest: seq<nat>)
    requires g.Valid() && LambdaExact(g, lam) && FirstExact(g, first)
    requires t < g.nterminal && forall k :: 0 <= k < |form| ==> form[k] < g.nsymbol
    requires DerivesIn(g, n, form, [t] + rest)
    ensures t in FirstOf(g, lam, first, form)
    decreases |form|
  {
    if form == [] {
      EmptyDerivesEmpty(g, n, [t] + rest);
    } else {
      var x, tail := form[0], form[1..];
      assert form == [x] + tail;
      var n1, n2, w1, w2 := DerivesInSplit(g, n, [x], tail, [t] + rest);
      if w1 == [] {
        assert Nullable(g, [x]);
        if x < g.nterminal { TerminalDerivesItself(g, n1, x, w1); }
        assert w2 == [t] + rest;
        BeginsFirstOf(g, lam, first, n2, tail, t, rest);
      } else {
        assert w1 == [t] + w1[1..] by { assert ([t] + rest)[0] == (w1 + w2)[0] == w1[0]; }
        if x < g.nterminal { TerminalDerivesItself(g, n1, x, w1); }
        assert Begins(g, [x], t);
      }
    }
  }

  lemma EmptyDerivesEmpty(g: Grammar, n: nat, w: seq<nat>)
    requires DerivesIn(g, n, [], w)
    ensures w == []
  {
    if n > 0 {
      assert false;
    }
  }

  /** A form of which every symbol is flagged is nullable, and conversely. */
  lemma AllLambdaExact(g: Grammar, lam: seq<bool>, form: seq<nat>)
    requires g.Valid() && LambdaExact(g, lam) && forall k :: 0 <= k < |form| ==> form[k] < g.nsymbol
    ensures AllLambda(lam, form) <==> Nullable(g, form)
  {
    forall r | 0 <= r < |g.rules| && AllLambda(lam, g.rules[r].rhs) ensures LambdaRule(g, lam, r) {
      SoundFromExact(g, lam);
      LambdaStep(g, lam, r);
    }
    if Nullable(g, form) {
      var n: nat :| DerivesIn(g, n, form, []);
      LambdaComplete(g, lam, n, form);
    }
    if AllLambda(lam, form) {
      SoundFromExact(g, lam);
      AllLambdaNullable(g, lam, form);
    }
  }

  lemma SoundFromExact(g: Grammar, lam: seq<bool>)
    requires g.Valid() && LambdaExact(g, lam)
    ensures LambdaSound(g, lam)
  {
    forall x | 0 <= x < |lam| && lam[x] ensures x >= g.nterminal {
      var n: nat :| DerivesIn(g, n, [x], []);
      if x < g.nterminal { TerminalDerivesItself(g, n, x, []); }
    }
  }

  // ---- the algorithm ----

  ghost function NotLambda(lam: seq<bool>): set<int> {
    set x | 0 <= x < |lam| && !lam[x]
  }

  /** All (nonterminal, terminal) pairs still missing from the FIRST sets. */
  ghost function MissingFirst(g: Grammar, first: seq<set<nat>>): set<(int, int)> {
    set x, t | 0 <= x < |first| && 0 <= t < g.nterminal && t !in first[x] :: (x, t)
  }

  /** First loop of FindFirstSets: sweep over the rules until no flag changes. */
  method FindLambdas(g: Grammar) returns (lambda: seq<bool>)
    requires g.Valid()
    ensures LambdaExact(g, lambda)
    ensures forall r :: 0 <= r < |g.rules| ==> LambdaRule(g, lambda, r)
  {
    var lam := new bool[g.nsymbol](_ => false);
    var progress := true;
    while progress
      invariant LambdaSound(g, lam[..])
      invariant !progress ==> forall r :: 0 <= r < |g.rules| ==> LambdaRule(g, lam[..], r)
      decreases NotLambda(lam[..]), progress
    {
      progress := false;
      ghost var before := lam[..];
      for r := 0 to |g.rules|
        invariant LambdaSound(g, lam[..])
        invariant NotLambda(lam[..]) <= NotLambda(before)
        invariant progress ==> NotLambda(lam[..]) < NotLambda(before)
        invariant !progress ==> lam[..] == before && forall q :: 0 <= q < r ==> LambdaRule(g, lam[..], q)
      {
        var rp := g.rules[r];
        if !lam[rp.lhs] {
          var i := 0;
          while i < |rp.rhs| && lam[rp.rhs[i]]
            invariant 0 <= i <= |rp.rhs|
            invariant AllLambda(lam[..], rp.rhs[..i])
          {
            i := i + 1;
          }
          if i == |rp.rhs| {
            assert rp.rhs[..i] == rp.rhs;
            LambdaStep(g, lam[..], r);
            assert rp.lhs in NotLambda(lam[..]);
            ghost var mid := lam[..];
            lam[rp.lhs] := true;
            assert lam[..] == mid[rp.lhs := true];
            assert rp.lhs !in NotLambda(lam[..]);
            progress := true;
          } else {
            assert !lam[..][rp.rhs[i]];
          }
        }
      }
    }
    lambda := lam[..];
    LambdaFixpointExact(g, lambda);
  }

  /** FindFirstSets: both fixpoints. */
  method FindFirstSets(g: Grammar) returns (lambda: seq<bool>, firstset: seq<set<nat>>)
    requires g.Valid()
    ensures LambdaExact(g, lambda)
    ensures FirstExact(g, firstset)
    ensures forall x, t :: 0 <= x < |firstset| && t in firstset[x] ==> t < g.nterminal
  {
    lambda := FindLambdas(g);
    SoundFromExact(g, lambda);
    var first := new set<nat>[g.nsymbol](_ => {});
    var progress := true;
    while progress
      invariant FirstSound(g, first[..])
      invariant !progress ==> forall r :: 0 <= r < |g.rules| ==> FirstRuleClosed(g, lambda, first[..], r)
      decreases MissingFirst(g, first[..]), progress
    {
      progress := false;
      ghost var before := first[..];
      for r := 0 to |g.rules|
        invariant FirstSound(g, first[..])
        invariant MissingFirst(g, first[..]) <= MissingFirst(g, before)
        invariant progress ==> MissingFirst(g, first[..]) < MissingFirst(g, before)
        invariant !progress ==> first[..] == before && forall q ::
          0 <= q < r ==> FirstRuleClosed(g, lambda, first[..], q)
      {
        WithFirstsSound(g, lambda, first[..], r);
        var change := AddRuleFirsts(g, lambda, first, r);
        progress := progress || change;
      }
    }
    firstset := first[..];
    FirstFixpointExact(g, lambda, firstset);
  }

  /** The table after rule r has been taken into account: its left-hand side gains the firsts of its right-hand
      side. */
  function WithFirsts(g: Grammar, lam: seq<bool>, first: seq<set<nat>>, r: nat): seq<set<nat>>
    requires r < |g.rules| && |lam| == |first| && g.rules[r].lhs < |first|
  {
    var s := g.rules[r].lhs;
    first[s := first[s] + FirstOf(g, lam, first, g.rules[r].rhs)]
  }

  /** Nothing but the entry of s has changed, and that has grown. */
  ghost predicate OnlyGrown(before: seq<set<nat>>, after: seq<set<nat>>, s: nat) {
    s < |before| == |after| && before[s] <= after[s] && after == before[s := after[s]]
  }

  /** The inner loop of FindFirstSets over one right-hand side. */
  method AddRuleFirsts(g: Grammar, lambda: seq<bool>, first: array<set<nat>>, r: nat) returns (progress: bool)
    requires g.Valid() && |lambda| == first.Length == g.nsymbol && r < |g.rules|
    modifies first
    ensures first[..] == WithFirsts(g, lambda, old(first[..]), r)
    ensures progress <==> first[..] != old(first[..])
  {
    progress := false;
    var s1, rhs := g.rules[r].lhs, g.rules[r].rhs;
    ghost var before := first[..];
    var i := 0;
    ghost var tail := FirstOf(g, lambda, before, rhs);
    assert rhs[0..] == rhs;
    while i < |rhs|
      invariant 0 <= i <= |rhs| && tail == FirstOf(g, lambda, before, rhs[i..])
      invariant OnlyGrown(before, first[..], s1) && (!progress <==> first[..] == before)
      invariant before[s1] + FirstOf(g, lambda, before, rhs) == first[s1] + tail
    {
      var s2 := rhs[i];
      FirstOfNext(g, lambda, before, rhs, i);
      ghost var now := first[..];
      if s2 < g.nterminal {
        if s2 !in first[s1] {
          first[s1] := first[s1] + {s2};
          progress := true;
          assert first[..] == now[s1 := now[s1] + {s2}];
        }
        tail := {};
        break;
      } else if s1 == s2 {
        if !lambda[s1] { tail := {}; break; }
      } else {
        assert first[s2] == before[s2] by { assert now == before[s1 := now[s1]]; }
        if !(first[s2] <= first[s1]) {
          first[s1] := first[s1] + first[s2];
          progress := true;
          assert first[..] == now[s1 := now[s1] + before[s2]];
        }
        if !lambda[s2] { tail := {}; break; }
      }
      i := i + 1;
      tail := FirstOf(g, lambda, before, rhs[i..]);
    }
    GrownTo(before, first[..], s1, FirstOf(g, lambda, before, rhs));
  }

  lemma GrownTo(before: seq<set<nat>>, after: seq<set<nat>>, s: nat, add: set<nat>)
    requires OnlyGrown(before, after, s) && before[s] + add == after[s]
    ensures after == before[s := before[s] + add]
  {
  }

  lemma FirstOfNext(g: Grammar, lam: seq<bool>, first: seq<set<nat>>, rhs: seq<nat>, i: nat)
    requires |lam| == |first| && i < |rhs| && rhs[i] < |lam|
    ensures FirstOf(g, lam, first, rhs[i..]) ==
      if rhs[i] < g.nterminal then {rhs[i]}
      else first[rhs[i]] + if lam[rhs[i]] then FirstOf(g, lam, first, rhs[i + 1..]) else {}
  {
    assert rhs[i..][1..] == rhs[i + 1..];
  }

  /** Taking a rule into account keeps the table sound, and loses no pair; when nothing changes the rule is closed. */
  lemma WithFirstsSound(g: Grammar, lam: seq<bool>, first: seq<set<nat>>, r: nat)
    requires g.Valid() && LambdaSound(g, lam) && FirstSound(g, first) && r < |g.rules|
    ensures var f := WithFirsts(g, lam, first, r);
      && FirstSound(g, f) && MissingFirst(g, f) <= MissingFirst(g, first)
      && (f != first ==> MissingFirst(g, f) < MissingFirst(g, first))
      && (f == first ==> FirstRuleClosed(g, lam, first, r))
  {
    var s, rhs := g.rules[r].lhs, g.rules[r].rhs;
    var add := FirstOf(g, lam, first, rhs);
    assert rhs[0..] == rhs;
    forall t | t in add ensures t < g.nterminal && Begins(g, [s], t) { FirstOfSound(g, lam, first, r, 0, t); }
    GrowFirst(g, first, s, add);
    assert add <= WithFirsts(g, lam, first, r)[s];
    if add <= first[s] {
      assert first[s] + add == first[s];
      FirstOfCloses(g, lam, first, r);
    }
  }

  lemma {:induction false} FirstOfSound(g: Grammar, lam: seq<bool>, first: seq<set<nat>>, r: nat, i: nat, t: nat)
    requires g.Valid() && LambdaSound(g, lam) && FirstSound(g, first) && r < |g.rules| && i <= |g.rules[r].rhs|
    requires AllLambda(lam, g.rules[r].rhs[..i]) && t in FirstOf(g, lam, first, g.rules[r].rhs[i..])
    ensures t < g.nterminal && Begins(g, [g.rules[r].lhs], t)
    decreases |g.rules[r].rhs| - i
  {
    var rhs := g.rules[r].rhs;
    if i < |rhs| {
      FirstOfNext(g, lam, first, rhs, i);
      AllLambdaNullable(g, lam, rhs[..i]);
      if rhs[i] < g.nterminal {
        BeginsItself(g, t);
        BeginsByRule(g, r, i, t);
      } else if t in first[rhs[i]] {
        BeginsByRule(g, r, i, t);
      } else {
        assert rhs[..i + 1] == rhs[..i] + [rhs[i]];
        FirstOfSound(g, lam, first, r, i + 1, t);
      }
    }
  }

  lemma FirstOfCloses(g: Grammar, lam: seq<bool>, first: seq<set<nat>>, r: nat)
    requires g.Valid() && |lam| == |first| == g.nsymbol && r < |g.rules| && forall x :: 0 <= x < g.nterminal ==> !lam[x]
    requires FirstOf(g, lam, first, g.rules[r].rhs) <= first[g.rules[r].lhs]
    ensures FirstRuleClosed(g, lam, first, r)
  {
    var rhs := g.rules[r].rhs;
    forall k | 0 <= k < |rhs| && AllLambda(lam, rhs[..k]) ensures Taken(g, first, r, k) {
      assert rhs == rhs[..k] + rhs[k..];
      FirstOfConcat(g, lam, first, rhs[..k], rhs[k..]);
      FirstOfNext(g, lam, first, rhs, k);
    }
  }

  /** Adding elements that the symbol can begin with keeps the table sound and never loses a pair. */
  lemma GrowFirst(g: Grammar, first: seq<set<nat>>, s: nat, add: set<nat>)
    requires FirstSound(g, first) && s < |first|
    requires forall t :: t in add ==> t < g.nterminal && Begins(g, [s], t)
    ensures var f := first[s := first[s] + add];
      && FirstSound(g, f)
      && MissingFirst(g, f) <= MissingFirst(g, first)
      && (!(add <= first[s]) ==> MissingFirst(g, f) < MissingFirst(g, first))
  {
    var f := first[s := first[s] + add];
    if !(add <= first[s]) {
      var t :| t in add && t !in first[s];
      assert (s, t) in MissingFirst(g, first) && (s, t) !in MissingFirst(g, f);
    }
  }
}
