/** Building the closure of a configuration list (Configlist_closure), with the follow-set seeds and
the propagation links that lemon records on the way. */
module ConfigLists {
  import opened Grammars
  import opened FirstSets
  import opened Automata

  /** The list under construction: configurations in order of discovery, with their follow-set
      seeds and their forward propagation links. */
  datatype Closure = Closure(cfp: seq<Config>, fws: map<Config, set<nat>>, fplp: map<Config, seq<Config>>)

  /** The FIRST tables a closure is computed from. */
  datatype Firsts = Firsts(g: Grammar, lam: seq<bool>, first: seq<set<nat>>)
  {
    ghost predicate Exact() {
      g.Valid() && LambdaExact(g, lam) && FirstExact(g, first)
    }
  }

  function RestFirst(f: Firsts, p: Config): set<nat>
    requires |f.lam| == |f.first| && p.rule < |f.g.rules| && p.dot < |f.g.rules[p.rule].rhs|
  {
    FirstOf(f.g, f.lam, f.first, Rest(f.g, p))
  }

  /** p predicts c, and what follows the predicted symbol can begin with t. */
  predicate Seeds(f: Firsts, p: Config, c: Config, t: nat)
    requires |f.lam| == |f.first|
  {
    Predicts(f.g, p, c) && t in RestFirst(f, p)
  }

  /** p predicts c, and what follows the predicted symbol is nullable. */
  predicate Links(f: Firsts, p: Config, c: Config) {
    Predicts(f.g, p, c) && AllLambda(f.lam, Rest(f.g, p))
  }

  ghost predicate Distinct<T(!new)>(s: seq<T>) {
    forall i, j :: 0 <= i < j < |s| ==> s[i] != s[j]
  }

  // ---- what a finished closure is ----

  ghost predicate SeedsExact(f: Firsts, basis: seq<Config>, init: set<nat>, cl: Closure)
    requires |f.lam| == |f.first|
  {
    && (forall c :: c in cl.cfp ==> c in cl.fws)
    && (forall c, t :: c in cl.cfp ==> (t in cl.fws[c] <==> Seeded(f, basis, init, cl.cfp, |cl.cfp|, 0, c, t)))
  }

  ghost predicate LinksExact(f: Firsts, cl: Closure) {
    && (forall p :: p in cl.cfp ==> p in cl.fplp)
    && (forall p, c :: p in cl.cfp ==> (c in cl.fplp[p] <==> Links(f, p, c)))
  }

  // ---- the state of the loop: rules below r have been tried for configuration k ----

  /** The pair (p, c) has been dealt with. */
  predicate Done(cfp: seq<Config>, k: nat, r: nat, p: Config, c: Config)
    requires k <= |cfp|
  {
    p in cfp[..k] || (k < |cfp| && p == cfp[k] && c.rule < r)
  }

  ghost predicate ListOk(f: Firsts, basis: seq<Config>, cl: Closure) {
    && Distinct(cl.cfp) && basis <= cl.cfp
    && (forall c :: c in cl.cfp ==> InGrammar(f.g, c) && c in cl.fws && c in cl.fplp)
    && (forall c :: c in cl.cfp ==> Reached(f.g, basis, c))
  }

  ghost predicate ClosedSoFar(f: Firsts, cl: Closure, k: nat, r: nat)
    requires k <= |cl.cfp|
  {
    forall p, c :: Done(cl.cfp, k, r, p, c) && Predicts(f.g, p, c) ==> c in cl.cfp
  }

  /** t is a seed of c from a pair already dealt with, or from the start. */
  ghost predicate Seeded(f: Firsts, basis: seq<Config>, init: set<nat>, cfp: seq<Config>, k: nat, r: nat, c: Config,
          t: nat)
    requires k <= |cfp| && |f.lam| == |f.first|
  {
    (c in basis && t in init) || exists p :: Done(cfp, k, r, p, c) && Seeds(f, p, c, t)
  }

  ghost predicate SeedsSoFar(f: Firsts, basis: seq<Config>, init: set<nat>, cl: Closure, k: nat, r: nat)
    requires k <= |cl.cfp| && |f.lam| == |f.first|
  {
    && (forall c :: c in cl.cfp ==> c in cl.fws)
    && (forall c, t :: c in cl.cfp ==> (t in cl.fws[c] <==> Seeded(f, basis, init, cl.cfp, k, r, c, t)))
  }

  ghost predicate LinksSoFar(f: Firsts, cl: Closure, k: nat, r: nat)
    requires k <= |cl.cfp|
  {
    && (forall p :: p in cl.cfp ==> p in cl.fplp)
    && (forall p, c :: p in cl.cfp ==> (c in cl.fplp[p] <==> Done(cl.cfp, k, r, p, c) && Links(f, p, c)))
  }

  // ---- one prediction ----

  /** Configlist_add. */
  function Added(cl: Closure, c: Config): Closure {
    if c in cl.cfp then cl else Closure(cl.cfp + [c], cl.fws[c := {}], cl.fplp[c := []])
  }

  /** Add c, union the FIRST of what follows, and link p to c when all of that is nullable. */
  function Predict(f: Firsts, cl: Closure, p: Config, c: Config): Closure
    requires |f.lam| == |f.first| && p in cl.cfp && Predicts(f.g, p, c)
    requires forall x :: x in cl.cfp ==> x in cl.fws && x in cl.fplp
  {
    var a := Added(cl, c);
    Closure(
      a.cfp,
      a.fws[c := a.fws[c] + RestFirst(f, p)],
      if AllLambda(f.lam, Rest(f.g, p)) then a.fplp[p := a.fplp[p] + [c]] else a.fplp)
  }

  lemma PredictList(f: Firsts, basis: seq<Config>, cl: Closure, k: nat, r: nat)
    requires |f.lam| == |f.first| && ListOk(f, basis, cl) && k < |cl.cfp| && r < |f.g.rules|
    requires Predicts(f.g, cl.cfp[k], Config(r, 0))
    ensures ListOk(f, basis, Predict(f, cl, cl.cfp[k], Config(r, 0)))
  {
    var c, p := Config(r, 0), cl.cfp[k];
    assert p in cl.cfp && Reached(f.g, basis, p);
    var n: nat :| InClosure(f.g, basis, n, p);
    assert InClosure(f.g, basis, n + 1, c);
    assert Reached(f.g, basis, c);
  }

  /** Done pairs after trying rule r for configuration k: the old ones and (cfp[k], c) for c of rule r. */
  lemma DoneNext(cl: Closure, cfp': seq<Config>, k: nat, r: nat)
    requires k < |cl.cfp| && cl.cfp <= cfp'
    ensures forall p, c :: Done(cfp', k, r + 1, p, c) <==> Done(cl.cfp, k, r, p, c) || (p == cl.cfp[k] && c.rule == r)
  {
    assert cfp'[..k] == cl.cfp[..k] && cfp'[k] == cl.cfp[k];
  }

  lemma PredictClosed(f: Firsts, basis: seq<Config>, cl: Closure, k: nat, r: nat)
    requires |f.lam| == |f.first| && ListOk(f, basis, cl) && k < |cl.cfp| && r < |f.g.rules|
    requires Predicts(f.g, cl.cfp[k], Config(r, 0)) && ClosedSoFar(f, cl, k, r)
    ensures ClosedSoFar(f, Predict(f, cl, cl.cfp[k], Config(r, 0)), k, r + 1)
  {
    var cl' := Predict(f, cl, cl.cfp[k], Config(r, 0));
    DoneNext(cl, cl'.cfp, k, r);
  }

  lemma PredictSeeds(f: Firsts, basis: seq<Config>, init: set<nat>, cl: Closure, k: nat, r: nat)
    requires |f.lam| == |f.first| && ListOk(f, basis, cl) && k < |cl.cfp| && r < |f.g.rules|
    requires Predicts(f.g, cl.cfp[k], Config(r, 0)) && ClosedSoFar(f, cl, k, r)
    requires SeedsSoFar(f, basis, init, cl, k, r)
    ensures SeedsSoFar(f, basis, init, Predict(f, cl, cl.cfp[k], Config(r, 0)), k, r + 1)
  {
    var c0, p0 := Config(r, 0), cl.cfp[k];
    var cl' := Predict(f, cl, p0, c0);
    DoneNext(cl, cl'.cfp, k, r);
    forall c, t | c in cl'.cfp
      ensures t in cl'.fws[c] <==> Seeded(f, basis, init, cl'.cfp, k, r + 1, c, t)
    {
      SeedCell(f, basis, init, cl, k, r, c, t);
    }
  }

  lemma SeedCell(f: Firsts, basis: seq<Config>, init: set<nat>, cl: Closure, k: nat, r: nat, c: Config, t: nat)
    requires |f.lam| == |f.first| && ListOk(f, basis, cl) && k < |cl.cfp| && r < |f.g.rules|
    requires Predicts(f.g, cl.cfp[k], Config(r, 0)) && ClosedSoFar(f, cl, k, r)
    requires SeedsSoFar(f, basis, init, cl, k, r)
    requires c in Predict(f, cl, cl.cfp[k], Config(r, 0)).cfp
    ensures var cl' := Predict(f, cl, cl.cfp[k], Config(r, 0));
      c in cl'.fws && (t in cl'.fws[c] <==> Seeded(f, basis, init, cl'.cfp, k, r + 1, c, t))
  {
    var c0, p0 := Config(r, 0), cl.cfp[k];
    var cl' := Predict(f, cl, p0, c0);
    DoneNext(cl, cl'.cfp, k, r);
    var isNew := c == c0 && t in RestFirst(f, p0);
    if isNew {
      assert Done(cl'.cfp, k, r + 1, p0, c) && Seeds(f, p0, c, t);
    }
    if Seeded(f, basis, init, cl.cfp, k, r, c, t) && !(c in basis && t in init) {
      var p :| Done(cl.cfp, k, r, p, c) && Seeds(f, p, c, t);
      assert Done(cl'.cfp, k, r + 1, p, c);
    }
    if Seeded(f, basis, init, cl'.cfp, k, r + 1, c, t) && !(c in basis && t in init) {
      var p :| Done(cl'.cfp, k, r + 1, p, c) && Seeds(f, p, c, t);
      assert Done(cl.cfp, k, r, p, c) || isNew;
    }
    assert Seeded(f, basis, init, cl'.cfp, k, r + 1, c, t) <==> Seeded(f, basis, init, cl.cfp, k, r, c, t) || isNew;
    if c !in cl.cfp {
      assert c !in basis && c == c0;
      assert forall p :: Done(cl.cfp, k, r, p, c) ==> !Predicts(f.g, p, c);
    }
  }

  lemma PredictLinks(f: Firsts, basis: seq<Config>, cl: Closure, k: nat, r: nat)
    requires |f.lam| == |f.first| && ListOk(f, basis, cl) && k < |cl.cfp| && r < |f.g.rules|
    requires Predicts(f.g, cl.cfp[k], Config(r, 0)) && LinksSoFar(f, cl, k, r)
    ensures LinksSoFar(f, Predict(f, cl, cl.cfp[k], Config(r, 0)), k, r + 1)
  {
    var c0, p0 := Config(r, 0), cl.cfp[k];
    var cl' := Predict(f, cl, p0, c0);
    DoneNext(cl, cl'.cfp, k, r);
    forall p, c | p in cl'.cfp
      ensures c in cl'.fplp[p] <==> Done(cl'.cfp, k, r + 1, p, c) && Links(f, p, c)
    {
      if p !in cl.cfp {
        assert p != p0 && cl'.fplp[p] == [];
        assert !Done(cl.cfp, k, r, p, c);
      }
    }
  }

  // ---- the loop ----

  ghost predicate LoopInv(f: Firsts, basis: seq<Config>, init: set<nat>, cl: Closure, k: nat, r: nat) {
    match f
    case Firsts(g, lam, first) =>
      && g.Valid() && |lam| == |first| == g.nsymbol && k <= |cl.cfp|
      && ListOk(f, basis, cl) && ClosedSoFar(f, cl, k, r)
      && SeedsSoFar(f, basis, init, cl, k, r) && LinksSoFar(f, cl, k, r)
  }

  lemma LoopPredict(f: Firsts, basis: seq<Config>, init: set<nat>, cl: Closure, k: nat, r: nat)
    requires LoopInv(f, basis, init, cl, k, r) && k < |cl.cfp| && r < |f.g.rules|
    requires Predicts(f.g, cl.cfp[k], Config(r, 0))
    ensures LoopInv(f, basis, init, Predict(f, cl, cl.cfp[k], Config(r, 0)), k, r + 1)
  {
    PredictList(f, basis, cl, k, r);
    PredictClosed(f, basis, cl, k, r);
    PredictSeeds(f, basis, init, cl, k, r);
    PredictLinks(f, basis, cl, k, r);
  }

  /** Moving on is harmless when the pairs that become done predict nothing. */
  lemma LoopSkip(f: Firsts, basis: seq<Config>, init: set<nat>, cl: Closure, k: nat, r: nat, k': nat, r': nat)
    requires LoopInv(f, basis, init, cl, k, r) && k < |cl.cfp| && k' <= |cl.cfp|
    requires (k' == k && r' == r + 1 && !Predicts(f.g, cl.cfp[k], Config(r, 0)))
          || (k' == k + 1 && r' == 0 && (r >= |f.g.rules| || forall c :: !Predicts(f.g, cl.cfp[k], c)))
    ensures LoopInv(f, basis, init, cl, k', r')
  {
    assert k' == k + 1 ==> cl.cfp[..k'] == cl.cfp[..k] + [cl.cfp[k]];
    assert forall p, c :: Done(cl.cfp, k, r, p, c) ==> Done(cl.cfp, k', r', p, c);
    assert forall p, c :: Done(cl.cfp, k', r', p, c) && Predicts(f.g, p, c) ==> Done(cl.cfp, k, r, p, c);
    forall c, t | c in cl.cfp
      ensures Seeded(f, basis, init, cl.cfp, k', r', c, t) <==> Seeded(f, basis, init, cl.cfp, k, r, c, t)
    {
      SeededSame(f, basis, init, cl.cfp, k, r, k', r', c, t);
    }
  }

  lemma SeededSame(f: Firsts, basis: seq<Config>, init: set<nat>, cfp: seq<Config>, k: nat, r: nat, k': nat, r': nat,
          c: Config, t: nat)
    requires k <= |cfp| && k' <= |cfp| && |f.lam| == |f.first|
    requires forall p, c :: Done(cfp, k, r, p, c) ==> Done(cfp, k', r', p, c)
    requires forall p, c :: Done(cfp, k', r', p, c) && Predicts(f.g, p, c) ==> Done(cfp, k, r, p, c)
    ensures Seeded(f, basis, init, cfp, k', r', c, t) <==> Seeded(f, basis, init, cfp, k, r, c, t)
  {
    if p :| Done(cfp, k, r, p, c) && Seeds(f, p, c, t) {
      assert Done(cfp, k', r', p, c);
    }
    if p :| Done(cfp, k', r', p, c) && Seeds(f, p, c, t) {
      assert Done(cfp, k, r, p, c);
    }
  }

  /** The symbols after the one being closed: their FIRST set, and whether all are nullable. */
  method ScanRest(f: Firsts, p: Config) returns (add: set<nat>, linked: bool)
    requires f.g.Valid() && |f.lam| == |f.first| == f.g.nsymbol
    requires p.rule < |f.g.rules| && p.dot < |f.g.rules[p.rule].rhs|
    requires forall x :: 0 <= x < f.g.nterminal ==> !f.lam[x]
    ensures add == RestFirst(f, p)
    ensures linked == AllLambda(f.lam, Rest(f.g, p))
  {
    var rhs := f.g.rules[p.rule].rhs;
    ghost var rest := Rest(f.g, p);
    add := {};
    var i := p.dot + 1;
    while i < |rhs|
      invariant p.dot < i <= |rhs|
      invariant AllLambda(f.lam, rhs[p.dot + 1..i])
      invariant add + FirstOf(f.g, f.lam, f.first, rhs[i..]) == RestFirst(f, p)
    {
      var xsp := rhs[i];
      assert rhs[i..][0] == xsp && rhs[i..][1..] == rhs[i + 1..];
      assert rest[i - p.dot - 1] == xsp;
      if xsp < f.g.nterminal {
        add := add + {xsp};
        break;
      }
      add := add + f.first[xsp];
      if !f.lam[xsp] { break; }
      assert rhs[p.dot + 1..i + 1] == rhs[p.dot + 1..i] + [xsp];
      i := i + 1;
    }
    linked := i == |rhs|;
    assert linked ==> rhs[p.dot + 1..i] == rest;
  }

  ghost function AllConfigs(g: Grammar): set<Config> {
    set r, d | 0 <= r < |g.rules| && 0 <= d <= |g.rules[r].rhs| :: Config(r, d)
  }

  ghost function Elements(s: seq<Config>): set<Config> {
    set c | c in s
  }

  /** Configlist_closure, from a basis whose configurations all carry the follow-set `init`. */
  method ConfiglistClosure(f: Firsts, basis: seq<Config>, init: set<nat>) returns (cl: Closure)
    requires f.g.Valid() && |f.lam| == |f.first| == f.g.nsymbol
    requires forall x :: 0 <= x < f.g.nterminal ==> !f.lam[x]
    requires Distinct(basis) && forall c :: c in basis ==> InGrammar(f.g, c)
    ensures IsClosure(f.g, basis, cl.cfp) && Distinct(cl.cfp)
    ensures SeedsExact(f, basis, init, cl) && LinksExact(f, cl)
  {
    cl := BasisOnly(basis, init);
    StartLoop(f, basis, init);
    var k := 0;
    while k < |cl.cfp|
      invariant LoopInv(f, basis, init, cl, k, 0)
      decreases AllConfigs(f.g) - Elements(cl.cfp), |cl.cfp| - k
    {
      ghost var before := cl.cfp;
      cl := CloseOne(f, basis, init, cl, k);
      Progress(f.g, before, cl.cfp);
      k := k + 1;
    }
    FinishLoop(f, basis, init, cl);
  }

  /** One turn of the loop: every rule of the nonterminal after the dot of configuration k. */
  method CloseOne(f: Firsts, ghost basis: seq<Config>, ghost init: set<nat>, cl0: Closure, k: nat) returns (cl: Closure)
    requires forall x :: 0 <= x < f.g.nterminal && x < |f.lam| ==> !f.lam[x]
    requires LoopInv(f, basis, init, cl0, k, 0) && k < |cl0.cfp|
    ensures cl0.cfp <= cl.cfp && LoopInv(f, basis, init, cl, k + 1, 0)
  {
    cl := cl0;
    var c := cl.cfp[k];
    assert c in cl.cfp;
    if c.dot < |f.g.rules[c.rule].rhs| && f.g.rules[c.rule].rhs[c.dot] >= f.g.nterminal {
      var sp := f.g.rules[c.rule].rhs[c.dot];
      for r := 0 to |f.g.rules|
        invariant LoopInv(f, basis, init, cl, k, r)
        invariant k < |cl.cfp| && cl.cfp[k] == c && cl0.cfp <= cl.cfp
      {
        if f.g.rules[r].lhs == sp {
          LoopPredict(f, basis, init, cl, k, r);
          cl := AddPrediction(f, cl, c, Config(r, 0));
        } else {
          LoopSkip(f, basis, init, cl, k, r, k, r + 1);
        }
      }
      LoopSkip(f, basis, init, cl, k, |f.g.rules|, k + 1, 0);
    } else {
      LoopSkip(f, basis, init, cl, k, 0, k + 1, 0);
    }
  }

  method AddPrediction(f: Firsts, cl: Closure, p: Config, c: Config) returns (cl': Closure)
    requires f.g.Valid() && |f.lam| == |f.first| == f.g.nsymbol
    requires forall x :: 0 <= x < f.g.nterminal ==> !f.lam[x]
    requires p in cl.cfp && Predicts(f.g, p, c)
    requires forall x :: x in cl.cfp ==> x in cl.fws && x in cl.fplp
    ensures cl' == Predict(f, cl, p, c)
  {
    var cfp, fws, fplp := cl.cfp, cl.fws, cl.fplp;
    if c !in cfp {
      cfp, fws, fplp := cfp + [c], fws[c := {}], fplp[c := []];
    }
    var add, linked := ScanRest(f, p);
    fws := fws[c := fws[c] + add];
    if linked {
      fplp := fplp[p := fplp[p] + [c]];
    }
    cl' := Closure(cfp, fws, fplp);
  }

  /** The list grows inside a finite set. */
  lemma Progress(g: Grammar, a: seq<Config>, b: seq<Config>)
    requires a <= b && Distinct(b) && forall c :: c in b ==> InGrammar(g, c)
    ensures AllConfigs(g) - Elements(b) <= AllConfigs(g) - Elements(a)
    ensures |b| > |a| ==> AllConfigs(g) - Elements(b) < AllConfigs(g) - Elements(a)
  {
    assert forall c :: c in a ==> c in b by {
      assert forall i :: 0 <= i < |a| ==> a[i] == b[i];
    }
    if |b| > |a| {
      var c := b[|a|];
      assert c in b && InGrammar(g, c);
      assert c in AllConfigs(g) && c in Elements(b) && c !in Elements(a);
    }
  }

  /** The list before the loop: the basis, with its follow-sets and without links. */
  function BasisOnly(basis: seq<Config>, init: set<nat>): Closure {
    Closure(basis, map c | c in basis :: init, map c | c in basis :: [])
  }

  lemma StartLoop(f: Firsts, basis: seq<Config>, init: set<nat>)
    requires f.g.Valid() && |f.lam| == |f.first| == f.g.nsymbol
    requires Distinct(basis) && forall c :: c in basis ==> InGrammar(f.g, c)
    ensures LoopInv(f, basis, init, BasisOnly(basis, init), 0, 0)
  {
    forall c | c in basis ensures Reached(f.g, basis, c) {
      assert InClosure(f.g, basis, 0, c);
    }
  }

  lemma FinishLoop(f: Firsts, basis: seq<Config>, init: set<nat>, cl: Closure)
    requires LoopInv(f, basis, init, cl, |cl.cfp|, 0)
    ensures IsClosure(f.g, basis, cl.cfp) && Distinct(cl.cfp)
    ensures SeedsExact(f, basis, init, cl) && LinksExact(f, cl)
  {
    assert cl.cfp[..|cl.cfp|] == cl.cfp;
    assert forall p, c :: p in cl.cfp ==> Done(cl.cfp, |cl.cfp|, 0, p, c);
    assert forall c :: c in basis ==> c in cl.cfp by {
      assert forall i :: 0 <= i < |basis| ==> basis[i] == cl.cfp[i];
    }
  }
}
