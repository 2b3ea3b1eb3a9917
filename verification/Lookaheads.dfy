/** From the state table to LALR(1) lookaheads: link conversion (FindLinks), propagation, and the
proof that the result is exactly the union of the canonical LR(1) lookaheads over all paths. */
module Lookaheads {
  import opened Grammars
  import opened FirstSets
  import opened Automata
  import opened Lalr
  import opened Machine
  import opened ConfigLists
  import opened StateTables
  import opened StateSearch
  import opened MergeSort
  import opened Seals
  import FollowSets

  // ---- link conversion ----

  /** The configurations of the first k states, in order. */
  function NodesUpTo(states: seq<State>, k: nat): seq<Node>
    requires k <= |states|
  {
    if k == 0 then [] else NodesUpTo(states, k - 1) + ToNodes(k - 1, states[k - 1].cfp)
  }

  lemma {:induction false} NodesUpToElements(states: seq<State>, k: nat)
    requires k <= |states|
    ensures forall n :: n in NodesUpTo(states, k) <==> n.state < k && IsNode(states, n)
  {
    if k > 0 {
      NodesUpToElements(states, k - 1);
      InToNodes(k - 1, states[k - 1].cfp);
    }
  }

  /** All links after conversion: the closure links of a node and the shift links out of it. */
  ghost predicate LinksFinal(f: Firsts, states: seq<State>, links: FollowSets.Links) {
    && (forall n :: n in links <==> IsNode(states, n))
    && (forall n, z :: n in links ==> (z in links[n] <==> LinkedTo(f, states, n, z)))
  }

  /** Links once the back links of the first i nodes have been turned round. */
  ghost predicate Turned(T: Table, nodes: seq<Node>, i: nat, links: FollowSets.Links)
    requires i <= |nodes|
  {
    && links.Keys == T.fplp.Keys
    && forall n, z :: n in links ==>
         (z in links[n] <==> z in T.fplp[n] || (z in nodes[..i] && z in T.bplp && n in T.bplp[z]))
  }

  ghost predicate LinkedTo(f: Firsts, states: seq<State>, n: Node, z: Node) {
    (z.state == n.state && Links(f, n.cfg, z.cfg)) || (IsNode(states, z) && ShiftEdge(f.g, states, n, z.state, z.cfg))
  }

  lemma TurnedCell(f: Firsts, T: Table, n: Node, z: Node)
    requires TableOk(f, T) && IsNode(T.states, n)
    ensures n in T.fplp
    ensures (z in T.fplp[n] || (IsNode(T.states, z) && z in T.bplp && n in T.bplp[z])) <==> LinkedTo(f, T.states, n, z)
  {
    assert FplpCell(f, T, n.state, n.cfg) && Node(n.state, n.cfg) == n;
    if IsNode(T.states, z) {
      assert BplpCell(f.g, T, z.state, z.cfg) && Node(z.state, z.cfg) == z;
    }
  }

  lemma TurnedFinal(f: Firsts, T: Table, nodes: seq<Node>, links: FollowSets.Links)
    requires TableOk(f, T) && (forall n :: n in nodes <==> IsNode(T.states, n))
    requires Turned(T, nodes, |nodes|, links)
    ensures LinksFinal(f, T.states, links)
  {
    assert nodes[..|nodes|] == nodes;
    forall n | IsNode(T.states, n) ensures n in links {
      TurnedCell(f, T, n, n);
    }
    forall n, z | n in links ensures z in links[n] <==> LinkedTo(f, T.states, n, z) {
      TurnedCell(f, T, n, z);
    }
  }

  method AllNodes(states: seq<State>) returns (nodes: seq<Node>)
    ensures forall n :: n in nodes <==> IsNode(states, n)
  {
    nodes := [];
    for k := 0 to |states|
      invariant nodes == NodesUpTo(states, k)
    {
      nodes := nodes + ToNodes(k, states[k].cfp);
    }
    NodesUpToElements(states, |states|);
  }

  /** FindLinks: every back link of every configuration becomes a forward link of its other end. */
  method FindLinks(f: Firsts, T: Table) returns (nodes: seq<Node>, links: FollowSets.Links)
    requires TableOk(f, T)
    ensures forall n :: n in nodes <==> IsNode(T.states, n)
    ensures LinksFinal(f, T.states, links)
  {
    nodes := AllNodes(T.states);
    forall c | c in nodes ensures BackKnown(T, c) {
      BackInTable(f, T, c);
    }
    links := TurnAll(T, nodes);
    TurnedFinal(f, T, nodes, links);
  }

  ghost predicate BackKnown(T: Table, c: Node) {
    c in T.bplp && forall n :: n in T.bplp[c] ==> n in T.fplp
  }

  method TurnAll(T: Table, nodes: seq<Node>) returns (links: FollowSets.Links)
    requires forall c :: c in nodes ==> BackKnown(T, c)
    ensures Turned(T, nodes, |nodes|, links)
  {
    links := T.fplp;
    for i := 0 to |nodes|
      invariant Turned(T, nodes, i, links)
    {
      assert BackKnown(T, nodes[i]);
      links := TurnOne(T, nodes, i, links);
    }
  }

  method TurnOne(T: Table, nodes: seq<Node>, i: nat, links0: FollowSets.Links) returns (links: FollowSets.Links)
    requires i < |nodes| && Turned(T, nodes, i, links0) && BackKnown(T, nodes[i])
    ensures Turned(T, nodes, i + 1, links)
  {
    links := links0;
    var c := nodes[i];
    var plp := T.bplp[c];
    for k := 0 to |plp|
      invariant links.Keys == links0.Keys
      invariant forall n, z :: n in links ==> (z in links[n] <==> z in links0[n] || (z == c && n in plp[..k]))
    {
      var other := plp[k];
      assert other in plp && plp[..k + 1] == plp[..k] + [other];
      links := links[other := links[other] + [c]];
    }
    assert plp[..|plp|] == plp && nodes[..i + 1] == nodes[..i] + [c];
  }

  lemma BackInTable(f: Firsts, T: Table, c: Node)
    requires TableOk(f, T) && IsNode(T.states, c)
    ensures BackKnown(T, c)
  {
    assert BplpCell(f.g, T, c.state, c.cfg) && Node(c.state, c.cfg) == c;
    forall n | n in T.bplp[c] ensures n in T.fplp {
      assert FplpCell(f, T, n.state, n.cfg) && Node(n.state, n.cfg) == n;
    }
  }

  // ---- the graph that FindFollowSets works on ----

  lemma GraphReady(f: Firsts, T: Table, nodes: seq<Node>, links: FollowSets.Links)
    requires TableOk(f, T) && f.Exact() && (forall n :: n in nodes <==> IsNode(T.states, n))
    requires LinksFinal(f, T.states, links)
    requires forall x, t :: 0 <= x < |f.first| && t in f.first[x] ==> t < f.g.nterminal
    ensures FollowSets.GraphOk(nodes, links, T.fws) && FollowSets.Bounded(f.g.nterminal, T.fws)
  {
    forall n | n in nodes ensures n in T.fws && n in links && forall z :: z in links[n] ==> z in nodes {
      assert FwsCell(f, T, n.state, n.cfg) && Node(n.state, n.cfg) == n;
      forall z | z in links[n] ensures z in nodes {
        LinkTarget(f, T, links, n, z);
      }
    }
    forall n, t | n in T.fws && t in T.fws[n] ensures t < f.g.nterminal {
      assert FwsCell(f, T, n.state, n.cfg) && Node(n.state, n.cfg) == n;
      assert SeedOf(f, T.states, n.state, n.cfg, t);
      if p :| p in T.states[n.state].cfp && Seeds(f, p, n.cfg, t) {
        FirstOfTerminal(f, Rest(f.g, p), t);
      }
    }
  }

  lemma LinkTarget(f: Firsts, T: Table, links: FollowSets.Links, n: Node, z: Node)
    requires TableOk(f, T) && LinksFinal(f, T.states, links) && n in links && z in links[n]
    ensures IsNode(T.states, z)
  {
    if z.state == n.state && Links(f, n.cfg, z.cfg) {
      assert StateOk(f.g, T.states[n.state]);
    }
  }

  lemma {:induction false} FirstOfTerminal(f: Firsts, form: seq<nat>, t: nat)
    requires |f.lam| == |f.first| && t in FirstOf(f.g, f.lam, f.first, form)
    requires forall x, t :: 0 <= x < |f.first| && t in f.first[x] ==> t < f.g.nterminal
    ensures t < f.g.nterminal
  {
    if form[0] >= f.g.nterminal && t !in f.first[form[0]] {
      FirstOfTerminal(f, form[1..], t);
    }
  }

  // ---- completeness of the follow-sets ----

  /** The rest of a configuration is a form over the grammar's symbols. */
  lemma RestSymbols(g: Grammar, p: Config)
    requires g.Valid() && p.rule < |g.rules| && p.dot < |g.rules[p.rule].rhs|
    ensures forall k :: 0 <= k < |Rest(g, p)| ==> Rest(g, p)[k] < g.nsymbol
  {
  }

  lemma SeedArrives(links: FollowSets.Links, seeds: FollowSets.Family, n: Node, t: nat)
    requires n in seeds && t in seeds[n]
    ensures FollowSets.Arrives(links, seeds, n, t)
  {
    assert FollowSets.PathIn(links, 0, n, n);
    assert FollowSets.Path(links, n, n);
  }

  lemma LinkCarries(links: FollowSets.Links, seeds: FollowSets.Family, fws: FollowSets.Family, a: Node, b: Node)
    requires FollowSets.Propagated(links, seeds, fws) && a in fws && b in fws && a in links && b in links[a]
    ensures fws[a] <= fws[b]
  {
    forall t | t in fws[a] ensures t in fws[b] {
      assert FollowSets.Arrives(links, seeds, a, t);
      var s :| s in seeds && t in seeds[s] && FollowSets.Path(links, s, a);
      FollowSets.PathStep(links, s, a, b);
      assert FollowSets.Arrives(links, seeds, b, t);
    }
  }

  lemma ClosureCarries(f: Firsts, T: Table, links: FollowSets.Links, fws: FollowSets.Family, i: nat, p: Config,
          c: Config)
    requires TableOk(f, T) && f.Exact() && LinksFinal(f, T.states, links)
    requires FollowSets.Propagated(links, T.fws, fws)
    requires i < |T.states| && p in T.states[i].cfp && Predicts(f.g, p, c)
    ensures ClosureLinked(f.g, fws, i, p, c)
  {
    var g := f.g;
    assert StateOk(g, T.states[i]);
    assert FwsCell(f, T, i, p) && FwsCell(f, T, i, c);
    RestSymbols(g, p);
    forall t: nat | t < g.nterminal && Begins(g, Rest(g, p), t) ensures t in fws[Node(i, c)] {
      FirstOfExact(g, f.lam, f.first, Rest(g, p), t);
      assert Seeds(f, p, c, t);
      assert SeedOf(f, T.states, i, c, t);
      SeedArrives(links, T.fws, Node(i, c), t);
    }
    if Nullable(g, Rest(g, p)) {
      AllLambdaExact(g, f.lam, Rest(g, p));
      assert Links(f, p, c);
      assert IsNode(T.states, Node(i, p));
      LinkCarries(links, T.fws, fws, Node(i, p), Node(i, c));
    }
  }

  lemma ShiftCarries(f: Firsts, T: Table, links: FollowSets.Links, fws: FollowSets.Family, i: nat, c: Config, x: nat)
    requires TableOk(f, T) && IsAutomaton(f.g, T.states) && LinksFinal(f, T.states, links)
    requires FollowSets.Propagated(links, T.fws, fws)
    requires i < |T.states| && c in T.states[i].cfp && AtDot(f.g, c, x) && x in T.states[i].shifts
    ensures ShiftLinked(fws, i, c, T.states[i].shifts[x])
  {
    ShiftMoves(f.g, T.states, i, c, x);
    var j := T.states[i].shifts[x];
    assert FwsCell(f, T, i, c) && FwsCell(f, T, j, Advance(c));
    var a, b := Node(i, c), Node(j, Advance(c));
    assert IsNode(T.states, a) && IsNode(T.states, b) && ShiftEdge(f.g, T.states, a, j, Advance(c));
    LinkCarries(links, T.fws, fws, a, b);
  }

  lemma FollowsClosed(f: Firsts, T: Table, links: FollowSets.Links, fws: FollowSets.Family)
    requires TableOk(f, T) && f.Exact() && IsAutomaton(f.g, T.states) && LinksFinal(f, T.states, links)
    requires FollowSets.Propagated(links, T.fws, fws)
    ensures FollowClosed(f.g, T.states, fws)
  {
    forall i, c | 0 <= i < |T.states| && c in T.states[i].cfp ensures Node(i, c) in fws {
      assert FwsCell(f, T, i, c);
    }
    forall c | c in T.states[0].basis ensures Node(0, c) in fws && 0 in fws[Node(0, c)] {
      assert StateOk(f.g, T.states[0]);
      assert FwsCell(f, T, 0, c) && SeedOf(f, T.states, 0, c, 0);
      SeedArrives(links, T.fws, Node(0, c), 0);
    }
    forall i, p, c | 0 <= i < |T.states| && p in T.states[i].cfp && Predicts(f.g, p, c)
      ensures ClosureLinked(f.g, fws, i, p, c)
    {
      ClosureCarries(f, T, links, fws, i, p, c);
    }
    forall i, c, x | 0 <= i < |T.states| && c in T.states[i].cfp && AtDot(f.g, c, x) && x in T.states[i].shifts
      ensures ShiftLinked(fws, i, c, T.states[i].shifts[x])
    {
      ShiftCarries(f, T, links, fws, i, c, x);
    }
  }

  // ---- soundness: no lookahead without a canonical LR(1) item behind it ----

  /** Every symbol of every right-hand side is nullable or can begin with some terminal. A caller
      reads this off the lambda flags and the FIRST sets. */
  ghost predicate Productive(g: Grammar) {
    forall x :: g.nterminal <= x < g.nsymbol ==>
      Nullable(g, [x]) || exists t: nat :: t < g.nterminal && Begins(g, [x], t)
  }

  lemma {:induction false} SomethingBegins(g: Grammar, v: seq<nat>, a: nat) returns (t: nat)
    requires g.Valid() && Productive(g) && a < g.nterminal
    requires forall k :: 0 <= k < |v| ==> v[k] < g.nsymbol
    ensures t < g.nterminal && Begins(g, v + [a], t)
  {
    if v == [] {
      t := a;
      BeginsItself(g, a);
      assert v + [a] == [a];
    } else {
      var x, tail := v[0], v[1..];
      assert v + [a] == [x] + (tail + [a]);
      if x < g.nterminal {
        t := x;
        BeginsItself(g, x);
        BeginsExtend(g, [x], tail + [a], t);
      } else if t' :| 0 <= t' < g.nterminal && Begins(g, [x], t') {
        t := t';
        BeginsExtend(g, [x], tail + [a], t);
      } else {
        t := SomethingBegins(g, tail, a);
        BeginsAfter(g, [x], tail + [a], t);
      }
    }
  }

  lemma Lr1Step(g: Grammar, path: seq<nat>, p: Config, a: nat, c: Config, t: nat)
    requires Lr1(g, path, p, a) && ClosesTo(g, p, a, c, t)
    ensures Lr1(g, path, c, t)
  {
    var n: nat :| Lr1In(g, n, path, p, a);
    assert Lr1In(g, n + 1, path, c, t);
  }

  lemma Lr1IsTerminal(g: Grammar, path: seq<nat>, c: Config, t: nat)
    requires g.Valid() && Lr1(g, path, c, t)
    ensures t < g.nterminal
  {
    var n: nat :| Lr1In(g, n, path, c, t);
    Lr1Terminal(g, n, path, c, t);
  }

  /** In a productive grammar every configuration of a state has a lookahead on every path there. */
  lemma {:induction false} SomeLookahead(g: Grammar, states: seq<State>, path: seq<nat>, k: nat, c: Config)
    returns (t: nat)
    requires g.Valid() && Productive(g) && IsAutomaton(g, states)
    requires 0 <= StateOf(states, path) < |states| && InClosure(g, states[StateOf(states, path)].basis, k, c)
    ensures Lr1(g, path, c, t)
    decreases |path|, k
  {
    var i := StateOf(states, path);
    if k > 0 {
      var p :| InClosure(g, states[i].basis, k - 1, p) && Predicts(g, p, c);
      var a := SomeLookahead(g, states, path, k - 1, p);
      Lr1IsTerminal(g, path, p, a);
      t := SomethingBegins(g, Rest(g, p), a);
      assert ClosesTo(g, p, a, c, t);
      Lr1Step(g, path, p, a, c, t);
    } else if path == [] {
      t := 0;
      assert Lr1In(g, 0, [], c, 0);
    } else {
      t := KernelLookahead(g, states, path, c);
    }
  }

  lemma {:induction false} KernelLookahead(g: Grammar, states: seq<State>, path: seq<nat>, c: Config) returns (t: nat)
    requires g.Valid() && Productive(g) && IsAutomaton(g, states) && path != []
    requires 0 <= StateOf(states, path) < |states| && c in states[StateOf(states, path)].basis
    ensures Lr1(g, path, c, t)
    decreases |path|, 0, 0
  {
    var below, x := path[..|path| - 1], path[|path| - 1];
    BasisMoved(g, states, path, c);
    var b := Retreat(c);
    var m := ClosureSteps(g, states, StateOf(states, below), b);
    t := SomeLookahead(g, states, below, m, b);
    Lr1Advance(g, below, b, t, x);
    assert below + [x] == path && Advance(b) == c;
  }

  lemma ClosureSteps(g: Grammar, states: seq<State>, j: nat, b: Config) returns (m: nat)
    requires IsAutomaton(g, states) && j < |states| && b in states[j].cfp
    ensures InClosure(g, states[j].basis, m, b)
  {
    assert IsClosure(g, states[j].basis, states[j].cfp);
    assert Reached(g, states[j].basis, b);
    m :| InClosure(g, states[j].basis, m, b);
  }

  /** A finished state table, sealed. */
  ghost predicate Built(g: Grammar, states: seq<State>) {
    forall q {:trigger Open(q)} :: Open(q) && q == states ==> StatesOk(g, q) && IsAutomaton(g, q)
  }

  /** A finished state table with its final links, sealed. */
  ghost predicate Linked(f: Firsts, T: Table, links: FollowSets.Links) {
    forall q {:trigger Open(q)} :: Open(q) && q == T ==> TableOk(f, q) && f.Exact() && LinksFinal(f, q.states, links)
  }

  /** Every state is reached by some path: exactly one state per reachable kernel. */
  lemma {:induction false} PathTo(g: Grammar, states: seq<State>, n: nat, s: nat) returns (path: seq<nat>)
    requires Built(g, states) && ReachIn(g, states, n, s)
    ensures StateOf(states, path) == s
  {
    if n == 0 {
      path := [];
    } else {
      var i: nat, x: nat :| ReachIn(g, states, n - 1, i) && KernelFrom(g, states, i, x, states[s].basis);
      var p := PathTo(g, states, n - 1, i);
      KernelUnique(g, states, i, x, s);
      path := p + [x];
      assert path[..|path| - 1] == p && path[|path| - 1] == x;
    }
  }

  /** A kernel of a state over a symbol belongs to one state only, and the shift leads there. */
  lemma KernelUnique(g: Grammar, states: seq<State>, i: nat, x: nat, s: nat)
    requires Built(g, states) && s < |states|
    requires KernelFrom(g, states, i, x, states[s].basis)
    ensures x in states[i].shifts && states[i].shifts[x] == s
  {
    assert Open(states);
    assert ShiftsTotal(g, states, i) && ShiftsSound(g, states, i);
    var j := states[i].shifts[x];
    assert StateOk(g, states[j]) && StateOk(g, states[s]);
    StrictlySortedUnique(states[j].basis, states[s].basis);
  }

  /** Some path to the state makes [c, t] a valid LR(1) item. */
  ghost predicate LalrValid(g: Grammar, states: seq<State>, n: Node, t: nat) {
    exists path :: StateOf(states, path) == n.state && Lr1(g, path, n.cfg, t)
  }

  lemma SeedValid(f: Firsts, T: Table, n: Node, t: nat)
    requires TableOk(f, T) && f.Exact() && IsAutomaton(f.g, T.states) && Productive(f.g)
    requires IsNode(T.states, n) && SeedOf(f, T.states, n.state, n.cfg, t) && t < f.g.nterminal
    ensures LalrValid(f.g, T.states, n, t)
  {
    var g, states := f.g, T.states;
    if n.state == 0 && n.cfg in states[0].basis && t == 0 {
      assert Lr1In(g, 0, [], n.cfg, 0);
      assert StateOf(states, []) == 0;
    } else {
      var p :| p in states[n.state].cfp && Seeds(f, p, n.cfg, t);
      assert Reachable(g, states, n.state) && StateOk(g, states[n.state]);
      var k: nat :| ReachIn(g, states, k, n.state);
      var path := PathTo(g, states, k, n.state);
      assert Reached(g, states[n.state].basis, p);
      var m: nat :| InClosure(g, states[n.state].basis, m, p);
      var a := SomeLookahead(g, states, path, m, p);
      RestSymbols(g, p);
      FirstOfExact(g, f.lam, f.first, Rest(g, p), t);
      BeginsExtend(g, Rest(g, p), [a], t);
      Lr1Step(g, path, p, a, n.cfg, t);
    }
  }

  lemma LinkValid(f: Firsts, T: Table, links: FollowSets.Links, n: Node, z: Node, t: nat)
    requires Linked(f, T, links) && n in links && z in links[n]
    requires LalrValid(f.g, T.states, n, t)
    ensures LalrValid(f.g, T.states, z, t)
  {
    assert Open(T);
    LinkedToValid(f, T, n, z, t);
  }

  lemma LinkedToValid(f: Firsts, T: Table, n: Node, z: Node, t: nat)
    requires f.Exact() && IsNode(T.states, n) && LinkedTo(f, T.states, n, z)
    requires LalrValid(f.g, T.states, n, t)
    ensures LalrValid(f.g, T.states, z, t)
  {
    var g, states := f.g, T.states;
    var path :| StateOf(states, path) == n.state && Lr1(g, path, n.cfg, t);
    Lr1IsTerminal(g, path, n.cfg, t);
    if z.state == n.state && Links(f, n.cfg, z.cfg) {
      RestSymbols(g, n.cfg);
      AllLambdaExact(g, f.lam, Rest(g, n.cfg));
      BeginsWithEnd(g, Rest(g, n.cfg), t, t);
      Lr1Step(g, path, n.cfg, t, z.cfg, t);
    } else {
      var x := g.rules[n.cfg.rule].rhs[n.cfg.dot];
      Lr1Advance(g, path, n.cfg, t, x);
      var p := path + [x];
      assert p[..|p| - 1] == path && p[|p| - 1] == x;
      assert StateOf(states, p) == z.state;
    }
  }

  lemma {:induction false} ArrivalValid(f: Firsts, T: Table, links: FollowSets.Links, k: nat, a: Node, n: Node, t: nat)
    requires Linked(f, T, links)
    requires FollowSets.PathIn(links, k, a, n) && LalrValid(f.g, T.states, a, t)
    ensures LalrValid(f.g, T.states, n, t)
  {
    if k > 0 {
      var z :| FollowSets.PathIn(links, k - 1, a, z) && z in links && n in links[z];
      ArrivalValid(f, T, links, k - 1, a, z, t);
      LinkValid(f, T, links, z, n, t);
    }
  }

  /** The LALR(1) theorem: the follow-set of a configuration of a state holds exactly the canonical
      LR(1) lookaheads of that configuration over all paths to that state. Completeness needs
      nothing; soundness needs a productive grammar. */
  lemma LookaheadsExact(f: Firsts, T: Table, links: FollowSets.Links, fws: FollowSets.Family, n: Node, t: nat)
    requires TableOk(f, T) && f.Exact() && IsAutomaton(f.g, T.states) && LinksFinal(f, T.states, links)
    requires FollowSets.Propagated(links, T.fws, fws) && IsNode(T.states, n) && t < f.g.nterminal
    ensures n in fws
    ensures LalrValid(f.g, T.states, n, t) ==> t in fws[n]
    ensures Productive(f.g) ==> (t in fws[n] <==> LalrValid(f.g, T.states, n, t))
  {
    assert FwsCell(f, T, n.state, n.cfg) && Node(n.state, n.cfg) == n;
    if LalrValid(f.g, T.states, n, t) {
      FollowsClosed(f, T, links, fws);
      var path :| StateOf(T.states, path) == n.state && Lr1(f.g, path, n.cfg, t);
      var m: nat :| Lr1In(f.g, m, path, n.cfg, t);
      LookaheadsComplete(f.g, T.states, fws, m, path, n.cfg, t);
    }
    if Productive(f.g) && t in fws[n] {
      assert FollowSets.Arrives(links, T.fws, n, t);
      var a :| a in T.fws && t in T.fws[a] && FollowSets.Path(links, a, n);
      assert FwsCell(f, T, a.state, a.cfg) && Node(a.state, a.cfg) == a;
      SeedValid(f, T, a, t);
      var k: nat :| FollowSets.PathIn(links, k, a, n);
      ArrivalValid(f, T, links, k, a, n, t);
    }
  }

  // ---- rules of the start symbol are reduced at end of input only ----

  lemma {:induction false} StartPath(f: Firsts, T: Table, links: FollowSets.Links, k: nat, a: Node, n: Node)
    requires f.g.StartIsolated() && Linked(f, T, links) && FollowSets.PathIn(links, k, a, n)
    requires n.cfg.rule < |f.g.rules| && f.g.rules[n.cfg.rule].lhs == f.g.start
    ensures a.cfg.rule == n.cfg.rule
  {
    if k > 0 {
      var z :| FollowSets.PathIn(links, k - 1, a, z) && z in links && n in links[z];
      StartLink(f, T, links, z, n);
      StartPath(f, T, links, k - 1, a, z);
    }
  }

  lemma StartLink(f: Firsts, T: Table, links: FollowSets.Links, z: Node, n: Node)
    requires f.g.StartIsolated() && Linked(f, T, links) && z in links && n in links[z]
    requires n.cfg.rule < |f.g.rules| && f.g.rules[n.cfg.rule].lhs == f.g.start
    ensures z.cfg.rule == n.cfg.rule
  {
    LinkFacts(f, T, links, z, n);
  }

  lemma LinkFacts(f: Firsts, T: Table, links: FollowSets.Links, z: Node, n: Node)
    requires Linked(f, T, links) && z in links && n in links[z]
    ensures LinkedTo(f, T.states, z, n)
  {
    assert Open(T);
  }

  lemma StartFollows(f: Firsts, T: Table, links: FollowSets.Links, fws: FollowSets.Family)
    requires f.g.StartIsolated() && f.Exact() && TableOk(f, T) && LinksFinal(f, T.states, links)
    requires FollowSets.Propagated(links, T.fws, fws)
    ensures StartAtEnd(f.g, fws)
  {
    forall n, t | n in fws && t in fws[n] && n.cfg.rule < |f.g.rules| && f.g.rules[n.cfg.rule].lhs == f.g.start
      ensures t == 0
    {
      assert FollowSets.Arrives(links, T.fws, n, t);
      var a :| a in T.fws && t in T.fws[a] && FollowSets.Path(links, a, n);
      var k: nat :| FollowSets.PathIn(links, k, a, n);
      StartPath(f, T, links, k, a, n);
      StartSeed(f, T, a, t);
    }
  }

  lemma StartSeed(f: Firsts, T: Table, a: Node, t: nat)
    requires f.g.StartIsolated() && TableOk(f, T) && a in T.fws && t in T.fws[a]
    requires a.cfg.rule < |f.g.rules| && f.g.rules[a.cfg.rule].lhs == f.g.start
    ensures t == 0
  {
    assert FwsCell(f, T, a.state, a.cfg) && Node(a.state, a.cfg) == a;
    assert SeedOf(f, T.states, a.state, a.cfg, t);
  }

  // ---- the whole construction ----

  /** FindFirstSets, FindStates, FindLinks and FindFollowSets in lemon's order. */
  method BuildLookaheads(g: Grammar)
    returns (T: Table, fws: FollowSets.Family, ghost links: FollowSets.Links, ghost f: Firsts)
    requires g.Valid() && g.StartIsolated() && |AllConfigs(g)| < Pow2(LISTSIZE)
    ensures f.g == g && f.Exact() && TableOk(f, T) && IsAutomaton(g, T.states)
    ensures LinksFinal(f, T.states, links) && FollowSets.Propagated(links, T.fws, fws)
    ensures FollowClosed(g, T.states, fws) && StartAtEnd(g, fws)
  {
    var lambda, firstset := FindFirstSets(g);
    var ff := Firsts(g, lambda, firstset);
    SoundFromExact(g, lambda);
    var gen := new Generator(ff);
    gen.FindStates();
    T := gen.tab;
    var nodes, ls := FindLinks(ff, T);
    GraphReady(ff, T, nodes, ls);
    fws := FollowSets.FindFollowSets(nodes, g.nterminal, ls, T.fws);
    FollowsClosed(ff, T, ls, fws);
    StartFollows(ff, T, ls, fws);
    links, f := ls, ff;
  }
}
