/** Propagating follow-sets along links (FindFollowSets): a sweep-until-quiet worklist that computes
exactly the union, over all link paths that arrive at a configuration, of the seeds they start from. */
module FollowSets {
  import opened Lalr
  import opened Seals

  type Links = map<Node, seq<Node>>
  type Family = map<Node, set<nat>>

  /** A path of k links leads from a to b. */
  ghost predicate PathIn(links: Links, k: nat, a: Node, b: Node) {
    if k == 0 then a == b
    else exists z :: PathIn(links, k - 1, a, z) && z in links && b in links[z]
  }

  ghost predicate Path(links: Links, a: Node, b: Node) {
    exists k: nat :: PathIn(links, k, a, b)
  }

  /** t is seeded somewhere and propagates to n. */
  ghost predicate Arrives(links: Links, seeds: Family, n: Node, t: nat) {
    exists a :: a in seeds && t in seeds[a] && Path(links, a, n)
  }

  /** Everything in the family has arrived from a seed. */
  ghost predicate OnlyArrivals(links: Links, seeds: Family, fws: Family) {
    && fws.Keys == seeds.Keys
    && forall n, t :: n in fws && t in fws[n] ==> Arrives(links, seeds, n, t)
  }

  ghost predicate Above(seeds: Family, fws: Family) {
    fws.Keys == seeds.Keys && forall n :: n in seeds ==> seeds[n] <= fws[n]
  }

  /** n has been copied into everything it links to. */
  ghost predicate Spread(links: Links, fws: Family, n: Node) {
    n in links && n in fws && forall z :: z in links[n] ==> z in fws && fws[n] <= fws[z]
  }

  /** The graph is closed: links lead from listed nodes to listed nodes. */
  ghost predicate GraphOk(nodes: seq<Node>, links: Links, fws: Family) {
    && (forall n :: n in fws <==> n in nodes)
    && (forall n :: n in nodes ==> n in links && forall z :: z in links[n] ==> z in nodes)
    && (forall n :: n in links ==> n in nodes)
  }

  lemma PathStep(links: Links, a: Node, b: Node, c: Node)
    requires Path(links, a, b) && b in links && c in links[b]
    ensures Path(links, a, c)
  {
    var k: nat :| PathIn(links, k, a, b);
    assert PathIn(links, k + 1, a, c);
  }

  /** A family above the seeds and spread everywhere contains every arrival. */
  lemma {:induction false} SpreadContains(links: Links, seeds: Family, fws: Family, k: nat, a: Node, n: Node, t: nat)
    requires Above(seeds, fws) && (forall z :: z in links ==> Spread(links, fws, z))
    requires a in seeds && t in seeds[a] && PathIn(links, k, a, n)
    ensures n in fws && t in fws[n]
  {
    if k > 0 {
      var z :| PathIn(links, k - 1, a, z) && z in links && n in links[z];
      SpreadContains(links, seeds, fws, k - 1, a, z, t);
      assert Spread(links, fws, z);
    }
  }

  /** The exact meaning of the result. */
  ghost predicate Propagated(links: Links, seeds: Family, fws: Family) {
    && fws.Keys == seeds.Keys
    && forall n, t :: n in fws ==> (t in fws[n] <==> Arrives(links, seeds, n, t))
  }

  lemma FixpointExact(links: Links, seeds: Family, fws: Family)
    requires Above(seeds, fws) && OnlyArrivals(links, seeds, fws)
    requires forall z :: z in links ==> Spread(links, fws, z)
    ensures Propagated(links, seeds, fws)
  {
    forall n, t | n in fws && Arrives(links, seeds, n, t) ensures t in fws[n] {
      var a :| a in seeds && t in seeds[a] && Path(links, a, n);
      var k: nat :| PathIn(links, k, a, n);
      SpreadContains(links, seeds, fws, k, a, n, t);
    }
  }

  /** Propagated is the least family above the seeds that is closed under the links. */
  lemma PropagatedLeast(links: Links, seeds: Family, fws: Family, other: Family)
    requires Propagated(links, seeds, fws) && Above(seeds, other)
    requires forall z :: z in links ==> Spread(links, other, z)
    ensures forall n :: n in fws ==> n in other && fws[n] <= other[n]
  {
    forall n, t | n in fws && t in fws[n] ensures n in other && t in other[n] {
      assert Arrives(links, seeds, n, t);
      var a :| a in seeds && t in seeds[a] && Path(links, a, n);
      var k: nat :| PathIn(links, k, a, n);
      SpreadContains(links, seeds, other, k, a, n, t);
    }
  }

  // ---- one union along one link ----

  ghost function MissingPairs(nodes: seq<Node>, nterminal: nat, fws: Family): set<(Node, nat)> {
    set n, t: nat | n in nodes && 0 <= t < nterminal && n in fws && t !in fws[n] :: (n, t)
  }

  ghost predicate Bounded(nterminal: nat, fws: Family) {
    forall n, t :: n in fws && t in fws[n] ==> t < nterminal
  }

  lemma UnionArrivals(links: Links, seeds: Family, fws: Family, n: Node, z: Node)
    requires OnlyArrivals(links, seeds, fws) && n in fws && z in fws && n in links && z in links[n]
    ensures OnlyArrivals(links, seeds, fws[z := fws[z] + fws[n]])
  {
    var fws' := fws[z := fws[z] + fws[n]];
    forall t | t in fws[n] ensures Arrives(links, seeds, z, t) {
      assert Arrives(links, seeds, n, t);
      var a :| a in seeds && t in seeds[a] && Path(links, a, n);
      PathStep(links, a, n, z);
    }
  }

  lemma UnionMissing(nodes: seq<Node>, nterminal: nat, fws: Family, n: Node, z: Node)
    requires Bounded(nterminal, fws) && n in fws && z in fws && z in nodes && !(fws[n] <= fws[z])
    ensures Bounded(nterminal, fws[z := fws[z] + fws[n]])
    ensures MissingPairs(nodes, nterminal, fws[z := fws[z] + fws[n]]) < MissingPairs(nodes, nterminal, fws)
  {
    var fws' := fws[z := fws[z] + fws[n]];
    var t :| t in fws[n] && t !in fws[z];
    assert (z, t) in MissingPairs(nodes, nterminal, fws) && (z, t) !in MissingPairs(nodes, nterminal, fws');
    assert MissingPairs(nodes, nterminal, fws') <= MissingPairs(nodes, nterminal, fws);
  }

  /** What every step of the propagation keeps: nothing invented, nothing lost, and every node
      marked COMPLETE has been copied into everything it links to. */
  ghost predicate Steady(nterminal: nat, links: Links, seeds: Family, fws: Family, complete: set<Node>) {
    && Bounded(nterminal, fws) && OnlyArrivals(links, seeds, fws) && Above(seeds, fws)
    && forall n :: n in complete ==> Spread(links, fws, n)
  }

  /** Steady, sealed, on a closed graph. */
  ghost predicate SweepInv(nodes: seq<Node>, nterminal: nat, links: Links, seeds: Family, fws: Family,
          complete: set<Node>) {
    && GraphOk(nodes, links, fws)
    && forall q {:trigger Open(q)} :: Open(q) && q == fws ==> Steady(nterminal, links, seeds, q, complete)
  }

  lemma UnionSpread(links: Links, fws: Family, complete: set<Node>, n: Node, z: Node)
    requires n in fws && z in fws && forall m :: m in complete ==> Spread(links, fws, m)
    ensures forall m :: m in complete - {z} ==> Spread(links, fws[z := fws[z] + fws[n]], m)
  {
    forall m | m in complete - {z} ensures Spread(links, fws[z := fws[z] + fws[n]], m) {
      assert Spread(links, fws, m);
    }
  }

  lemma UnionStep(nodes: seq<Node>, nterminal: nat, links: Links, seeds: Family, fws: Family, complete: set<Node>,
          n: Node, z: Node)
    requires SweepInv(nodes, nterminal, links, seeds, fws, complete)
    requires n in nodes && z in links[n] && !(fws[n] <= fws[z])
    ensures SweepInv(nodes, nterminal, links, seeds, fws[z := fws[z] + fws[n]], complete - {z})
    ensures MissingPairs(nodes, nterminal, fws[z := fws[z] + fws[n]]) < MissingPairs(nodes, nterminal, fws)
  {
    assert Open(fws);
    UnionMissing(nodes, nterminal, fws, n, z);
    UnionSteady(nodes, nterminal, links, seeds, fws, complete, n, z);
    UnionGraph(nodes, links, fws, z, fws[n]);
  }

  lemma UnionGraph(nodes: seq<Node>, links: Links, fws: Family, z: Node, add: set<nat>)
    requires GraphOk(nodes, links, fws) && z in fws
    ensures GraphOk(nodes, links, fws[z := fws[z] + add])
  {
  }

  lemma UnionSteady(nodes: seq<Node>, nterminal: nat, links: Links, seeds: Family, fws: Family, complete: set<Node>,
          n: Node, z: Node)
    requires Steady(nterminal, links, seeds, fws, complete)
    requires n in fws && z in fws && z in nodes && n in links && z in links[n] && !(fws[n] <= fws[z])
    ensures Steady(nterminal, links, seeds, fws[z := fws[z] + fws[n]], complete - {z})
  {
    UnionMissing(nodes, nterminal, fws, n, z);
    UnionArrivals(links, seeds, fws, n, z);
    UnionSpread(links, fws, complete, n, z);
  }

  lemma MarkStep(nodes: seq<Node>, nterminal: nat, links: Links, seeds: Family, fws: Family, complete: set<Node>,
          n: Node)
    requires SweepInv(nodes, nterminal, links, seeds, fws, complete) && n in nodes
    requires forall j :: 0 <= j < |links[n]| ==> fws[n] <= fws[links[n][j]]
    ensures SweepInv(nodes, nterminal, links, seeds, fws, complete + {n})
  {
    assert Open(fws);
    assert Spread(links, fws, n);
  }

  /** The body of the sweep for one configuration that is not COMPLETE. */
  method Spill(nodes: seq<Node>, ghost nterminal: nat, links: Links, ghost seeds: Family, fws0: Family,
          complete0: set<Node>, n: Node)
    returns (fws: Family, complete: set<Node>, progress: bool)
    requires SweepInv(nodes, nterminal, links, seeds, fws0, complete0) && n in nodes
    ensures SweepInv(nodes, nterminal, links, seeds, fws, complete) && n in complete
    ensures progress ==> MissingPairs(nodes, nterminal, fws) < MissingPairs(nodes, nterminal, fws0)
    ensures !progress ==> fws == fws0 && complete == complete0 + {n}
  {
    fws, complete, progress := fws0, complete0, false;
    var plp := links[n];
    for i := 0 to |plp|
      invariant SweepInv(nodes, nterminal, links, seeds, fws, complete)
      invariant n in fws && fws[n] == fws0[n]
      invariant forall j :: 0 <= j < |plp| ==> plp[j] in fws
      invariant forall j :: 0 <= j < i ==> fws[n] <= fws[plp[j]]
      invariant progress ==> MissingPairs(nodes, nterminal, fws) < MissingPairs(nodes, nterminal, fws0)
      invariant !progress ==> fws == fws0 && complete == complete0
    {
      var z := plp[i];
      assert z in links[n];
      if !(fws[n] <= fws[z]) {
        UnionStep(nodes, nterminal, links, seeds, fws, complete, n, z);
        fws := fws[z := fws[z] + fws[n]];
        complete := complete - {z};
        progress := true;
      }
    }
    MarkStep(nodes, nterminal, links, seeds, fws, complete, n);
    complete := complete + {n};
  }

  /** FindFollowSets. */
  method FindFollowSets(nodes: seq<Node>, ghost nterminal: nat, links: Links, seeds: Family) returns (fws: Family)
    requires GraphOk(nodes, links, seeds) && Bounded(nterminal, seeds)
    ensures Propagated(links, seeds, fws)
  {
    fws := seeds;
    SeedsArrive(links, seeds);
    var complete: set<Node> := {};
    var progress := true;
    while progress
      invariant SweepInv(nodes, nterminal, links, seeds, fws, complete)
      invariant !progress ==> forall n :: n in nodes ==> n in complete
      decreases MissingPairs(nodes, nterminal, fws), progress
    {
      progress := false;
      ghost var before := fws;
      for i := 0 to |nodes|
        invariant SweepInv(nodes, nterminal, links, seeds, fws, complete)
        invariant progress ==> MissingPairs(nodes, nterminal, fws) < MissingPairs(nodes, nterminal, before)
        invariant !progress ==> fws == before && forall j :: 0 <= j < i ==> nodes[j] in complete
      {
        var n := nodes[i];
        if n !in complete {
          var change;
          fws, complete, change := Spill(nodes, nterminal, links, seeds, fws, complete, n);
          progress := progress || change;
        }
      }
    }
    assert Open(fws);
    FixpointExact(links, seeds, fws);
  }

  lemma SeedsArrive(links: Links, seeds: Family)
    ensures OnlyArrivals(links, seeds, seeds) && Above(seeds, seeds)
  {
    forall n, t | n in seeds && t in seeds[n] ensures Arrives(links, seeds, n, t) {
      assert PathIn(links, 0, n, n);
      assert Path(links, n, n);
    }
  }
}
