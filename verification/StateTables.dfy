/** Building all states of the automaton (FindStates, getstate, buildshifts): a depth-first search
that creates one state per reachable kernel and records the propagation links between them. */
module StateTables {
  import opened Grammars
  import opened FirstSets
  import opened Automata
  import opened Lalr
  import opened ConfigLists
  import opened MergeSort

  /** The state table: the states in order of creation, and for every configuration of every state
      its follow-set seeds, its forward links and its backward links. */
  datatype Table = Table(
    states: seq<State>,
    fws: map<Node, set<nat>>,
    fplp: map<Node, seq<Node>>,
    bplp: map<Node, seq<Node>>)

  // ---- what a table must satisfy ----

  ghost predicate StateOk(g: Grammar, st: State) {
    StrictlySorted(st.basis) && StrictlySorted(st.cfp) && IsClosure(g, st.basis, st.cfp)
  }

  /** Kernel reachability from state 0 in n shifts. */
  ghost predicate ReachIn(g: Grammar, states: seq<State>, n: nat, s: nat) {
    s < |states| &&
    if n == 0 then s == 0
    else exists i, x :: ReachIn(g, states, n - 1, i) && KernelFrom(g, states, i, x, states[s].basis)
  }

  ghost predicate KernelFrom(g: Grammar, states: seq<State>, i: nat, x: nat, basis: seq<Config>) {
    i < |states| && HasAtDot(g, states[i].cfp, x) && IsKernel(g, states[i].cfp, x, basis)
  }

  ghost predicate Reachable(g: Grammar, states: seq<State>, s: nat) {
    exists n: nat :: ReachIn(g, states, n, s)
  }

  ghost predicate StatesOk(g: Grammar, states: seq<State>) {
    && (states != [] ==> IsStart(g, states[0].basis))
    && (forall i :: 0 <= i < |states| ==> StateOk(g, states[i]))
    && (forall i :: 0 <= i < |states| ==> ShiftsSound(g, states, i))
    && (forall i, j :: 0 <= i < j < |states| ==> states[i].basis != states[j].basis)
    && (forall i :: 0 <= i < |states| ==> Reachable(g, states, i))
  }

  /** Seeds: $ on the start basis, and FIRST of what follows the predicted symbol. */
  ghost predicate SeedOf(f: Firsts, states: seq<State>, i: nat, c: Config, t: nat)
    requires |f.lam| == |f.first| && i < |states|
  {
    (i == 0 && c in states[0].basis && t == 0) || exists p :: p in states[i].cfp && Seeds(f, p, c, t)
  }

  ghost predicate FwsCell(f: Firsts, T: Table, i: nat, c: Config)
    requires |f.lam| == |f.first| && i < |T.states|
  {
    Node(i, c) in T.fws && forall t :: t in T.fws[Node(i, c)] <==> SeedOf(f, T.states, i, c, t)
  }

  ghost predicate FwsOk(f: Firsts, T: Table)
    requires |f.lam| == |f.first|
  {
    forall i, c :: 0 <= i < |T.states| && c in T.states[i].cfp ==> FwsCell(f, T, i, c)
  }

  ghost predicate FplpCell(f: Firsts, T: Table, i: nat, p: Config) {
    Node(i, p) in T.fplp && forall n :: n in T.fplp[Node(i, p)] <==> n.state == i && Links(f, p, n.cfg)
  }

  ghost predicate FplpOk(f: Firsts, T: Table) {
    forall i, p :: 0 <= i < |T.states| && p in T.states[i].cfp ==> FplpCell(f, T, i, p)
  }

  /** The shift of n's state over the symbol after n's dot leads to configuration c of state j. */
  predicate ShiftEdge(g: Grammar, states: seq<State>, n: Node, j: nat, c: Config) {
    && n.state < |states| && n.cfg in states[n.state].cfp
    && n.cfg.rule < |g.rules| && n.cfg.dot < |g.rules[n.cfg.rule].rhs|
    && var x := g.rules[n.cfg.rule].rhs[n.cfg.dot];
       x in states[n.state].shifts && states[n.state].shifts[x] == j && Advance(n.cfg) == c
  }

  ghost predicate BplpCell(g: Grammar, T: Table, j: nat, c: Config) {
    Node(j, c) in T.bplp && forall n :: n in T.bplp[Node(j, c)] <==> ShiftEdge(g, T.states, n, j, c)
  }

  ghost predicate BplpOk(g: Grammar, T: Table) {
    forall j, c :: 0 <= j < |T.states| && c in T.states[j].cfp ==> BplpCell(g, T, j, c)
  }

  predicate IsNode(states: seq<State>, n: Node) {
    n.state < |states| && n.cfg in states[n.state].cfp
  }

  /** Nothing is recorded about configurations that are in no state. */
  ghost predicate KeysOk(T: Table) {
    && (forall n :: n in T.fws ==> IsNode(T.states, n))
    && (forall n :: n in T.fplp ==> IsNode(T.states, n))
  }

  ghost predicate TableOk(f: Firsts, T: Table) {
    match f
    case Firsts(g, lam, first) =>
      && g.Valid() && |lam| == |first| == g.nsymbol
      && StatesOk(g, T.states) && KeysOk(T) && FwsOk(f, T) && FplpOk(f, T) && BplpOk(g, T)
  }

  // ---- sorted lists of configurations ----

  lemma ConfigcmpOrder()
    ensures Total(Configcmp) && Transitive(Configcmp)
  {
  }

  lemma {:induction false} CountAtMostOne<T(!new)>(s: seq<T>, x: T)
    requires Distinct(s)
    ensures multiset(s)[x] <= 1
  {
    if s != [] {
      var n := |s| - 1;
      assert s == s[..n] + [s[n]];
      CountAtMostOne(s[..n], x);
      if s[n] == x {
        assert x !in s[..n];
        assert x !in multiset(s[..n]);
      }
    }
  }

  lemma CountTwice<T>(s: seq<T>, i: nat, j: nat)
    requires i < j < |s| && s[i] == s[j]
    ensures multiset(s)[s[i]] >= 2
  {
    assert s == s[..j] + s[j..];
    assert s[..j][i] == s[i] && s[j..][0] == s[j];
    assert s[i] in multiset(s[..j]) && s[i] in multiset(s[j..]);
  }

  lemma DistinctPermuted<T(!new)>(a: seq<T>, b: seq<T>)
    requires Distinct(a) && multiset(a) == multiset(b)
    ensures Distinct(b) && forall x :: x in a <==> x in b
  {
    forall i, j | 0 <= i < j < |b| ensures b[i] != b[j] {
      CountAtMostOne(a, b[i]);
      if b[i] == b[j] { CountTwice(b, i, j); }
    }
    forall x ensures x in a <==> x in b {
      assert x in a <==> x in multiset(a);
      assert x in b <==> x in multiset(b);
    }
  }

  lemma {:induction false} DistinctSize<T(!new)>(s: seq<T>, u: set<T>)
    requires Distinct(s) && forall c :: c in s ==> c in u
    ensures |s| <= |u|
  {
    if s != [] {
      var n := |s| - 1;
      assert s == s[..n] + [s[n]];
      forall c | c in s[..n] ensures c in u - {s[n]} {
        var i :| 0 <= i < n && s[i] == c;
      }
      assert s[n] in s;
      DistinctSize(s[..n], u - {s[n]});
      assert |u - {s[n]}| == |u| - 1;
    }
  }

  lemma SortedStrict(s: seq<Config>)
    requires Sorted(Configcmp, s) && Distinct(s)
    ensures StrictlySorted(s)
  {
    ConfigcmpOrder();
    forall i, j | 0 <= i < j < |s| ensures Configcmp(s[i], s[j]) < 0 {
      SortedPairs(Configcmp, s, i, j);
      assert s[i] != s[j];
    }
  }

  /** Configlist_sort and Configlist_sortbasis. */
  method SortConfigs(g: Grammar, list: seq<Config>) returns (r: seq<Config>)
    requires Distinct(list) && (forall c :: c in list ==> InGrammar(g, c))
    requires |AllConfigs(g)| < Pow2(LISTSIZE)
    ensures StrictlySorted(r) && forall c :: c in r <==> c in list
  {
    ConfigcmpOrder();
    DistinctSize(list, AllConfigs(g));
    r := Msort(Configcmp, list);
    DistinctPermuted(list, r);
    SortedStrict(r);
  }

  lemma StrictDistinct(s: seq<Config>)
    requires StrictlySorted(s)
    ensures Distinct(s)
  {
  }

  // ---- tables that agree on the configurations of their states ----

  /** b has the states of a, with the same configurations; shifts may differ. */
  ghost predicate SameConfigs(a: seq<State>, b: seq<State>) {
    |a| <= |b| && forall i :: 0 <= i < |a| ==> a[i].basis == b[i].basis && a[i].cfp == b[i].cfp
  }

  lemma {:induction false} ReachMono(g: Grammar, a: seq<State>, b: seq<State>, n: nat, s: nat)
    requires SameConfigs(a, b) && ReachIn(g, a, n, s)
    ensures ReachIn(g, b, n, s)
  {
    if n > 0 {
      var i: nat, x: nat :| ReachIn(g, a, n - 1, i) && KernelFrom(g, a, i, x, a[s].basis);
      ReachMono(g, a, b, n - 1, i);
      assert KernelFrom(g, b, i, x, b[s].basis);
    }
  }

  lemma ReachableMono(g: Grammar, a: seq<State>, b: seq<State>, s: nat)
    requires SameConfigs(a, b) && Reachable(g, a, s)
    ensures Reachable(g, b, s)
  {
    var n: nat :| ReachIn(g, a, n, s);
    ReachMono(g, a, b, n, s);
  }

  // ---- a new state ----

  function ToNodes(i: nat, s: seq<Config>): seq<Node> {
    seq(|s|, k requires 0 <= k < |s| => Node(i, s[k]))
  }

  /** The nodes of a state. */
  function NodeSet(i: nat, cfp: seq<Config>): (r: set<Node>)
    ensures forall n :: n in r <==> n.state == i && n.cfg in cfp
  {
    var r := set c | c in cfp :: Node(i, c);
    assert forall n: Node :: n == Node(n.state, n.cfg);
    r
  }

  /** The table with one more state, which has no shifts yet. */
  function Inserted(T: Table, basis: seq<Config>, cfp: seq<Config>, cl: Closure): Table
    requires forall c :: c in cfp ==> c in cl.fws && c in cl.fplp
  {
    var i := |T.states|;
    var nodes := NodeSet(i, cfp);
    Table(
      T.states + [State(basis, cfp, map[])],
      T.fws + map n | n in nodes :: cl.fws[n.cfg],
      T.fplp + map n | n in nodes :: ToNodes(i, cl.fplp[n.cfg]),
      T.bplp + map n | n in nodes :: [])
  }

  /** What makes a kernel fit to become the next state: it is the start kernel or comes from a state. */
  ghost predicate Fresh(g: Grammar, states: seq<State>, basis: seq<Config>) {
    && (forall i :: 0 <= i < |states| ==> states[i].basis != basis)
    && Sourced(g, states, basis)
  }

  ghost predicate Sourced(g: Grammar, states: seq<State>, basis: seq<Config>) {
    if states == [] then IsStart(g, basis) else exists i, x :: KernelFrom(g, states, i, x, basis)
  }

  lemma InsertedStates(g: Grammar, states: seq<State>, basis: seq<Config>, cfp: seq<Config>)
    requires StatesOk(g, states) && Fresh(g, states, basis)
    requires StateOk(g, State(basis, cfp, map[]))
    ensures StatesOk(g, states + [State(basis, cfp, map[])])
  {
    var b := states + [State(basis, cfp, map[])];
    assert SameConfigs(states, b);
    forall i | 0 <= i < |b| ensures Reachable(g, b, i) {
      if i < |states| {
        ReachableMono(g, states, b, i);
      } else if states == [] {
        assert ReachIn(g, b, 0, 0);
      } else {
        var k: nat, x: nat :| KernelFrom(g, states, k, x, basis);
        ReachableMono(g, states, b, k);
        var n: nat :| ReachIn(g, b, n, k);
        assert KernelFrom(g, b, k, x, b[i].basis);
        assert ReachIn(g, b, n + 1, i);
      }
    }
    forall i | 0 <= i < |b| ensures ShiftsSound(g, b, i) {
      if i < |states| { assert ShiftsSound(g, states, i); }
    }
  }

  /** cfp is the closure list, sorted. */
  ghost predicate Fits(cfp: seq<Config>, cl: Closure) {
    forall c :: (c in cfp <==> c in cl.cfp) && (c in cl.cfp ==> c in cl.fws && c in cl.fplp)
  }

  lemma InsertedLookup(T: Table, basis: seq<Config>, cfp: seq<Config>, cl: Closure, i: nat, c: Config)
    requires Fits(cfp, cl) && i <= |T.states|
    ensures var T' := Inserted(T, basis, cfp, cl); var n := Node(i, c);
      && (i < |T.states| && n in T.fws ==> n in T'.fws && T'.fws[n] == T.fws[n])
      && (i < |T.states| && n in T.fplp ==> n in T'.fplp && T'.fplp[n] == T.fplp[n])
      && (i < |T.states| && n in T.bplp ==> n in T'.bplp && T'.bplp[n] == T.bplp[n])
      && (i == |T.states| && c in cfp ==>
            && n in T'.fws && T'.fws[n] == cl.fws[c]
            && n in T'.fplp && T'.fplp[n] == ToNodes(i, cl.fplp[c])
            && n in T'.bplp && T'.bplp[n] == [])
  {
  }

  lemma InsertedKeys(T: Table, basis: seq<Config>, cfp: seq<Config>, cl: Closure)
    requires Fits(cfp, cl) && KeysOk(T)
    ensures KeysOk(Inserted(T, basis, cfp, cl))
  {
    var T' := Inserted(T, basis, cfp, cl);
    assert forall n :: IsNode(T.states, n) ==> IsNode(T'.states, n);
  }

  lemma InsertedFws(f: Firsts, T: Table, basis: seq<Config>, cfp: seq<Config>, cl: Closure)
    requires |f.lam| == |f.first| && FwsOk(f, T) && Fits(cfp, cl)
    requires SeedsExact(f, basis, if T.states == [] then {0} else {}, cl)
    ensures FwsOk(f, Inserted(T, basis, cfp, cl))
  {
    var T' := Inserted(T, basis, cfp, cl);
    forall i, c | 0 <= i < |T'.states| && c in T'.states[i].cfp ensures FwsCell(f, T', i, c) {
      InsertedLookup(T, basis, cfp, cl, i, c);
      if i < |T.states| {
        assert FwsCell(f, T, i, c);
        OldSeed(f, T, T', i, c);
      } else {
        NewSeed(f, T, basis, cfp, cl, c);
      }
    }
  }

  lemma OldSeed(f: Firsts, T: Table, T': Table, i: nat, c: Config)
    requires |f.lam| == |f.first| && i < |T.states| && SameConfigs(T.states, T'.states)
    ensures forall t :: SeedOf(f, T'.states, i, c, t) <==> SeedOf(f, T.states, i, c, t)
  {
  }

  lemma NewSeed(f: Firsts, T: Table, basis: seq<Config>, cfp: seq<Config>, cl: Closure, c: Config)
    requires |f.lam| == |f.first| && Fits(cfp, cl) && c in cfp
    requires SeedsExact(f, basis, if T.states == [] then {0} else {}, cl)
    ensures forall t :: t in cl.fws[c] <==> SeedOf(f, Inserted(T, basis, cfp, cl).states, |T.states|, c, t)
  {
    var states := Inserted(T, basis, cfp, cl).states;
    var init: set<nat> := if T.states == [] then {0} else {};
    assert cl.cfp[..|cl.cfp|] == cl.cfp;
    forall t ensures t in cl.fws[c] <==> SeedOf(f, states, |T.states|, c, t) {
      assert t in cl.fws[c] <==> Seeded(f, basis, init, cl.cfp, |cl.cfp|, 0, c, t);
      if p :| p in cfp && Seeds(f, p, c, t) {
        assert Done(cl.cfp, |cl.cfp|, 0, p, c);
      }
    }
  }

  lemma InsertedFplp(f: Firsts, T: Table, basis: seq<Config>, cfp: seq<Config>, cl: Closure)
    requires FplpOk(f, T) && LinksExact(f, cl) && Fits(cfp, cl)
    ensures FplpOk(f, Inserted(T, basis, cfp, cl))
  {
    var T' := Inserted(T, basis, cfp, cl);
    forall i, p | 0 <= i < |T'.states| && p in T'.states[i].cfp ensures FplpCell(f, T', i, p) {
      InsertedLookup(T, basis, cfp, cl, i, p);
      if i < |T.states| {
        assert FplpCell(f, T, i, p);
      } else {
        InToNodes(i, cl.fplp[p]);
      }
    }
  }

  lemma InToNodes(i: nat, s: seq<Config>)
    ensures forall n :: n in ToNodes(i, s) <==> n.state == i && n.cfg in s
  {
    forall n: Node | n.state == i && n.cfg in s ensures n in ToNodes(i, s) {
      var k :| 0 <= k < |s| && s[k] == n.cfg;
      assert ToNodes(i, s)[k] == n;
    }
  }

  lemma InsertedBplp(g: Grammar, T: Table, basis: seq<Config>, cfp: seq<Config>, cl: Closure)
    requires StatesOk(g, T.states) && BplpOk(g, T) && Fits(cfp, cl)
    ensures BplpOk(g, Inserted(T, basis, cfp, cl))
  {
    var T' := Inserted(T, basis, cfp, cl);
    forall j, c | 0 <= j < |T'.states| && c in T'.states[j].cfp ensures BplpCell(g, T', j, c) {
      InsertedLookup(T, basis, cfp, cl, j, c);
      forall n ensures ShiftEdge(g, T'.states, n, j, c) <==> j < |T.states| && ShiftEdge(g, T.states, n, j, c) {
        if n.state < |T.states| {
          assert T'.states[n.state] == T.states[n.state];
          assert ShiftsSound(g, T.states, n.state);
        }
      }
      if j < |T.states| {
        assert BplpCell(g, T, j, c);
      }
    }
  }

  lemma InsertedOk(f: Firsts, T: Table, basis: seq<Config>, cfp: seq<Config>, cl: Closure)
    requires TableOk(f, T) && Fresh(f.g, T.states, basis) && StateOk(f.g, State(basis, cfp, map[]))
    requires SeedsExact(f, basis, if T.states == [] then {0} else {}, cl) && LinksExact(f, cl)
    requires Fits(cfp, cl)
    ensures TableOk(f, Inserted(T, basis, cfp, cl))
  {
    InsertedStates(f.g, T.states, basis, cfp);
    InsertedKeys(T, basis, cfp, cl);
    InsertedFws(f, T, basis, cfp, cl);
    InsertedFplp(f, T, basis, cfp, cl);
    InsertedBplp(f.g, T, basis, cfp, cl);
  }

  // ---- a new shift ----

  /** The back link that the shift of state i over x to state j gives node n, if any. */
  function NewBack(g: Grammar, i: nat, cfp: seq<Config>, x: nat, j: nat, n: Node): seq<Node> {
    if n.state == j && n.cfg.dot > 0 && Retreat(n.cfg) in cfp && AtDot(g, Retreat(n.cfg), x)
    then [Node(i, Retreat(n.cfg))] else []
  }

  function WithShift(g: Grammar, T: Table, i: nat, x: nat, j: nat): Table
    requires i < |T.states|
  {
    var st := T.states[i];
    T.(states := T.states[i := st.(shifts := st.shifts[x := j])],
       bplp := map n | n in T.bplp :: T.bplp[n] + NewBack(g, i, st.cfp, x, j, n))
  }

  lemma WithShiftStates(g: Grammar, T: Table, i: nat, x: nat, j: nat)
    requires StatesOk(g, T.states) && i < |T.states| && j < |T.states|
    requires KernelFrom(g, T.states, i, x, T.states[j].basis)
    ensures StatesOk(g, WithShift(g, T, i, x, j).states)
  {
    var b := WithShift(g, T, i, x, j).states;
    forall k | 0 <= k < |b| ensures ShiftsSound(g, b, k) {
      assert ShiftsSound(g, T.states, k);
    }
    forall k | 0 <= k < |b| ensures StateOk(g, b[k]) && Reachable(g, b, k) {
      assert StateOk(g, T.states[k]);
      ReachableMono(g, T.states, b, k);
    }
  }

  lemma WithShiftFws(f: Firsts, T: Table, i: nat, x: nat, j: nat)
    requires |f.lam| == |f.first| && i < |T.states| && FwsOk(f, T) && FplpOk(f, T)
    ensures FwsOk(f, WithShift(f.g, T, i, x, j)) && FplpOk(f, WithShift(f.g, T, i, x, j))
  {
    var T' := WithShift(f.g, T, i, x, j);
    forall k, c | 0 <= k < |T'.states| && c in T'.states[k].cfp ensures FwsCell(f, T', k, c) && FplpCell(f, T', k, c) {
      assert FwsCell(f, T, k, c) && FplpCell(f, T, k, c);
      OldSeed(f, T, T', k, c);
    }
  }

  lemma WithShiftKeys(g: Grammar, T: Table, i: nat, x: nat, j: nat)
    requires KeysOk(T) && i < |T.states|
    ensures KeysOk(WithShift(g, T, i, x, j))
  {
    assert forall n :: IsNode(T.states, n) ==> IsNode(WithShift(g, T, i, x, j).states, n);
  }

  lemma WithShiftBplp(g: Grammar, T: Table, i: nat, x: nat, j: nat)
    requires BplpOk(g, T) && i < |T.states| && j < |T.states| && x !in T.states[i].shifts
    ensures BplpOk(g, WithShift(g, T, i, x, j))
  {
    var T' := WithShift(g, T, i, x, j);
    forall k, c | 0 <= k < |T'.states| && c in T'.states[k].cfp ensures BplpCell(g, T', k, c) {
      assert BplpCell(g, T, k, c);
      var extra := NewBack(g, i, T.states[i].cfp, x, j, Node(k, c));
      assert T'.bplp[Node(k, c)] == T.bplp[Node(k, c)] + extra;
      forall n ensures ShiftEdge(g, T'.states, n, k, c) <==> ShiftEdge(g, T.states, n, k, c) || n in extra {
        WithShiftEdge(g, T, i, x, j, n, k, c);
      }
    }
  }

  lemma WithShiftEdge(g: Grammar, T: Table, i: nat, x: nat, j: nat, n: Node, k: nat, c: Config)
    requires i < |T.states| && j < |T.states| && x !in T.states[i].shifts
    ensures ShiftEdge(g, WithShift(g, T, i, x, j).states, n, k, c)
       <==> ShiftEdge(g, T.states, n, k, c) || n in NewBack(g, i, T.states[i].cfp, x, j, Node(k, c))
  {
    var b := WithShift(g, T, i, x, j).states;
    var extra := NewBack(g, i, T.states[i].cfp, x, j, Node(k, c));
    assert n in extra <==> extra != [] && n == extra[0];
    assert c.dot > 0 ==> Advance(Retreat(c)) == c;
    assert Retreat(Advance(n.cfg)) == n.cfg;
  }

  lemma WithShiftOk(f: Firsts, T: Table, i: nat, x: nat, j: nat)
    requires TableOk(f, T) && i < |T.states| && j < |T.states| && x !in T.states[i].shifts
    requires KernelFrom(f.g, T.states, i, x, T.states[j].basis)
    ensures TableOk(f, WithShift(f.g, T, i, x, j))
  {
    WithShiftStates(f.g, T, i, x, j);
    WithShiftKeys(f.g, T, i, x, j);
    WithShiftFws(f, T, i, x, j);
    WithShiftBplp(f.g, T, i, x, j);
  }
}
