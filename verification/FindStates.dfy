/** The state search itself: getstate and buildshifts call each other until every kernel that can be
reached from the start kernel has its one state. */
module StateSearch {
  import opened Grammars
  import opened FirstSets
  import opened Automata
  import opened Lalr
  import opened ConfigLists
  import opened MergeSort
  import opened StateTables
  import opened Seals

  // ---- the kernel that a symbol selects ----

  /** The configurations of cfp with x after the dot, with the dot moved over it, in list order. */
  function KernelSeq(g: Grammar, cfp: seq<Config>, x: nat): seq<Config> {
    if cfp == [] then []
    else
      var n := |cfp| - 1;
      KernelSeq(g, cfp[..n], x) + if AtDot(g, cfp[n], x) then [Advance(cfp[n])] else []
  }

  lemma {:induction false} KernelSeqElements(g: Grammar, cfp: seq<Config>, x: nat)
    ensures IsKernel(g, cfp, x, KernelSeq(g, cfp, x))
  {
    if cfp != [] {
      var n := |cfp| - 1;
      KernelSeqElements(g, cfp[..n], x);
      assert cfp == cfp[..n] + [cfp[n]];
      forall c ensures c in KernelSeq(g, cfp, x) <==> c.dot > 0 && Retreat(c) in cfp && AtDot(g, Retreat(c), x) {
        assert c in [Advance(cfp[n])] <==> c.dot > 0 && Retreat(c) == cfp[n];
      }
    }
  }

  lemma {:induction false} KernelSeqDistinct(g: Grammar, cfp: seq<Config>, x: nat)
    requires Distinct(cfp)
    ensures Distinct(KernelSeq(g, cfp, x))
  {
    if cfp != [] {
      var n := |cfp| - 1;
      KernelSeqDistinct(g, cfp[..n], x);
      KernelSeqElements(g, cfp[..n], x);
      assert Retreat(Advance(cfp[n])) == cfp[n];
      assert cfp[n] !in cfp[..n];
      assert Advance(cfp[n]) !in KernelSeq(g, cfp[..n], x);
    }
  }

  lemma {:induction false} KernelSeqEmpty(g: Grammar, cfp: seq<Config>, x: nat)
    requires forall c :: c in cfp ==> !AtDot(g, c, x)
    ensures KernelSeq(g, cfp, x) == []
  {
    if cfp != [] {
      assert cfp[|cfp| - 1] in cfp;
      KernelSeqEmpty(g, cfp[..|cfp| - 1], x);
    }
  }

  // ---- the index of states by basis, and the measure of the search ----

  ghost predicate IndexOk(states: seq<State>, index: map<seq<Config>, nat>) {
    && (forall i :: 0 <= i < |states| ==> states[i].basis in index)
    && (forall b :: b in index ==> index[b] < |states| && states[index[b]].basis == b)
  }

  ghost function Universe(g: Grammar): set<set<Config>> {
    set s | s <= AllConfigs(g)
  }

  ghost function Kernels(states: seq<State>): set<set<Config>> {
    set i | 0 <= i < |states| :: Elements(states[i].basis)
  }

  /** The kernels that have no state yet. */
  ghost function Remaining(g: Grammar, states: seq<State>): set<set<Config>> {
    Universe(g) - Kernels(states)
  }

  lemma RemainingShrinks(g: Grammar, a: seq<State>, b: seq<State>)
    requires SameConfigs(a, b)
    ensures Remaining(g, b) <= Remaining(g, a)
    ensures Remaining(g, b) == Remaining(g, a) || Remaining(g, b) < Remaining(g, a)
  {
    forall k | k in Kernels(a) ensures k in Kernels(b) {
      var i :| 0 <= i < |a| && Elements(a[i].basis) == k;
      assert Elements(b[i].basis) == k;
    }
  }

  lemma NewKernelShrinks(g: Grammar, a: seq<State>, st: State)
    requires forall i :: 0 <= i < |a| ==> StrictlySorted(a[i].basis) && a[i].basis != st.basis
    requires StrictlySorted(st.basis) && forall c :: c in st.basis ==> InGrammar(g, c)
    ensures Remaining(g, a + [st]) < Remaining(g, a)
  {
    var b := a + [st];
    RemainingShrinks(g, a, b);
    var k := Elements(st.basis);
    assert k in Universe(g);
    if k in Kernels(a) {
      var i :| 0 <= i < |a| && Elements(a[i].basis) == k;
      forall c ensures c in a[i].basis <==> c in st.basis {
        assert c in a[i].basis <==> c in k;
      }
      StrictlySortedUnique(a[i].basis, st.basis);
      assert false;
    }
    assert b[|a|].basis == st.basis && k in Kernels(b);
  }

  /** Everything from state n on has all its shifts. */
  ghost predicate TotalFrom(g: Grammar, states: seq<State>, n: nat) {
    forall i :: n <= i < |states| ==> ShiftsTotal(g, states, i)
  }

  /** b is a with possibly more states; only the shifts of state s may have changed. */
  ghost predicate OnlyShiftsOf(a: seq<State>, b: seq<State>, s: nat) {
    && |a| <= |b|
    && (forall i :: 0 <= i < |a| && i != s ==> a[i] == b[i])
    && (s < |a| ==> a[s].basis == b[s].basis && a[s].cfp == b[s].cfp)
  }

  /** The symbol after the dot of cfp[m], when there is one, already has its shift. */
  predicate Shifted(g: Grammar, st: State, c: Config) {
    c.rule < |g.rules| && c.dot < |g.rules[c.rule].rhs| && g.rules[c.rule].rhs[c.dot] in st.shifts
  }

  // ---- steps of the search, on values ----

  /** What is fixed during the search. */
  ghost predicate Bounds(f: Firsts) {
    && f.g.Valid() && |f.lam| == |f.first| == f.g.nsymbol
    && (forall x :: 0 <= x < f.g.nterminal ==> !f.lam[x])
    && |AllConfigs(f.g)| < Pow2(LISTSIZE)
  }

  /** The invariant of the search, sealed. */
  ghost predicate Good(f: Firsts, T: Table, index: map<seq<Config>, nat>) {
    forall q {:trigger Open(q)} :: Open(q) && q == T ==> TableOk(f, q) && IndexOk(q.states, index)
  }

  /** A kernel that may be passed to getstate, sealed. */
  ghost predicate Offered(g: Grammar, states: seq<State>, raw: seq<Config>) {
    && Distinct(raw) && (forall c :: c in raw ==> InGrammar(g, c))
    && forall q {:trigger Open(q)} :: Open(q) && q == states ==> Sourced(g, q, raw)
  }

  lemma StateFacts(g: Grammar, states: seq<State>, s: nat)
    requires StatesOk(g, states) && s < |states|
    ensures Distinct(states[s].cfp) && forall c :: c in states[s].cfp ==> InGrammar(g, c)
  {
    assert StateOk(g, states[s]);
    StrictDistinct(states[s].cfp);
  }

  lemma SourcedSame(g: Grammar, states: seq<State>, a: seq<Config>, b: seq<Config>)
    requires Sourced(g, states, a) && forall c :: c in a <==> c in b
    ensures Sourced(g, states, b)
  {
    if states != [] {
      var i: nat, x: nat :| KernelFrom(g, states, i, x, a);
      assert KernelFrom(g, states, i, x, b);
    }
  }

  lemma ClosureSame(g: Grammar, basis: seq<Config>, a: seq<Config>, b: seq<Config>)
    requires IsClosure(g, basis, a) && forall c :: c in a <==> c in b
    ensures IsClosure(g, basis, b)
  {
  }

  lemma FreshBasis(g: Grammar, states: seq<State>, index: map<seq<Config>, nat>, basis: seq<Config>)
    requires IndexOk(states, index) && basis !in index && Sourced(g, states, basis)
    ensures Fresh(g, states, basis)
  {
  }

  /** What the gathered basis has to be for getstate. */
  lemma KernelFacts(g: Grammar, states: seq<State>, s: nat, x: nat)
    requires StatesOk(g, states) && s < |states| && HasAtDot(g, states[s].cfp, x)
    ensures var raw := KernelSeq(g, states[s].cfp, x);
      Distinct(raw) && (forall c :: c in raw ==> InGrammar(g, c)) && Sourced(g, states, raw)
      && IsKernel(g, states[s].cfp, x, raw)
  {
    StateFacts(g, states, s);
    KernelSeqDistinct(g, states[s].cfp, x);
    KernelSeqElements(g, states[s].cfp, x);
    assert KernelFrom(g, states, s, x, KernelSeq(g, states[s].cfp, x));
  }

  lemma KernelSame(g: Grammar, states: seq<State>, s: nat, x: nat, raw: seq<Config>, basis: seq<Config>)
    requires s < |states| && HasAtDot(g, states[s].cfp, x) && IsKernel(g, states[s].cfp, x, raw)
    requires forall c :: c in raw <==> c in basis
    ensures KernelFrom(g, states, s, x, basis)
  {
  }

  /** A new shift of state s keeps every other state total. */
  lemma WithShiftTotal(g: Grammar, T: Table, s: nat, x: nat, j: nat, n: nat, m: nat)
    requires s < n <= m <= |T.states| && TotalFrom(g, T.states, m)
    requires forall i :: n <= i < m ==> ShiftsTotal(g, T.states, i)
    ensures TotalFrom(g, WithShift(g, T, s, x, j).states, n)
  {
    var b := WithShift(g, T, s, x, j).states;
    forall i | n <= i < |b| ensures ShiftsTotal(g, b, i) {
      assert b[i] == T.states[i] && ShiftsTotal(g, T.states, i);
    }
  }

  /** A configuration is marked exactly when the symbol after its dot already has its shift. */
  ghost predicate StatusOk(g: Grammar, st: State, cfp: seq<Config>, status: seq<bool>) {
    |status| == |cfp| && forall m :: 0 <= m < |cfp| ==> (status[m] <==> Shifted(g, st, cfp[m]))
  }

  lemma StatusNext(g: Grammar, st: State, cfp: seq<Config>, x: nat, j: nat, a: seq<bool>, b: seq<bool>)
    requires StatusOk(g, st, cfp, a) && |b| == |a|
    requires forall m :: 0 <= m < |cfp| ==> (b[m] <==> a[m] || AtDot(g, cfp[m], x))
    ensures StatusOk(g, st.(shifts := st.shifts[x := j]), cfp, b)
  {
  }

  /** The new shift leaves everything else as getstate left it. */
  lemma GrowTotal(g: Grammar, before: seq<State>, mid: seq<State>, T: Table, s: nat, x: nat, j: nat)
    requires s < |before| && OnlyShiftsOf(before, mid, s) && mid <= T.states
    requires TotalFrom(g, mid, |before|) && TotalFrom(g, T.states, |mid|)
    ensures OnlyShiftsOf(before, WithShift(g, T, s, x, j).states, s)
    ensures TotalFrom(g, WithShift(g, T, s, x, j).states, |before|)
  {
    forall i | |before| <= i < |mid| ensures ShiftsTotal(g, T.states, i) {
      assert ShiftsTotal(g, mid, i) && mid[i] == T.states[i];
    }
    WithShiftTotal(g, T, s, x, j, |before|, |mid|);
    assert forall i :: 0 <= i < |before| ==> mid[i] == T.states[i];
  }

  lemma AllShifted(g: Grammar, states: seq<State>, s: nat)
    requires s < |states|
    requires forall m ::
      0 <= m < |states[s].cfp| && !Complete(g, states[s].cfp[m]) ==> Shifted(g, states[s], states[s].cfp[m])
    ensures ShiftsTotal(g, states, s)
  {
    forall x | HasAtDot(g, states[s].cfp, x) ensures x in states[s].shifts {
      var c :| c in states[s].cfp && AtDot(g, c, x);
      var m :| 0 <= m < |states[s].cfp| && states[s].cfp[m] == c;
      assert Shifted(g, states[s], c);
    }
  }

  lemma GoodState(f: Firsts, T: Table, index: map<seq<Config>, nat>, s: nat)
    requires Good(f, T, index) && s < |T.states|
    ensures Distinct(T.states[s].cfp) && forall c :: c in T.states[s].cfp ==> InGrammar(f.g, c)
  {
    assert Open(T);
    StateFacts(f.g, T.states, s);
  }

  lemma GoodFind(f: Firsts, T: Table, index: map<seq<Config>, nat>, basis: seq<Config>)
    requires Good(f, T, index) && basis in index
    ensures index[basis] < |T.states| && T.states[index[basis]].basis == basis
  {
    assert Open(T);
  }

  lemma OfferedSame(g: Grammar, states: seq<State>, a: seq<Config>, b: seq<Config>)
    requires Offered(g, states, a) && Distinct(b) && forall c :: c in a <==> c in b
    ensures Offered(g, states, b)
  {
    assert Open(states);
    SourcedSame(g, states, a, b);
  }

  lemma GoodInsert(f: Firsts, T: Table, index: map<seq<Config>, nat>, basis: seq<Config>, cfp: seq<Config>, cl: Closure)
    requires Good(f, T, index) && Offered(f.g, T.states, basis) && StrictlySorted(basis) && basis !in index
    requires |f.lam| == |f.first| && IsClosure(f.g, basis, cl.cfp)
    requires SeedsExact(f, basis, if T.states == [] then {0} else {}, cl) && LinksExact(f, cl)
    requires StrictlySorted(cfp) && Fits(cfp, cl)
    ensures Good(f, Inserted(T, basis, cfp, cl), index[basis := |T.states|])
    ensures Remaining(f.g, Inserted(T, basis, cfp, cl).states) < Remaining(f.g, T.states)
  {
    assert Open(T) && Open(T.states);
    ClosureSame(f.g, basis, cl.cfp, cfp);
    FreshBasis(f.g, T.states, index, basis);
    InsertedOk(f, T, basis, cfp, cl);
    InsertedIndex(T.states, index, State(basis, cfp, map[]));
    forall i | 0 <= i < |T.states| ensures StrictlySorted(T.states[i].basis) {
      assert StateOk(f.g, T.states[i]);
    }
    NewKernelShrinks(f.g, T.states, State(basis, cfp, map[]));
  }

  lemma InsertedIndex(states: seq<State>, index: map<seq<Config>, nat>, st: State)
    requires IndexOk(states, index) && st.basis !in index
    ensures IndexOk(states + [st], index[st.basis := |states|])
  {
  }

  lemma GoodKernel(f: Firsts, T: Table, index: map<seq<Config>, nat>, s: nat, c: Config, x: nat)
    requires Good(f, T, index) && s < |T.states| && c in T.states[s].cfp && AtDot(f.g, c, x)
    ensures Offered(f.g, T.states, KernelSeq(f.g, T.states[s].cfp, x))
    ensures IsKernel(f.g, T.states[s].cfp, x, KernelSeq(f.g, T.states[s].cfp, x))
  {
    assert Open(T);
    KernelFacts(f.g, T.states, s, x);
  }

  lemma GoodShift(f: Firsts, T: Table, index: map<seq<Config>, nat>, s: nat, c: Config, x: nat, j: nat)
    requires Good(f, T, index) && s < |T.states| && j < |T.states|
    requires c in T.states[s].cfp && AtDot(f.g, c, x) && x !in T.states[s].shifts
    requires forall c :: c in T.states[j].basis <==> c in KernelSeq(f.g, T.states[s].cfp, x)
    ensures Good(f, WithShift(f.g, T, s, x, j), index)
    ensures forall c :: c in T.states[s].cfp && AtDot(f.g, c, x) ==> Node(j, Advance(c)) in T.bplp
  {
    assert Open(T);
    KernelFacts(f.g, T.states, s, x);
    KernelSame(f.g, T.states, s, x, KernelSeq(f.g, T.states[s].cfp, x), T.states[j].basis);
    WithShiftOk(f, T, s, x, j);
    WithShiftIndex(f.g, T, index, s, x, j);
    forall c | c in T.states[s].cfp && AtDot(f.g, c, x) ensures Node(j, Advance(c)) in T.bplp {
      assert Retreat(Advance(c)) == c && Advance(c) in T.states[j].basis;
      assert StateOk(f.g, T.states[j]);
      assert BplpCell(f.g, T, j, Advance(c));
    }
  }

  lemma WithShiftIndex(g: Grammar, T: Table, index: map<seq<Config>, nat>, s: nat, x: nat, j: nat)
    requires s < |T.states| && IndexOk(T.states, index)
    ensures IndexOk(WithShift(g, T, s, x, j).states, index)
  {
  }

  /** One more source configuration gives one more back link, to one node. */
  lemma NewBackStep(g: Grammar, i: nat, cfp: seq<Config>, m: nat, x: nat, j: nat)
    requires m < |cfp| && Distinct(cfp)
    ensures forall n ::
      NewBack(g, i, cfp[..m + 1], x, j, n) == NewBack(g, i, cfp[..m], x, j, n) +
        if AtDot(g, cfp[m], x) && n == Node(j, Advance(cfp[m])) then [Node(i, cfp[m])] else []
  {
    assert cfp[..m + 1] == cfp[..m] + [cfp[m]] && cfp[m] !in cfp[..m];
    assert Retreat(Advance(cfp[m])) == cfp[m];
  }

  lemma AutomatonOf(g: Grammar, states: seq<State>)
    requires StatesOk(g, states) && states != [] && TotalFrom(g, states, 0)
    ensures IsAutomaton(g, states)
  {
    forall i | 0 <= i < |states| ensures IsClosure(g, states[i].basis, states[i].cfp) {
      assert StateOk(g, states[i]);
    }
  }

  class Generator {
    const f: Firsts
    var tab: Table
    var index: map<seq<Config>, nat>

    constructor (f: Firsts)
      ensures this.f == f && tab == Table([], map[], map[], map[]) && index == map[]
    {
      this.f := f;
      tab := Table([], map[], map[], map[]);
      index := map[];
    }

    /** FindStates: all states, from the start kernel. */
    method FindStates()
      requires Bounds(f) && tab == Table([], map[], map[], map[]) && index == map[]
      modifies this
      ensures TableOk(f, tab) && IsAutomaton(f.g, tab.states)
    {
      var raw := [];
      for r := 0 to |f.g.rules|
        invariant raw == StartSeq(f.g, r) && tab == old(tab) && index == old(index)
      {
        if f.g.rules[r].lhs == f.g.start {
          raw := raw + [Config(r, 0)];
        }
      }
      StartSeqFacts(f.g, |f.g.rules|);
      assert IsStart(f.g, raw);
      var s := GetState(raw);
      assert Open(tab);
      AutomatonOf(f.g, tab.states);
    }

    /** getstate: the state of a kernel, created together with all its successors if it is new. */
    method GetState(raw: seq<Config>) returns (s: nat)
      requires Bounds(f) && Good(f, tab, index) && Offered(f.g, tab.states, raw)
      modifies this
      ensures Good(f, tab, index) && old(tab.states) <= tab.states
      ensures s < |tab.states| && forall c :: c in tab.states[s].basis <==> c in raw
      ensures TotalFrom(f.g, tab.states, |old(tab.states)|)
      decreases Remaining(f.g, tab.states), 0
    {
      var basis := SortConfigs(f.g, raw);
      StrictDistinct(basis);
      OfferedSame(f.g, tab.states, raw, basis);
      if basis in index {
        GoodFind(f, tab, index, basis);
        s := index[basis];
      } else {
        s := |tab.states|;
        NewState(basis);
        BuildShifts(s);
      }
    }

    /** The "really new state" half of getstate, up to the call of buildshifts. */
    method NewState(basis: seq<Config>)
      requires Bounds(f) && Good(f, tab, index) && Offered(f.g, tab.states, basis)
      requires StrictlySorted(basis) && basis !in index
      modifies this
      ensures Good(f, tab, index) && |tab.states| == |old(tab.states)| + 1 && old(tab.states) <= tab.states
      ensures var st := tab.states[|old(tab.states)|]; st.basis == basis && st.shifts == map[]
      ensures Remaining(f.g, tab.states) < Remaining(f.g, old(tab.states))
    {
      var cl := ConfiglistClosure(f, basis, if tab.states == [] then {0} else {});
      var cfp := SortConfigs(f.g, cl.cfp);
      GoodInsert(f, tab, index, basis, cfp, cl);
      index := index[basis := |tab.states|];
      tab := Inserted(tab, basis, cfp, cl);
    }

    /** buildshifts: one successor for every symbol after a dot. */
    method BuildShifts(s: nat)
      requires Bounds(f) && Good(f, tab, index) && s < |tab.states| && tab.states[s].shifts == map[]
      modifies this
      ensures Good(f, tab, index) && OnlyShiftsOf(old(tab.states), tab.states, s)
      ensures ShiftsTotal(f.g, tab.states, s) && TotalFrom(f.g, tab.states, |old(tab.states)|)
      decreases Remaining(f.g, tab.states), 2
    {
      var cfp := tab.states[s].cfp;
      GoodState(f, tab, index, s);
      ghost var before := tab.states;
      var status := new bool[|cfp|](_ => false);
      for k := 0 to |cfp|
        invariant Good(f, tab, index) && OnlyShiftsOf(before, tab.states, s)
        invariant TotalFrom(f.g, tab.states, |before|)
        invariant StatusOk(f.g, tab.states[s], cfp, status[..])
        invariant forall m :: 0 <= m < k && !Complete(f.g, cfp[m]) ==> status[m]
      {
        assert cfp[k] in cfp;
        RemainingShrinks(f.g, before, tab.states);
        if !status[k] && cfp[k].dot < |f.g.rules[cfp[k].rule].rhs| {
          OneShift(s, cfp, k, status, before);
        }
      }
      AllShifted(f.g, tab.states, s);
    }

    /** One turn of the outer loop of buildshifts. */
    method OneShift(s: nat, cfp: seq<Config>, k: nat, status: array<bool>, ghost before: seq<State>)
      requires Bounds(f) && Good(f, tab, index)
      requires s < |before| && OnlyShiftsOf(before, tab.states, s) && tab.states[s].cfp == cfp
      requires TotalFrom(f.g, tab.states, |before|)
      requires k < |cfp| == status.Length && !status[k]
      requires cfp[k].rule < |f.g.rules| && cfp[k].dot < |f.g.rules[cfp[k].rule].rhs|
      requires StatusOk(f.g, tab.states[s], cfp, status[..])
      requires forall m :: 0 <= m < k && !Complete(f.g, cfp[m]) ==> status[m]
      modifies this, status
      ensures Good(f, tab, index) && OnlyShiftsOf(before, tab.states, s)
      ensures TotalFrom(f.g, tab.states, |before|)
      ensures StatusOk(f.g, tab.states[s], cfp, status[..])
      ensures status[k] && forall m :: 0 <= m < |cfp| && old(status[m]) ==> status[m]
      decreases Remaining(f.g, tab.states), 1
    {
      GoodState(f, tab, index, s);
      assert cfp[k] in cfp;
      var sp := f.g.rules[cfp[k].rule].rhs[cfp[k].dot];
      var raw := CollectBasis(cfp, k, sp, status, tab.states[s]);
      GoodKernel(f, tab, index, s, cfp[k], sp);
      ghost var mid := tab.states;
      var j := GetState(raw);
      assert tab.states[s] == mid[s];
      GoodShift(f, tab, index, s, cfp[k], sp, j);
      GrowTotal(f.g, before, mid, tab, s, sp, j);
      StatusNext(f.g, mid[s], cfp, sp, j, old(status[..]), status[..]);
      LinkShift(s, sp, j);
    }

    /** The inner loop of buildshifts: gather the basis for symbol sp and mark its sources. */
    method CollectBasis(cfp: seq<Config>, k: nat, sp: nat, status: array<bool>, ghost st: State)
      returns (raw: seq<Config>)
      requires k < |cfp| == status.Length && StatusOk(f.g, st, cfp, status[..])
      requires forall m :: 0 <= m < k && !Complete(f.g, cfp[m]) ==> status[m]
      requires forall c :: c in cfp ==> InGrammar(f.g, c)
      requires AtDot(f.g, cfp[k], sp) && !status[k]
      modifies status
      ensures raw == KernelSeq(f.g, cfp, sp)
      ensures forall m :: 0 <= m < |cfp| ==> (status[m] <==> old(status[m]) || AtDot(f.g, cfp[m], sp))
    {
      raw := [];
      forall c | c in cfp[..k] ensures !AtDot(f.g, c, sp) {
        var m :| 0 <= m < k && cfp[m] == c;
      }
      KernelSeqEmpty(f.g, cfp[..k], sp);
      for m := k to |cfp|
        invariant raw == KernelSeq(f.g, cfp[..m], sp)
        invariant forall i :: 0 <= i < |cfp| ==>
          (status[i] <==> old(status[i]) || (i < m && AtDot(f.g, cfp[i], sp)))
      {
        assert cfp[m] in cfp;
        assert cfp[..m + 1][..m] == cfp[..m];
        if !status[m] && cfp[m].dot < |f.g.rules[cfp[m].rule].rhs| && f.g.rules[cfp[m].rule].rhs[cfp[m].dot] == sp {
          status[m] := true;
          raw := raw + [Advance(cfp[m])];
        }
      }
      assert cfp[..|cfp|] == cfp;
    }

    /** Record the shift and the links from its sources to its target. */
    method LinkShift(s: nat, sp: nat, j: nat)
      requires s < |tab.states| && j < |tab.states|
      requires Distinct(tab.states[s].cfp)
      requires forall c :: c in tab.states[s].cfp && AtDot(f.g, c, sp) ==> Node(j, Advance(c)) in tab.bplp
      modifies this
      ensures tab == WithShift(f.g, old(tab), s, sp, j) && index == old(index)
    {
      var st := tab.states[s];
      var bplp := BackLinks(f.g, tab.bplp, s, st.cfp, sp, j);
      tab := tab.(states := tab.states[s := st.(shifts := st.shifts[sp := j])], bplp := bplp);
    }
  }

  /** The start kernel, in rule order. */
  function StartSeq(g: Grammar, r: nat): seq<Config>
    requires r <= |g.rules|
  {
    if r == 0 then []
    else StartSeq(g, r - 1) + if g.rules[r - 1].lhs == g.start then [Config(r - 1, 0)] else []
  }

  lemma {:induction false} StartSeqFacts(g: Grammar, r: nat)
    requires r <= |g.rules|
    ensures Distinct(StartSeq(g, r))
    ensures forall c :: c in StartSeq(g, r) <==> c.dot == 0 && c.rule < r && g.rules[c.rule].lhs == g.start
  {
    if r > 0 {
      StartSeqFacts(g, r - 1);
    }
  }

  /** The back links that the sources of a shift add, one source at a time. */
  method BackLinks(g: Grammar, bplp0: map<Node, seq<Node>>, s: nat, cfp: seq<Config>, sp: nat, j: nat)
    returns (bplp: map<Node, seq<Node>>)
    requires Distinct(cfp) && forall c :: c in cfp && AtDot(g, c, sp) ==> Node(j, Advance(c)) in bplp0
    ensures bplp == map n | n in bplp0 :: bplp0[n] + NewBack(g, s, cfp, sp, j, n)
  {
    bplp := bplp0;
    for m := 0 to |cfp|
      invariant bplp.Keys == bplp0.Keys
      invariant forall n :: n in bplp0 ==> bplp[n] == bplp0[n] + NewBack(g, s, cfp[..m], sp, j, n)
    {
      var c := cfp[m];
      assert c in cfp;
      NewBackStep(g, s, cfp, m, sp, j);
      if c.rule < |g.rules| && c.dot < |g.rules[c.rule].rhs| && g.rules[c.rule].rhs[c.dot] == sp {
        var n := Node(j, Advance(c));
        bplp := bplp[n := bplp[n] + [Node(s, c)]];
      }
    }
    assert cfp[..|cfp|] == cfp;
  }
}
