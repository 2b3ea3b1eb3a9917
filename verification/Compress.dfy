/** CompressTables: default reductions, SHIFTREDUCE conversion and the bypass of code-free unit rules. */
module Compress {
  import opened Grammars
  import opened Automata
  import opened MergeSort
  import opened ConfigLists
  import opened StateTables
  import opened Actions

  // ---- the most frequent reduction ----

  predicate IsReduce(a: Action, r: int) {
    a.ty == REDUCE && a.x == r
  }

  /** May be made the default: not a rule of the start symbol. */
  predicate CanDefault(g: Grammar, a: Action) {
    a.ty == REDUCE && a.x < |g.rules| && g.rules[a.x].lhs != g.start
  }

  /** How many actions from position i on reduce by r. */
  function Count(l: seq<Action>, i: nat, r: int): nat
    requires i <= |l|
    decreases |l| - i
  {
    if i == |l| then 0 else (if IsReduce(l[i], r) then 1 else 0) + Count(l, i + 1, r)
  }

  lemma {:induction false} CountFrom(l: seq<Action>, i: nat, r: int)
    requires i <= |l|
    ensures Count(l, i, r) <= Count(l, 0, r)
    ensures (forall j :: 0 <= j < i ==> !IsReduce(l[j], r)) ==> Count(l, i, r) == Count(l, 0, r)
  {
    if i > 0 {
      CountFrom(l, i - 1, r);
    }
  }

  /** rbest is the first rule that can be the default and that no other such rule outnumbers; -1 if none. */
  ghost predicate IsBest(g: Grammar, l: seq<Action>, rbest: int) {
    && (rbest < 0 ==> rbest == -1 && forall a :: a in l ==> !CanDefault(g, a))
    && (rbest >= 0 ==>
          && (exists a :: a in l && CanDefault(g, a) && a.x == rbest)
          && (forall a :: a in l && CanDefault(g, a) ==> Count(l, 0, a.x) <= Count(l, 0, rbest))
          && (exists i :: FoundAt(g, l, rbest, i)))
  }

  /** Action i reduces by rbest, and no rule seen before it occurs as often. */
  ghost predicate FoundAt(g: Grammar, l: seq<Action>, rbest: int, i: nat) {
    && i < |l| && IsReduce(l[i], rbest)
    && forall j :: 0 <= j < i && CanDefault(g, l[j]) ==> Count(l, 0, l[j].x) < Count(l, 0, rbest)
  }

  /** The search for the most frequent reduction. */
  method FindBest(g: Grammar, l: seq<Action>) returns (rbest: int)
    ensures IsBest(g, l, rbest)
  {
    var nbest := 0;
    rbest := -1;
    for i := 0 to |l|
      invariant rbest < 0 ==> rbest == -1 && nbest == 0
      invariant rbest >= 0 ==> nbest == Count(l, 0, rbest) && exists a :: a in l && CanDefault(g, a) && a.x == rbest
      invariant forall j :: 0 <= j < i && CanDefault(g, l[j]) ==> 0 < Count(l, 0, l[j].x) <= nbest
      invariant rbest >= 0 ==> exists j :: FoundAt(g, l, rbest, j)
    {
      var ap := l[i];
      CountFrom(l, i, ap.x);
      assert (exists j :: 0 <= j < i && IsReduce(l[j], ap.x)) || Count(l, i, ap.x) == Count(l, 0, ap.x);
      if ap.ty == REDUCE && ap.x < |g.rules| && g.rules[ap.x].lhs != g.start && ap.x != rbest {
        var n := CountOf(l, i, ap.x, rbest);
        assert ap in l;
        if n > nbest {
          nbest, rbest := n, ap.x;
          assert FoundAt(g, l, rbest, i);
        }
      }
    }
  }

  /** The inner loop: occurrences of rp from position i, which holds one. */
  method CountOf(l: seq<Action>, i: nat, rp: nat, rbest: int) returns (n: nat)
    requires i < |l| && IsReduce(l[i], rp) && rp != rbest
    ensures n == Count(l, i, rp)
  {
    n := 1;
    for j := i + 1 to |l|
      invariant n + Count(l, j, rp) == Count(l, i, rp)
    {
      if l[j].ty == REDUCE && l[j].x != rbest && l[j].x == rp {
        n := n + 1;
      }
    }
  }

  // ---- the first pass over one state ----

  /** The effect of making r the default: its reductions disappear, and one action on {default} appears. */
  ghost predicate Defaulted(g: Grammar, l: seq<Action>, m: seq<Action>, r: int) {
    && (forall a :: a in l && !IsReduce(a, r) ==> a in m)
    && (forall a :: a in m ==> (a in l && !IsReduce(a, r)) || Deleted(l, a, r) || (IsReduce(a, r) && a.sp == g.nsymbol))
    && (exists a :: a in m && IsReduce(a, r) && a.sp == g.nsymbol)
    && (forall a, b :: a in m && b in m && IsReduce(a, r) && IsReduce(b, r) ==> a == b)
    && (forall j, k :: 0 <= j < k < |m| ==> m[j].id != m[k].id)
    && |m| == |l|
  }

  /** a is a reduction by r of the list, deleted. */
  predicate Deleted(l: seq<Action>, a: Action, r: int) {
    a.ty == NOT_USED && a.x == r && a.(ty := REDUCE) in l
  }

  function MarkOne(ns: nat, a: Action, r: int, isFirst: bool): Action {
    if !IsReduce(a, r) then a else if isFirst then a.(sp := ns) else a.(ty := NOT_USED)
  }

  /** m is l with the first reduction by r moved to {default} and the others deleted. */
  ghost predicate Marked(g: Grammar, l: seq<Action>, m: seq<Action>, r: int, first: nat) {
    && |m| == |l| && first < |l| && IsReduce(l[first], r) && (forall k :: 0 <= k < first ==> !IsReduce(l[k], r))
    && (forall k :: 0 <= k < |l| ==> m[k] == MarkOne(g.nsymbol, l[k], r, k == first))
  }

  method Mark(g: Grammar, l: seq<Action>, r: int) returns (m: seq<Action>, ghost first: nat)
    requires exists a :: a in l && IsReduce(a, r)
    ensures |m| == |l| && Marked(g, l, m, r, first)
  {
    var a := new Action[|l|](i requires 0 <= i < |l| => l[i]);
    var i := 0;
    assert exists k :: 0 <= k < |l| && IsReduce(l[k], r);
    while i < |l| && !(a[i].ty == REDUCE && a[i].x == r)
      invariant 0 <= i <= |l| && a[..] == l
      invariant forall k :: 0 <= k < i ==> !IsReduce(l[k], r)
    {
      i := i + 1;
    }
    assert a[i] == l[i];
    first := i;
    a[i] := a[i].(sp := g.nsymbol);
    var j := i + 1;
    while j < |l|
      invariant i < j <= |l|
      invariant forall k :: 0 <= k < j ==> a[k] == MarkOne(g.nsymbol, l[k], r, k == first)
      invariant forall k :: j <= k < |l| ==> a[k] == l[k]
    {
      if a[j].ty == REDUCE && a[j].x == r {
        a[j] := a[j].(ty := NOT_USED);
      }
      j := j + 1;
    }
    m := a[..];
  }

  lemma MarkedDefaulted(g: Grammar, l: seq<Action>, m: seq<Action>, r: int, first: nat)
    requires Marked(g, l, m, r, first) && forall j, k :: 0 <= j < k < |l| ==> l[j].id != l[k].id
    ensures Defaulted(g, l, m, r)
  {
    forall a | a in l && !IsReduce(a, r) ensures a in m {
      var k :| 0 <= k < |l| && l[k] == a;
      assert m[k] == a;
    }
    forall a | a in m
      ensures (a in l && !IsReduce(a, r)) || Deleted(l, a, r) || (IsReduce(a, r) && a.sp == g.nsymbol && a == m[first])
    {
      var k :| 0 <= k < |m| && m[k] == a;
      assert m[k] == MarkOne(g.nsymbol, l[k], r, k == first) && l[k] in l;
      assert IsReduce(l[k], r) && k != first ==> a.(ty := REDUCE) == l[k];
    }
    assert m[first] in m && IsReduce(m[first], r) && m[first].sp == g.nsymbol;
    assert forall k :: 0 <= k < |m| ==> m[k].id == l[k].id;
  }

  lemma SortedDefaulted(g: Grammar, l: seq<Action>, m: seq<Action>, s: seq<Action>, r: int)
    requires Defaulted(g, l, m, r) && multiset(m) == multiset(s)
    ensures Defaulted(g, l, s, r)
  {
    assert Distinct(m);
    DistinctPermuted(m, s);
    assert |s| == |multiset(s)| == |multiset(m)| == |m|;
    forall i, j | 0 <= i < j < |s| ensures s[i].id != s[j].id {
      assert s[i] in m && s[j] in m && s[i] != s[j];
      var x :| 0 <= x < |m| && m[x] == s[i];
      var y :| 0 <= y < |m| && m[y] == s[j];
    }
    var a :| a in m && IsReduce(a, r) && a.sp == g.nsymbol;
    assert a in s;
  }

  /** Nothing but reductions by r is possible. */
  ghost predicate Forced(l: seq<Action>, r: int) {
    forall a :: a in l ==> a.ty != SHIFT && (a.ty == REDUCE ==> a.x == r)
  }

  /** The outcome of the first pass for one state. */
  ghost predicate FirstPass(g: Grammar, l: seq<Action>, m: seq<Action>, isAuto: bool, rbest: int) {
    && IsBest(g, l, rbest)
    && (rbest < 0 ==> m == l && !isAuto)
    && (rbest >= 0 ==> Defaulted(g, l, m, rbest) && SpSorted(m) && (isAuto <==> Forced(l, rbest)))
  }

  lemma ForcedSame(g: Grammar, l: seq<Action>, m: seq<Action>, r: int)
    requires Defaulted(g, l, m, r)
    ensures Forced(m, r) <==> Forced(l, r)
  {
    if Forced(m, r) {
      forall a | a in l ensures a.ty != SHIFT && (a.ty == REDUCE ==> a.x == r) {
        if !IsReduce(a, r) { assert a in m; }
      }
    }
  }

  method IsForced(m: seq<Action>, r: int) returns (forced: bool)
    ensures forced <==> Forced(m, r)
  {
    var k := 0;
    while k < |m| && !(m[k].ty == SHIFT || (m[k].ty == REDUCE && m[k].x != r))
      invariant 0 <= k <= |m| && Forced(m[..k], r)
    {
      assert m[..k + 1] == m[..k] + [m[k]];
      k := k + 1;
    }
    forced := k == |m|;
    if forced { assert m[..k] == m; } else { assert m[k] in m; }
  }

  /** The first pass of CompressTables over one state. */
  method DefaultState(g: Grammar, l: seq<Action>) returns (m: seq<Action>, isAuto: bool, rbest: int)
    requires |l| < Pow2(LISTSIZE) && forall j, k :: 0 <= j < k < |l| ==> l[j].id != l[k].id
    ensures FirstPass(g, l, m, isAuto, rbest)
  {
    rbest := FindBest(g, l);
    if rbest < 0 {
      m, isAuto := l, false;
    } else {
      var marked, first := Mark(g, l, rbest);
      MarkedDefaulted(g, l, marked, rbest, first);
      ActioncmpOrder();
      m := Msort(Actioncmp, marked);
      SortedDefaulted(g, l, marked, m, rbest);
      SpSortedList(m);
      isAuto := IsForced(m, rbest);
      ForcedSame(g, l, m, rbest);
    }
  }

  // ---- the second pass ----

  /** Which states are auto-reduce states, and the default rule of each state (-1 if none). */
  datatype Plan = Plan(isAuto: seq<bool>, best: seq<int>)

  predicate AutoTo(p: Plan, j: nat) {
    j < |p.isAuto| == |p.best| && p.isAuto[j] && p.best[j] >= 0
  }

  /** A shift to an auto-reduce state becomes SHIFTREDUCE by that state's rule. */
  function Converted(p: Plan, a: Action): Action {
    if a.ty == SHIFT && AutoTo(p, a.x) then a.(ty := SHIFTREDUCE, x := p.best[a.x]) else a
  }

  method ConvertState(p: Plan, m: seq<Action>) returns (r: seq<Action>)
    requires |p.isAuto| == |p.best|
    ensures |r| == |m| && forall k :: 0 <= k < |m| ==> r[k] == Converted(p, m[k])
  {
    var a := new Action[|m|](i requires 0 <= i < |m| => m[i]);
    for k := 0 to |m|
      invariant forall i :: 0 <= i < k ==> a[i] == Converted(p, m[i])
      invariant forall i :: k <= i < |m| ==> a[i] == m[i]
    {
      if a[k].ty == SHIFT && a[k].x < |p.isAuto| && p.isAuto[a[k].x] && p.best[a[k].x] >= 0 {
        a[k] := a[k].(ty := SHIFTREDUCE, x := p.best[a[k].x]);
      }
    }
    r := a[..];
  }

  // ---- the third pass ----

  /** The converted shift of a state over x. */
  function ShiftAct(p: Plan, st: State, x: nat): (ActionType, nat)
    requires x in st.shifts
  {
    if AutoTo(p, st.shifts[x]) then (SHIFTREDUCE, p.best[st.shifts[x]]) else (SHIFT, st.shifts[x])
  }

  /** A code-free rule with one symbol on its right-hand side. */
  predicate IsUnit(g: Grammar, r: nat) {
    r < |g.rules| && g.rules[r].noCode && |g.rules[r].rhs| == 1
  }

  /** Going to x lands in an auto-reduce state whose rule is a code-free unit rule. */
  predicate Bypassable(g: Grammar, p: Plan, st: State, x: nat) {
    x >= g.nterminal && x in st.shifts && ShiftAct(p, st, x).0 == SHIFTREDUCE && IsUnit(g, ShiftAct(p, st, x).1)
  }

  function BypassTo(g: Grammar, p: Plan, st: State, x: nat): nat
    requires Bypassable(g, p, st, x)
  {
    g.rules[ShiftAct(p, st, x).1].lhs
  }

  /** All shifts are over symbols of the grammar, and every bypass leads to another goto of the state. */
  ghost predicate StepsOk(g: Grammar, p: Plan, st: State) {
    && (forall x :: x in st.shifts ==> x < g.nsymbol)
    && (forall x: nat :: Bypassable(g, p, st, x) ==>
          BypassTo(g, p, st, x) in st.shifts && BypassTo(g, p, st, x) >= g.nterminal)
  }

  /** Where at most n bypasses lead from x. */
  function Follow(g: Grammar, p: Plan, st: State, x: nat, n: nat): nat
    decreases n
  {
    if n > 0 && Bypassable(g, p, st, x) then Follow(g, p, st, BypassTo(g, p, st, x), n - 1) else x
  }

  lemma {:induction false} FollowIn(g: Grammar, p: Plan, st: State, x: nat, n: nat)
    ensures StepsOk(g, p, st) && x in st.shifts ==>
      var y := Follow(g, p, st, x, n); y in st.shifts && y < g.nsymbol && (x >= g.nterminal ==> y >= g.nterminal)
    decreases n
  {
    if n > 0 && Bypassable(g, p, st, x) { FollowIn(g, p, st, BypassTo(g, p, st, x), n - 1); }
  }

  /** Where the bypasses that start at x end, if they end. */
  function EndSym(g: Grammar, p: Plan, st: State, x: nat): (e: nat)
    ensures StepsOk(g, p, st) && x in st.shifts ==>
      e in st.shifts && e < g.nsymbol && (x >= g.nterminal ==> e >= g.nterminal)
  {
    FollowIn(g, p, st, x, g.nsymbol);
    Follow(g, p, st, x, g.nsymbol)
  }

  predicate Ends(g: Grammar, p: Plan, st: State, x: nat) {
    !Bypassable(g, p, st, EndSym(g, p, st, x))
  }

  /** Bypasses lead from x back to x. */
  ghost predicate OnCycle(g: Grammar, p: Plan, st: State, x: nat) {
    Bypassable(g, p, st, x) && exists n: nat :: n > 0 && Follow(g, p, st, x, n) == x
  }

  ghost predicate NoCycle(g: Grammar, p: Plan, st: State) {
    forall x: nat :: !OnCycle(g, p, st, x)
  }

  ghost predicate ChainsEnd(g: Grammar, p: Plan, st: State) {
    forall x :: x in st.shifts ==> Ends(g, p, st, x)
  }

  ghost predicate ChainOk(g: Grammar, p: Plan, st: State) {
    StepsOk(g, p, st) && ChainsEnd(g, p, st)
  }

  lemma {:induction false} FollowAdd(g: Grammar, p: Plan, st: State, x: nat, m: nat, n: nat)
    ensures Follow(g, p, st, x, m + n) == Follow(g, p, st, Follow(g, p, st, x, m), n)
    decreases m
  {
    if m > 0 && Bypassable(g, p, st, x) { FollowAdd(g, p, st, BypassTo(g, p, st, x), m - 1, n); }
  }

  /** Once the chain has ended, nothing changes. */
  lemma FollowStays(g: Grammar, p: Plan, st: State, x: nat, m: nat, n: nat)
    requires m <= n && !Bypassable(g, p, st, Follow(g, p, st, x, m))
    ensures Follow(g, p, st, x, n) == Follow(g, p, st, x, m)
  {
    FollowAdd(g, p, st, x, m, n - m);
  }

  /** The numbers below n. */
  function Below(n: nat): (r: set<nat>)
    ensures |r| == n && forall k: nat :: k in r <==> k < n
  {
    if n == 0 then {} else Below(n - 1) + {n - 1}
  }

  /** Among more than n numbers below n, two are equal. */
  lemma Pigeons(s: seq<nat>, n: nat) returns (i: nat, j: nat)
    requires |s| > n && forall k :: 0 <= k < |s| ==> s[k] < n
    ensures i < j < |s| && s[i] == s[j]
  {
    if Distinct(s) {
      DistinctSize(s, Below(n));
      assert false;
    }
    i, j :| 0 <= i < j < |s| && s[i] == s[j];
  }

  /** A chain that does not end within nsymbol bypasses comes twice to the same symbol. */
  lemma Returns(g: Grammar, p: Plan, st: State, x: nat) returns (i: nat, j: nat)
    requires StepsOk(g, p, st) && x in st.shifts
    ensures i < j <= g.nsymbol && Follow(g, p, st, x, i) == Follow(g, p, st, x, j)
  {
    var s := seq(g.nsymbol + 1, k requires 0 <= k <= g.nsymbol => Follow(g, p, st, x, k));
    forall k | 0 <= k < |s| ensures s[k] < g.nsymbol { FollowIn(g, p, st, x, k); }
    i, j := Pigeons(s, g.nsymbol);
  }

  /** ... and then it never ends. */
  lemma {:induction false} NeverEnds(g: Grammar, p: Plan, st: State, x: nat, n: nat)
    requires StepsOk(g, p, st) && x in st.shifts && !Ends(g, p, st, x)
    ensures Bypassable(g, p, st, Follow(g, p, st, x, n))
  {
    if n <= g.nsymbol {
      if !Bypassable(g, p, st, Follow(g, p, st, x, n)) { FollowStays(g, p, st, x, n, g.nsymbol); }
    } else {
      var i, j := Returns(g, p, st, x);
      FollowAdd(g, p, st, x, j, n - j);
      FollowAdd(g, p, st, x, i, n - j);
      NeverEnds(g, p, st, x, n - j + i);
    }
  }

  /** A chain ends if and only if it ends after one bypass, and in the same place. */
  lemma EndsNext(g: Grammar, p: Plan, st: State, x: nat)
    requires StepsOk(g, p, st) && Bypassable(g, p, st, x)
    ensures var y := BypassTo(g, p, st, x);
      && (Ends(g, p, st, x) <==> Ends(g, p, st, y))
      && (Ends(g, p, st, x) ==> EndSym(g, p, st, x) == EndSym(g, p, st, y))
  {
    var y := BypassTo(g, p, st, x);
    assert Follow(g, p, st, x, g.nsymbol + 1) == EndSym(g, p, st, y);
    if Ends(g, p, st, x) {
      FollowStays(g, p, st, x, g.nsymbol, g.nsymbol + 1);
    } else {
      NeverEnds(g, p, st, x, g.nsymbol + 1);
    }
  }

  lemma {:induction false} EndsAlong(g: Grammar, p: Plan, st: State, x: nat, n: nat)
    requires StepsOk(g, p, st) && x in st.shifts
    ensures Ends(g, p, st, x) <==> Ends(g, p, st, Follow(g, p, st, x, n))
    ensures Ends(g, p, st, x) ==> EndSym(g, p, st, x) == EndSym(g, p, st, Follow(g, p, st, x, n))
    decreases n
  {
    if n > 0 && Bypassable(g, p, st, x) {
      EndsNext(g, p, st, x);
      EndsAlong(g, p, st, BypassTo(g, p, st, x), n - 1);
    }
  }

  lemma {:induction false} Around(g: Grammar, p: Plan, st: State, x: nat, n: nat, k: nat)
    requires Follow(g, p, st, x, n) == x
    ensures Follow(g, p, st, x, n * k) == x
  {
    if k > 0 {
      Around(g, p, st, x, n, k - 1);
      assert n * k == n * (k - 1) + n;
      FollowAdd(g, p, st, x, n * (k - 1), n);
    }
  }

  /** From a cycle no chain ends, and one turn takes at most nsymbol bypasses. */
  lemma CycleNeverEnds(g: Grammar, p: Plan, st: State, x: nat) returns (m: nat)
    requires StepsOk(g, p, st) && OnCycle(g, p, st, x)
    ensures !Ends(g, p, st, x) && 0 < m <= g.nsymbol && Follow(g, p, st, x, m) == x
  {
    var n: nat :| n > 0 && Follow(g, p, st, x, n) == x;
    if Ends(g, p, st, x) {
      Around(g, p, st, x, n, g.nsymbol);
      TimesMono(n, g.nsymbol);
      FollowStays(g, p, st, x, g.nsymbol, n * g.nsymbol);
      assert false;
    }
    var i, j := Returns(g, p, st, x);
    m := j - i;
    Around(g, p, st, x, n, i);
    TimesMono(n, i);
    FollowAdd(g, p, st, x, i, n * i - i);
    FollowAdd(g, p, st, x, j, n * i - i);
    FollowAdd(g, p, st, x, n * i, m);
    assert n * i + m == j + (n * i - i);
  }

  lemma TimesMono(n: nat, k: nat)
    requires n > 0
    ensures n * k >= k
  {
  }

  /** All chains of a state end if and only if its bypasses form no cycle. */
  lemma EndIffNoCycle(g: Grammar, p: Plan, st: State)
    requires StepsOk(g, p, st)
    ensures ChainsEnd(g, p, st) <==> NoCycle(g, p, st)
  {
    if x: nat :| OnCycle(g, p, st, x) {
      var m := CycleNeverEnds(g, p, st, x);
    }
    if x: nat :| x in st.shifts && !Ends(g, p, st, x) {
      var i, j := Returns(g, p, st, x);
      FollowAdd(g, p, st, x, i, j - i);
      NeverEnds(g, p, st, x, i);
      assert OnCycle(g, p, st, Follow(g, p, st, x, i));
    }
  }

  /** a goes over a nonterminal by a shift of the state. */
  predicate IsGoto(g: Grammar, st: State, a: Action) {
    g.nterminal <= a.sp < g.nsymbol && a.sp in st.shifts
  }

  /** The list holds exactly one converted shift for every nonterminal of the state, and no other SHIFTREDUCE
      on a nonterminal. */
  ghost predicate GotosOk(g: Grammar, p: Plan, st: State, l: seq<Action>) {
    && (forall k :: 0 <= k < |l| && IsGoto(g, st, l[k]) ==> (l[k].ty, l[k].x) == ShiftAct(p, st, l[k].sp))
    && (forall k :: 0 <= k < |l| && l[k].sp >= g.nterminal && l[k].ty == SHIFTREDUCE ==> IsGoto(g, st, l[k]))
    && (forall x :: g.nterminal <= x < g.nsymbol && x in st.shifts ==> exists k :: 0 <= k < |l| && l[k].sp == x)
    && (forall j, k :: 0 <= j < k < |l| && IsGoto(g, st, l[j]) ==> l[j].sp != l[k].sp)
  }

  /** a, acting as the shift over y. */
  function ActingAs(p: Plan, st: State, a: Action, y: nat): Action
    requires y in st.shifts
  {
    a.(ty := ShiftAct(p, st, y).0, x := ShiftAct(p, st, y).1)
  }

  /** What the third pass makes of an action: a goto ends where its chain of bypasses ends. */
  ghost function Ended(g: Grammar, p: Plan, st: State, a: Action): Action
    requires StepsOk(g, p, st)
  {
    if IsGoto(g, st, a) then
      ActingAs(p, st, a, EndSym(g, p, st, a.sp))
    else a
  }

  /** How the third pass goes: to its end, into its own assertion, or on beyond a given number of bypasses. */
  datatype Outcome = Done | AssertionFails | StillRunning

  /** The outcome for one goto whose chain begins at x, when all gotos before it have ended. */
  ghost function VerdictAt(g: Grammar, p: Plan, st: State, x: nat): Outcome {
    if Ends(g, p, st, x) then Done else if OnCycle(g, p, st, x) then AssertionFails else StillRunning
  }

  /** The outcome for one state, from position k on: the first goto whose chain does not end decides. */
  ghost function Verdict(g: Grammar, p: Plan, st: State, l: seq<Action>, k: nat): Outcome
    requires k <= |l|
    decreases |l| - k
  {
    if k == |l| then Done
    else if IsGoto(g, st, l[k]) && !Ends(g, p, st, l[k].sp) then VerdictAt(g, p, st, l[k].sp)
    else Verdict(g, p, st, l, k + 1)
  }

  /** The third pass ends if and only if the bypasses of the state form no cycle. */
  lemma VerdictDone(g: Grammar, p: Plan, st: State, l: seq<Action>)
    requires StepsOk(g, p, st) && GotosOk(g, p, st, l)
    ensures Verdict(g, p, st, l, 0) == Done <==> ChainsEnd(g, p, st)
    ensures Verdict(g, p, st, l, 0) == Done <==> NoCycle(g, p, st)
  {
    EndIffNoCycle(g, p, st);
    VerdictFrom(g, p, st, l, 0);
    GotosEnd(g, p, st, l);
  }

  lemma GotosEnd(g: Grammar, p: Plan, st: State, l: seq<Action>)
    requires StepsOk(g, p, st) && GotosOk(g, p, st, l)
    ensures ChainsEnd(g, p, st) <==> forall k :: 0 <= k < |l| && IsGoto(g, st, l[k]) ==> Ends(g, p, st, l[k].sp)
  {
    if forall k :: 0 <= k < |l| && IsGoto(g, st, l[k]) ==> Ends(g, p, st, l[k].sp) {
      forall x | x in st.shifts ensures Ends(g, p, st, x) {
        if x >= g.nterminal { GotoEnds(g, p, st, l, x); }
      }
    }
  }

  lemma GotoEnds(g: Grammar, p: Plan, st: State, l: seq<Action>, x: nat)
    requires GotosOk(g, p, st, l) && g.nterminal <= x < g.nsymbol && x in st.shifts
    requires forall k :: 0 <= k < |l| && IsGoto(g, st, l[k]) ==> Ends(g, p, st, l[k].sp)
    ensures Ends(g, p, st, x)
  {
    var k :| 0 <= k < |l| && l[k].sp == x;
    assert IsGoto(g, st, l[k]);
  }

  /** In a sorted list, the smallest symbol whose chain does not end decides. */
  lemma {:induction false} VerdictFirst(g: Grammar, p: Plan, st: State, l: seq<Action>, k: nat, j: nat)
    requires SpSorted(l) && k <= j < |l| && IsGoto(g, st, l[j]) && !Ends(g, p, st, l[j].sp)
    requires forall i :: k <= i < |l| && IsGoto(g, st, l[i]) && l[i].sp < l[j].sp ==> Ends(g, p, st, l[i].sp)
    ensures Verdict(g, p, st, l, k) == VerdictAt(g, p, st, l[j].sp)
    decreases |l| - k
  {
    if !(IsGoto(g, st, l[k]) && !Ends(g, p, st, l[k].sp)) { VerdictFirst(g, p, st, l, k + 1, j); }
  }

  lemma {:induction false} VerdictFrom(g: Grammar, p: Plan, st: State, l: seq<Action>, k: nat)
    requires k <= |l|
    ensures Verdict(g, p, st, l, k) == Done <==> forall j ::
      k <= j < |l| && IsGoto(g, st, l[j]) ==> Ends(g, p, st, l[j].sp)
    decreases |l| - k
  {
    if k < |l| { VerdictFrom(g, p, st, l, k + 1); }
  }

  /** When position k is next: those before have ended, the others are untouched. */
  ghost predicate Halfway(g: Grammar, p: Plan, st: State, l0: seq<Action>, l: seq<Action>, k: nat)
    requires StepsOk(g, p, st)
  {
    |l| == |l0| && forall j :: 0 <= j < |l| ==> Passed(g, p, st, l0[j], l[j], j < k)
  }

  /** While position k is being bypassed. */
  ghost predicate Paused(g: Grammar, p: Plan, st: State, l0: seq<Action>, l: seq<Action>, k: nat)
    requires StepsOk(g, p, st)
  {
    |l| == |l0| && k < |l| && forall j :: 0 <= j < |l| && j != k ==> Passed(g, p, st, l0[j], l[j], j < k)
  }

  ghost predicate Passed(g: Grammar, p: Plan, st: State, a0: Action, a: Action, before: bool)
    requires StepsOk(g, p, st)
  {
    if before then (IsGoto(g, st, a0) ==> Ends(g, p, st, a0.sp)) && a == Ended(g, p, st, a0) else a == a0
  }

  /** Position k, a goto, has been bypassed b times, and acts as the shift c steps along its chain: b steps, or
      right at its end. */
  ghost predicate Walked(g: Grammar, p: Plan, st: State, a0: Action, a: Action, b: nat, c: nat)
    requires StepsOk(g, p, st) && IsGoto(g, st, a0)
  {
    FollowIn(g, p, st, a0.sp, c);
    var y := Follow(g, p, st, a0.sp, c);
    a == ActingAs(p, st, a0, y) && b <= c && (b < c ==> !Bypassable(g, p, st, y))
  }

  predicate ToBypass(g: Grammar, a: Action) {
    a.ty == SHIFTREDUCE && a.sp >= g.nterminal && IsUnit(g, a.x)
  }

  /** A state of the inner loop: l[k] has been bypassed b times without coming back to its start. */
  ghost predicate Going(g: Grammar, p: Plan, st: State, a0: Action, a: Action, b: nat, c: nat)
    requires StepsOk(g, p, st)
  {
    if IsGoto(g, st, a0) then
      Walked(g, p, st, a0, a, b, c) && forall n: nat :: 0 < n <= b ==> Follow(g, p, st, a0.sp, n) != a0.sp
    else a == a0
  }

  lemma WalkedTo(g: Grammar, p: Plan, st: State, a0: Action, a: Action, b: nat, c: nat)
    requires StepsOk(g, p, st) && IsGoto(g, st, a0) && Walked(g, p, st, a0, a, b, c)
    ensures var y := Follow(g, p, st, a0.sp, c);
      && (ToBypass(g, a) <==> Bypassable(g, p, st, y))
      && (ToBypass(g, a) ==> b == c && g.rules[a.x].lhs == Follow(g, p, st, a0.sp, c + 1))
  {
    FollowIn(g, p, st, a0.sp, c);
    FollowAdd(g, p, st, a0.sp, c, 1);
  }

  lemma SameSymbol(g: Grammar, p: Plan, st: State, l0: seq<Action>, l: seq<Action>, k: nat, j: nat)
    requires StepsOk(g, p, st) && Paused(g, p, st, l0, l, k) && j < |l| && j != k
    ensures l[j].sp == l0[j].sp
  {
    assert Passed(g, p, st, l0[j], l[j], j < k);
  }

  /** No other action is on the symbol that the bypass leads to: the chain has come back to its start. */
  lemma NoSource(g: Grammar, p: Plan, st: State, l0: seq<Action>, l: seq<Action>, k: nat, b: nat)
    requires StepsOk(g, p, st) && GotosOk(g, p, st, l0) && Paused(g, p, st, l0, l, k)
    requires IsGoto(g, st, l0[k]) && Walked(g, p, st, l0[k], l[k], b, b) && ToBypass(g, l[k])
    requires forall j :: 0 <= j < |l| && j != k ==> l[j].sp != g.rules[l[k].x].lhs
    ensures OnCycle(g, p, st, l0[k].sp)
  {
    var x := l0[k].sp;
    WalkedTo(g, p, st, l0[k], l[k], b, b);
    var z := Follow(g, p, st, x, b + 1);
    FollowIn(g, p, st, x, b + 1);
    var j :| 0 <= j < |l0| && l0[j].sp == z;
    if j != k {
      SameSymbol(g, p, st, l0, l, k, j);
      assert false;
    }
  }

  /** Another action is: it has ended, or stands at its start. */
  lemma SourceWalks(g: Grammar, p: Plan, st: State, l0: seq<Action>, l: seq<Action>, k: nat, b: nat, j: nat)
    returns (c: nat)
    requires StepsOk(g, p, st) && GotosOk(g, p, st, l0) && Paused(g, p, st, l0, l, k)
    requires IsGoto(g, st, l0[k]) && Walked(g, p, st, l0[k], l[k], b, b) && ToBypass(g, l[k])
    requires j < |l| && j != k && l[j].sp == g.rules[l[k].x].lhs
    ensures Walked(g, p, st, l0[k], l[k].(ty := l[j].ty, x := l[j].x), b + 1, c)
    ensures Follow(g, p, st, l0[k].sp, b + 1) != l0[k].sp
  {
    WalkedTo(g, p, st, l0[k], l[k], b, b);
    SourceIs(g, p, st, l0, l, k, j, g.rules[l[k].x].lhs, l0[k].sp, b + 1);
    c := WalkOnce(g, p, st, l0[k], l[k], b, l[j], j < k);
  }

  /** a takes over what s does: s stands at the symbol that the bypass leads to, or has ended from there. */
  lemma WalkOnce(g: Grammar, p: Plan, st: State, a0: Action, a: Action, b: nat, s: Action, ended: bool) returns (c: nat)
    requires StepsOk(g, p, st) && IsGoto(g, st, a0) && Walked(g, p, st, a0, a, b, b) && ToBypass(g, a)
    requires var z := g.rules[a.x].lhs;
      z in st.shifts && EndSym(g, p, st, z) in st.shifts && (ended ==> Ends(g, p, st, z))
    requires var y := if ended then EndSym(g, p, st, g.rules[a.x].lhs) else g.rules[a.x].lhs;
      s.(id := 0) == ActingAs(p, st, s, y).(id := 0)
    ensures Walked(g, p, st, a0, a.(ty := s.ty, x := s.x), b + 1, c)
  {
    WalkedTo(g, p, st, a0, a, b, b);
    var z := g.rules[a.x].lhs;
    c := if ended then b + 1 + g.nsymbol else b + 1;
    FollowAdd(g, p, st, a0.sp, b + 1, g.nsymbol);
    WalkedAt(g, p, st, a0, a, b, s, if ended then EndSym(g, p, st, z) else z, c);
  }

  /** Action a0, which has come b steps as a, now does what s does. */
  lemma WalkedAt(g: Grammar, p: Plan, st: State, a0: Action, a: Action, b: nat, s: Action, y: nat, c: nat)
    requires StepsOk(g, p, st) && IsGoto(g, st, a0) && Walked(g, p, st, a0, a, b, b)
    requires y in st.shifts && y == Follow(g, p, st, a0.sp, c) && s.(id := 0) == ActingAs(p, st, s, y).(id := 0)
    requires b + 1 <= c && (b + 1 < c ==> !Bypassable(g, p, st, y))
    ensures Walked(g, p, st, a0, a.(ty := s.ty, x := s.x), b + 1, c)
  {
  }

  lemma SourceIs(g: Grammar, p: Plan, st: State, l0: seq<Action>, l: seq<Action>, k: nat, j: nat, z: nat, x: nat,
          n: nat)
    requires StepsOk(g, p, st) && GotosOk(g, p, st, l0) && Paused(g, p, st, l0, l, k)
    requires j < |l| && j != k && l[j].sp == z && IsGoto(g, st, l0[k]) && x == l0[k].sp && z == Follow(g, p, st, x, n)
    ensures z in st.shifts && z != x && EndSym(g, p, st, z) in st.shifts
    ensures var y := if j < k then EndSym(g, p, st, z) else z; l[j].(id := 0) == ActingAs(p, st, l[j], y).(id := 0)
    ensures j < k ==> Ends(g, p, st, z)
  {
    FollowIn(g, p, st, x, n);
    FollowIn(g, p, st, z, g.nsymbol);
    assert Passed(g, p, st, l0[j], l[j], j < k);
    assert l[j].sp == l0[j].sp && IsGoto(g, st, l0[j]);
  }

  /** One bypass of position k through position j. */
  lemma GoOn(g: Grammar, p: Plan, st: State, l0: seq<Action>, l: seq<Action>, k: nat, b: nat, c: nat, j: nat)
    returns (c': nat)
    requires StepsOk(g, p, st) && GotosOk(g, p, st, l0) && Paused(g, p, st, l0, l, k)
    requires Going(g, p, st, l0[k], l[k], b, c) && ToBypass(g, l[k])
    requires j < |l| && j != k && l[j].sp == g.rules[l[k].x].lhs
    ensures var a := l[k].(ty := l[j].ty, x := l[j].x);
      Going(g, p, st, l0[k], a, b + 1, c') && Paused(g, p, st, l0, l[k := a], k)
  {
    assert IsGoto(g, st, l0[k]);
    WalkedTo(g, p, st, l0[k], l[k], b, c);
    c' := SourceWalks(g, p, st, l0, l, k, b, j);
    forall n: nat | 0 < n <= b + 1 ensures Follow(g, p, st, l0[k].sp, n) != l0[k].sp { }
  }

  /** What to say when the fuel runs out. */
  lemma OutOfFuel(g: Grammar, p: Plan, st: State, l0: seq<Action>, k: nat, a: Action, b: nat, c: nat)
    requires StepsOk(g, p, st) && GotosOk(g, p, st, l0) && k < |l0| && Going(g, p, st, l0[k], a, b, c) && ToBypass(g, a)
    ensures IsGoto(g, st, l0[k]) && (b >= g.nsymbol ==> VerdictAt(g, p, st, l0[k].sp) == StillRunning)
  {
    WalkedTo(g, p, st, l0[k], a, b, c);
    if b >= g.nsymbol { WalkOn(g, p, st, l0[k], a, b); }
  }

  /** What to say when there is no source. */
  lemma OutOfSources(g: Grammar, p: Plan, st: State, l0: seq<Action>, l: seq<Action>, k: nat, b: nat, c: nat)
    requires StepsOk(g, p, st) && GotosOk(g, p, st, l0) && Paused(g, p, st, l0, l, k)
    requires Going(g, p, st, l0[k], l[k], b, c) && ToBypass(g, l[k])
    requires forall j :: 0 <= j < |l| && j != k ==> l[j].sp != g.rules[l[k].x].lhs
    ensures IsGoto(g, st, l0[k]) && OnCycle(g, p, st, l0[k].sp) && VerdictAt(g, p, st, l0[k].sp) == AssertionFails
  {
    WalkedTo(g, p, st, l0[k], l[k], b, c);
    NoSource(g, p, st, l0, l, k, b);
    var m := CycleNeverEnds(g, p, st, l0[k].sp);
  }

  lemma OutOfSteps(g: Grammar, p: Plan, st: State, l0: seq<Action>, l: seq<Action>, k: nat, b: nat, c: nat)
    requires StepsOk(g, p, st) && Paused(g, p, st, l0, l, k)
    requires Going(g, p, st, l0[k], l[k], b, c) && !ToBypass(g, l[k])
    ensures Halfway(g, p, st, l0, l, k + 1) && (IsGoto(g, st, l0[k]) ==> Ends(g, p, st, l0[k].sp))
  {
    if IsGoto(g, st, l0[k]) {
      WalkEnds(g, p, st, l0, l, k, b, c);
    } else {
      assert Passed(g, p, st, l0[k], l[k], true);
    }
  }

  /** The chain of position k is at its end. */
  lemma WalkEnds(g: Grammar, p: Plan, st: State, l0: seq<Action>, l: seq<Action>, k: nat, b: nat, c: nat)
    requires StepsOk(g, p, st) && Paused(g, p, st, l0, l, k)
    requires IsGoto(g, st, l0[k]) && Walked(g, p, st, l0[k], l[k], b, c) && !ToBypass(g, l[k])
    ensures Ends(g, p, st, l0[k].sp) && Halfway(g, p, st, l0, l, k + 1)
  {
    var x := l0[k].sp;
    WalkedTo(g, p, st, l0[k], l[k], b, c);
    EndsAlong(g, p, st, x, c);
    FollowStays(g, p, st, Follow(g, p, st, x, c), 0, g.nsymbol);
    assert l[k] == Ended(g, p, st, l0[k]);
  }

  /** After nsymbol bypasses with more to come, the chain neither ends nor comes back to its start. */
  lemma WalkOn(g: Grammar, p: Plan, st: State, a0: Action, a: Action, b: nat)
    requires StepsOk(g, p, st) && IsGoto(g, st, a0) && Walked(g, p, st, a0, a, b, b) && ToBypass(g, a) && b >= g.nsymbol
    requires forall n: nat :: 0 < n <= b ==> Follow(g, p, st, a0.sp, n) != a0.sp
    ensures VerdictAt(g, p, st, a0.sp) == StillRunning
  {
    WalkedTo(g, p, st, a0, a, b, b);
    if Ends(g, p, st, a0.sp) { FollowStays(g, p, st, a0.sp, g.nsymbol, b); }
    if OnCycle(g, p, st, a0.sp) { var m := CycleNeverEnds(g, p, st, a0.sp); }
  }

  /** All bypasses of the action at position k, at most fuel of them. */
  method BypassOne(g: Grammar, ghost p: Plan, ghost st: State, ghost l0: seq<Action>, a: array<Action>, k: nat,
          fuel: nat)
    returns (o: Outcome)
    requires StepsOk(g, p, st) && GotosOk(g, p, st, l0) && k < a.Length && Halfway(g, p, st, l0, a[..], k)
    modifies a
    ensures o.Done? ==> Halfway(g, p, st, l0, a[..], k + 1)
    ensures o.AssertionFails? ==> IsGoto(g, st, l0[k]) && OnCycle(g, p, st, l0[k].sp)
    ensures fuel >= g.nsymbol ==> o == if IsGoto(g, st, l0[k]) then VerdictAt(g, p, st, l0[k].sp) else Done
  {
    var b := 0;
    ghost var c := 0;
    StartGoing(g, p, st, l0, a[..], k);
    while a[k].ty == SHIFTREDUCE && a[k].sp >= g.nterminal && IsUnit(g, a[k].x)
      invariant Paused(g, p, st, l0, a[..], k) && Going(g, p, st, l0[k], a[k], b, c)
      decreases fuel - b
    {
      if b >= fuel {
        OutOfFuel(g, p, st, l0, k, a[k], b, c);
        return StillRunning;
      }
      var j := FindOther(a, k, g.rules[a[k].x].lhs);
      if j == a.Length {
        OutOfSources(g, p, st, l0, a[..], k, b, c);
        return AssertionFails;
      }
      ghost var before := a[..];
      c := GoOn(g, p, st, l0, before, k, b, c, j);
      a[k] := a[k].(ty := a[j].ty, x := a[j].x);
      assert a[..] == before[k := before[k].(ty := before[j].ty, x := before[j].x)];
      b := b + 1;
    }
    OutOfSteps(g, p, st, l0, a[..], k, b, c);
    return Done;
  }

  lemma StartGoing(g: Grammar, p: Plan, st: State, l0: seq<Action>, l: seq<Action>, k: nat)
    requires StepsOk(g, p, st) && GotosOk(g, p, st, l0) && k < |l| && Halfway(g, p, st, l0, l, k)
    ensures Paused(g, p, st, l0, l, k) && Going(g, p, st, l0[k], l[k], 0, 0)
  {
    assert Passed(g, p, st, l0[k], l[k], false);
  }

  /** The first action other than k whose lookahead is sp, or the end. */
  method FindOther(a: array<Action>, k: nat, sp: nat) returns (j: nat)
    ensures j <= a.Length && (j < a.Length ==> j != k && a[j].sp == sp)
    ensures forall i :: 0 <= i < j && i != k ==> a[..][i].sp != sp
  {
    j := 0;
    while j < a.Length && (j == k || a[j].sp != sp)
      invariant 0 <= j <= a.Length
      invariant forall i :: 0 <= i < j ==> i == k || a[..][i].sp != sp
    {
      j := j + 1;
    }
  }

  /** The third pass of CompressTables over one state, with at most fuel bypasses of each action. */
  method BypassState(g: Grammar, ghost p: Plan, ghost st: State, l: seq<Action>, fuel: nat)
    returns (o: Outcome, r: seq<Action>)
    requires StepsOk(g, p, st) && GotosOk(g, p, st, l)
    ensures o.Done? ==> ChainOk(g, p, st) && |r| == |l| && forall k :: 0 <= k < |l| ==> r[k] == Ended(g, p, st, l[k])
    ensures o.AssertionFails? ==> !NoCycle(g, p, st)
    ensures fuel >= g.nsymbol ==> o == Verdict(g, p, st, l, 0)
  {
    var a := new Action[|l|](i requires 0 <= i < |l| => l[i]);
    assert a[..] == l;
    var k := 0;
    while k < |l|
      invariant 0 <= k <= |l| && Halfway(g, p, st, l, a[..], k) && Verdict(g, p, st, l, 0) == Verdict(g, p, st, l, k)
    {
      o := BypassOne(g, p, st, l, a, k, fuel);
      if !o.Done? { return o, []; }
      k := k + 1;
    }
    o, r := Done, a[..];
    VerdictDone(g, p, st, l);
  }
}
