/** ResortStates: count the actions of each state and renumber the states, so that those with fewer
choices come last and the auto-reduce states at the end get no row in the tables. */
module Resort {
  import opened Grammars
  import opened MergeSort
  import opened ConfigLists
  import opened StateTables
  import opened Actions
  import opened Codes
  import opened Compress

  /** On a terminal (tkn), or on a nonterminal. */
  predicate InRange(g: Grammar, sp: nat, tkn: bool) {
    if tkn then sp < g.nterminal else g.nterminal <= sp < g.nsymbol
  }

  /** The actions of a list that get an entry in the packed table, in order. */
  function Select(g: Grammar, l: seq<Action>, tkn: bool): (r: seq<Action>)
    ensures forall a :: a in r <==> a in l && Coded(a) && InRange(g, a.sp, tkn)
  {
    if l == [] then []
    else
      var a := l[|l| - 1];
      assert l == l[..|l| - 1] + [a];
      Select(g, l[..|l| - 1], tkn) + if Coded(a) && InRange(g, a.sp, tkn) then [a] else []
  }

  /** iDfltReduce: the code of the last action on {default}, or -1. */
  function DefaultCode(g: Grammar, num: seq<nat>, l: seq<Action>): int
    requires forall a :: a in l ==> Refers(g, |num|, a)
  {
    if l == [] then -1
    else
      var a := l[|l| - 1];
      if Coded(a) && a.sp >= g.nsymbol then ComputeAction(g, num, UNSET, a)
      else
        assert l == l[..|l| - 1] + [a];
        DefaultCode(g, num, l[..|l| - 1])
  }

  /** What is recorded of one state. */
  datatype Info = Info(nTknAct: nat, nNtAct: nat, iDfltReduce: int)

  function InfoOf(g: Grammar, num: seq<nat>, l: seq<Action>): Info
    requires forall a :: a in l ==> Refers(g, |num|, a)
  {
    Info(|Select(g, l, true)|, |Select(g, l, false)|, DefaultCode(g, num, l))
  }

  function InfoNext(g: Grammar, num: seq<nat>, info: Info, a: Action): Info
    requires Refers(g, |num|, a)
  {
    if !Coded(a) then info
    else if a.sp < g.nterminal then info.(nTknAct := info.nTknAct + 1)
    else if a.sp < g.nsymbol then info.(nNtAct := info.nNtAct + 1)
    else info.(iDfltReduce := ComputeAction(g, num, UNSET, a))
  }

  lemma InfoStep(g: Grammar, num: seq<nat>, l: seq<Action>, a: Action)
    requires g.nterminal <= g.nsymbol && Refers(g, |num|, a) && forall b :: b in l ==> Refers(g, |num|, b)
    ensures InfoOf(g, num, l + [a]) == InfoNext(g, num, InfoOf(g, num, l), a)
  {
    assert (l + [a])[..|l|] == l;
  }

  /** The loop over the actions of one state. */
  method CountActions(g: Grammar, num: seq<nat>, l: seq<Action>) returns (info: Info)
    requires g.nterminal <= g.nsymbol && forall a :: a in l ==> Refers(g, |num|, a)
    ensures info == InfoOf(g, num, l)
  {
    info := Info(0, 0, -1);
    for k := 0 to |l|
      invariant forall a :: a in l[..k] ==> Refers(g, |num|, a)
      invariant info == InfoOf(g, num, l[..k])
    {
      assert l[..k + 1] == l[..k] + [l[k]];
      InfoStep(g, num, l[..k], l[k]);
      var iAction := ComputeAction(g, num, UNSET, l[k]);
      if iAction >= 0 {
        if l[k].sp < g.nterminal {
          info := info.(nTknAct := info.nTknAct + 1);
        } else if l[k].sp < g.nsymbol {
          info := info.(nNtAct := info.nNtAct + 1);
        } else {
          info := info.(iDfltReduce := iAction);
        }
      }
    }
    assert l[..|l|] == l;
  }

  function At(infos: seq<Info>, a: nat): Info {
    if a < |infos| then infos[a] else Info(0, 0, -1)
  }

  /** stateResortCompare: more nonterminal actions first, then more token actions, then the later state. */
  function ResortCmp(infos: seq<Info>, a: nat, b: nat): int {
    if At(infos, b).nNtAct != At(infos, a).nNtAct then At(infos, b).nNtAct - At(infos, a).nNtAct
    else if At(infos, b).nTknAct != At(infos, a).nTknAct then At(infos, b).nTknAct - At(infos, a).nTknAct
    else b - a
  }

  function Ids(lo: nat, n: nat): (r: seq<nat>)
    requires lo <= n
    ensures |r| == n - lo && forall i :: 0 <= i < n - lo ==> r[i] == lo + i
  {
    seq(n - lo, i requires 0 <= i < n - lo => lo + i)
  }

  /** order lists all state numbers once, and num inverts it; state 0 stays first. */
  ghost predicate Renumbered(n: nat, order: seq<nat>, num: seq<nat>) {
    && |order| == |num| == n > 0 && order[0] == 0 && num[0] == 0
    && (forall i :: 0 <= i < n ==> order[i] < n && num[order[i]] == i)
    && (forall j :: 0 <= j < n ==> num[j] < n && order[num[j]] == j)
  }

  /** State a comes before state b: it has more actions on nonterminals, or as many and more on tokens, or as many of
      both and it was the later one. */
  predicate ComesFirst(infos: seq<Info>, a: nat, b: nat)
    requires a < |infos| && b < |infos|
  {
    || infos[a].nNtAct > infos[b].nNtAct
    || (infos[a].nNtAct == infos[b].nNtAct && infos[a].nTknAct > infos[b].nTknAct)
    || (infos[a].nNtAct == infos[b].nNtAct && infos[a].nTknAct == infos[b].nTknAct && a > b)
  }

  /** From position 1 on every state comes before the next ones: the comparison never ties. */
  ghost predicate InOrder(infos: seq<Info>, order: seq<nat>) {
    && (forall i :: 0 <= i < |order| ==> order[i] < |infos|)
    && (forall i, k :: 1 <= i < k < |order| ==> ComesFirst(infos, order[i], order[k]))
  }

  /** Exactly the auto-reduce states at the very end lie beyond nxstate. */
  ghost predicate Trimmed(p: Plan, order: seq<nat>, nxstate: nat) {
    && 1 <= nxstate <= |order| && (forall i :: 0 <= i < |order| ==> order[i] < |p.isAuto|)
    && (forall i :: nxstate <= i < |order| ==> p.isAuto[order[i]])
    && (nxstate > 1 ==> !p.isAuto[order[nxstate - 1]])
  }

  /** A state that is not an auto-reduce state keeps a number below nxstate. */
  lemma KeptNumber(p: Plan, order: seq<nat>, num: seq<nat>, nxstate: nat, j: nat)
    requires Renumbered(|p.isAuto|, order, num) && Trimmed(p, order, nxstate) && j < |p.isAuto| && !p.isAuto[j]
    ensures num[j] < nxstate
  {
    assert order[num[j]] == j;
  }

  lemma OrderPermutes(n: nat, s: seq<nat>)
    requires n > 0 && multiset(s) == multiset(Ids(1, n))
    ensures var order := [0] + s;
      |order| == n && Distinct(order) && (forall i :: 0 <= i < n ==> order[i] < n)
      && (forall j: nat :: j < n ==> j in order)
  {
    var ids, order := Ids(1, n), [0] + s;
    assert Distinct(ids);
    DistinctPermuted(ids, s);
    assert |s| == |multiset(s)| == |multiset(ids)| == |ids|;
    forall i | 1 <= i < n ensures 0 < order[i] < n {
      assert order[i] == s[i - 1] && s[i - 1] in ids;
    }
    forall i, k | 0 <= i < k < n ensures order[i] != order[k] {
      if i > 0 { assert s[i - 1] != s[k - 1]; }
    }
    forall j: nat | j < n ensures j in order {
      if j > 0 { assert ids[j - 1] == j && j in s; }
    }
  }

  lemma StrictOrder(infos: seq<Info>, s: seq<nat>)
    requires Distinct(s) && Sorted((a, b) => ResortCmp(infos, a, b), s)
    ensures forall i, k :: 0 <= i < k < |s| ==> ResortCmp(infos, s[i], s[k]) < 0
  {
    var cmp := (a, b) => ResortCmp(infos, a, b);
    forall i, k | 0 <= i < k < |s| ensures ResortCmp(infos, s[i], s[k]) < 0 {
      SortedPairs(cmp, s, i, k);
      assert s[i] != s[k];
      assert cmp(s[i], s[k]) == ResortCmp(infos, s[i], s[k]);
    }
  }

  method Order(infos: seq<Info>) returns (order: seq<nat>)
    requires infos != []
    ensures |order| == |infos| && Distinct(order) && order[0] == 0 && InOrder(infos, order)
    ensures forall i :: 0 <= i < |order| ==> order[i] < |infos|
    ensures forall j: nat :: j < |infos| ==> j in order
  {
    var cmp := (a: nat, b: nat) => ResortCmp(infos, a, b);
    var s := Qsort(cmp, Ids(1, |infos|));
    OrderPermutes(|infos|, s);
    order := [0] + s;
    forall i, k | 0 <= i < k < |s| ensures s[i] != s[k] { assert order[i + 1] != order[k + 1]; }
    StrictOrder(infos, s);
    forall i, k | 1 <= i < k < |order| ensures ComesFirst(infos, order[i], order[k]) {
      assert order[i] == s[i - 1] && order[k] == s[k - 1];
    }
  }

  /** The loop that hands out the new numbers. */
  method Number(order: seq<nat>) returns (num: seq<nat>)
    requires order != [] && Distinct(order) && order[0] == 0
    requires forall i :: 0 <= i < |order| ==> order[i] < |order|
    requires forall j: nat :: j < |order| ==> j in order
    ensures Renumbered(|order|, order, num)
  {
    var a := new nat[|order|](_ => 0);
    for i := 0 to |order|
      invariant forall k :: 0 <= k < i ==> a[order[k]] == k
    {
      a[order[i]] := i;
    }
    num := a[..];
    forall j: nat | j < |order| ensures num[j] < |order| && order[num[j]] == j {
      assert j in order;
      var i :| 0 <= i < |order| && order[i] == j;
    }
  }

  /** All actions refer to states and rules that exist. */
  ghost predicate ListsRefer(g: Grammar, out: seq<seq<Action>>) {
    forall j :: 0 <= j < |out| ==> ListRefers(g, |out|, out[j])
  }

  ghost predicate ListRefers(g: Grammar, nstate: nat, l: seq<Action>) {
    forall a :: a in l ==> Refers(g, nstate, a)
  }

  method CountAll(g: Grammar, out: seq<seq<Action>>) returns (infos: seq<Info>)
    requires g.nterminal <= g.nsymbol && ListsRefer(g, out)
    ensures |infos| == |out| && forall j :: 0 <= j < |out| ==> infos[j] == InfoOf(g, Ids(0, |out|), out[j])
  {
    infos := [];
    var ids := Ids(0, |out|);
    for j := 0 to |out|
      invariant |infos| == j && forall i :: 0 <= i < j ==> infos[i] == InfoOf(g, ids, out[i])
    {
      assert ListRefers(g, |out|, out[j]);
      var info := CountActions(g, ids, out[j]);
      infos := infos + [info];
    }
  }

  /** The whole of ResortStates. */
  method ResortStates(g: Grammar, out: seq<seq<Action>>, p: Plan)
    returns (infos: seq<Info>, order: seq<nat>, num: seq<nat>, nxstate: nat)
    requires out != [] && |p.isAuto| == |out| && g.nterminal <= g.nsymbol && ListsRefer(g, out)
    ensures |infos| == |out| && forall j :: 0 <= j < |out| ==> infos[j] == InfoOf(g, Ids(0, |out|), out[j])
    ensures Renumbered(|out|, order, num) && InOrder(infos, order) && Trimmed(p, order, nxstate)
  {
    infos := CountAll(g, out);
    order := Order(infos);
    num := Number(order);
    nxstate := Trim(p, order);
  }

  /** The final loop: nxstate. */
  method Trim(p: Plan, order: seq<nat>) returns (nxstate: nat)
    requires order != [] && forall i :: 0 <= i < |order| ==> order[i] < |p.isAuto|
    ensures Trimmed(p, order, nxstate)
  {
    nxstate := |order|;
    while nxstate > 1 && p.isAuto[order[nxstate - 1]]
      invariant 1 <= nxstate <= |order|
      invariant forall i :: nxstate <= i < |order| ==> p.isAuto[order[i]]
    {
      nxstate := nxstate - 1;
    }
  }
}
