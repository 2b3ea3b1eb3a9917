/** FindActions: the action lists of all states, and what is left of them after conflict resolution. */
module ActionLists {
  import opened Grammars
  import opened Automata
  import opened Lalr
  import opened MergeSort
  import opened ConfigLists
  import opened StateTables
  import opened Actions
  import opened Options
  import opened Seals
  import opened Machine

  /** The automaton calls for this action in state i. */
  predicate Candidate(g: Grammar, states: seq<State>, fws: map<Node, set<nat>>, i: nat, sp: nat, ty: ActionType, x: nat)
    requires i < |states|
  {
    match ty
    case SHIFT => sp in states[i].shifts && states[i].shifts[sp] == x
    case REDUCE => x < |g.rules| && ReduceOn(g, states, fws, i, Config(x, |g.rules[x].rhs|), sp)
    case ACCEPT => i == 0 && sp == g.start && x == 0
    case _ => false
  }

  predicate ReduceOn(g: Grammar, states: seq<State>, fws: map<Node, set<nat>>, i: nat, c: Config, t: nat)
    requires i < |states|
  {
    c in states[i].cfp && Reducible(g, fws, i, c, t)
  }

  ghost predicate HasKey(l: seq<Action>, sp: nat, ty: ActionType, x: nat) {
    exists a :: a in l && a.sp == sp && a.ty == ty && a.x == x
  }

  /** Addresses below `next`, no two alike; no two actions alike but for the address. */
  ghost predicate ListOk(l: seq<Action>, next: nat) {
    && (forall a :: a in l ==> a.id < next)
    && (forall i, j :: 0 <= i < j < |l| ==> l[i].id != l[j].id)
    && (forall a, b :: a in l && b in l && a.sp == b.sp && a.ty == b.ty && a.x == b.x ==> a == b)
  }

  /** Action_add puts a new action in front. */
  function ActionAdd(l: seq<Action>, next: nat, sp: nat, ty: ActionType, x: nat): seq<Action> {
    [Action(next, sp, ty, x)] + l
  }

  lemma AddOk(l: seq<Action>, next: nat, sp: nat, ty: ActionType, x: nat)
    requires ListOk(l, next) && !HasKey(l, sp, ty, x)
    ensures ListOk(ActionAdd(l, next, sp, ty, x), next + 1)
    ensures forall s, t, y ::
      HasKey(ActionAdd(l, next, sp, ty, x), s, t, y) <==> HasKey(l, s, t, y) || (s == sp && t == ty && y == x)
  {
    var l' := ActionAdd(l, next, sp, ty, x);
    assert forall a :: a in l' <==> a == l'[0] || a in l;
    forall s, t, y ensures HasKey(l', s, t, y) <==> HasKey(l, s, t, y) || (s == sp && t == ty && y == x) {
      if s == sp && t == ty && y == x { assert l'[0] in l'; }
      if HasKey(l, s, t, y) {
        var a :| a in l && a.sp == s && a.ty == t && a.x == y;
        assert a in l';
      }
    }
  }

  method AddShifts(g: Grammar, st: State, next0: nat) returns (l: seq<Action>, next: nat)
    requires forall x :: x in st.shifts ==> x < g.nsymbol
    ensures ListOk(l, next) && |l| <= g.nsymbol
    ensures forall s, t, y :: HasKey(l, s, t, y) <==> t == SHIFT && s in st.shifts && st.shifts[s] == y
  {
    l, next := [], next0;
    for x := 0 to g.nsymbol
      invariant ListOk(l, next) && |l| <= x
      invariant forall s: nat, t, y ::
        HasKey(l, s, t, y) <==> t == SHIFT && s < x && s in st.shifts && st.shifts[s] == y
    {
      if x in st.shifts {
        AddOk(l, next, x, SHIFT, st.shifts[x]);
        l, next := ActionAdd(l, next, x, SHIFT, st.shifts[x]), next + 1;
      }
    }
  }

  /** The reductions of the first m configurations, and of configuration m on terminals below j. */
  ghost predicate ReduceUpTo(g: Grammar, states: seq<State>, fws: map<Node, set<nat>>, i: nat, m: nat, j: nat, s: nat,
          t: ActionType, y: nat)
    requires i < |states| && m <= |states[i].cfp|
  {
    && t == REDUCE && y < |g.rules|
    && var c := Config(y, |g.rules[y].rhs|);
       Reducible(g, fws, i, c, s)
       && (c in states[i].cfp[..m] || (m < |states[i].cfp| && c == states[i].cfp[m] && s < j))
  }

  /** The inner loop over the follow-set of one completed configuration. */
  method AddReduces(g: Grammar, states: seq<State>, fws: map<Node, set<nat>>, i: nat, m: nat, l0: seq<Action>,
          next0: nat, ghost base: seq<Action>)
    returns (l: seq<Action>, next: nat)
    requires i < |states| && m < |states[i].cfp| && Distinct(states[i].cfp) && ListOk(l0, next0)
    requires Node(i, states[i].cfp[m]) in fws
    requires forall s, t, y :: HasKey(base, s, t, y) ==> t != REDUCE
    requires forall s, t, y ::
      HasKey(l0, s, t, y) <==> HasKey(base, s, t, y) || ReduceUpTo(g, states, fws, i, m, 0, s, t, y)
    requires Complete(g, states[i].cfp[m])
    ensures ListOk(l, next) && |l| <= |l0| + g.nterminal
    ensures forall s, t, y ::
      HasKey(l, s, t, y) <==> HasKey(base, s, t, y) || ReduceUpTo(g, states, fws, i, m, g.nterminal, s, t, y)
  {
    l, next := l0, next0;
    var c := states[i].cfp[m];
    assert c == Config(c.rule, |g.rules[c.rule].rhs|);
    assert c !in states[i].cfp[..m];
    for j := 0 to g.nterminal
      invariant ListOk(l, next) && |l| <= |l0| + j
      invariant forall s, t, y ::
        HasKey(l, s, t, y) <==> HasKey(base, s, t, y) || ReduceUpTo(g, states, fws, i, m, j, s, t, y)
    {
      if j in fws[Node(i, c)] {
        assert !HasKey(l, j, REDUCE, c.rule);
        AddOk(l, next, j, REDUCE, c.rule);
        l, next := ActionAdd(l, next, j, REDUCE, c.rule), next + 1;
      }
    }
  }

  lemma ReduceNext(g: Grammar, states: seq<State>, fws: map<Node, set<nat>>, i: nat, m: nat, j: nat)
    requires i < |states| && m < |states[i].cfp|
    requires j == if Complete(g, states[i].cfp[m]) then g.nterminal else 0
    ensures forall s, t, y ::
      ReduceUpTo(g, states, fws, i, m + 1, 0, s, t, y) <==> ReduceUpTo(g, states, fws, i, m, j, s, t, y)
  {
    assert states[i].cfp[..m + 1] == states[i].cfp[..m] + [states[i].cfp[m]];
  }

  /** All candidate actions of one state. */
  method BuildList(g: Grammar, states: seq<State>, fws: map<Node, set<nat>>, i: nat)
    returns (l: seq<Action>, ghost next: nat)
    requires g.Valid() && i < |states| && Distinct(states[i].cfp)
    requires forall c :: c in states[i].cfp ==> Node(i, c) in fws && InGrammar(g, c)
    requires forall x :: x in states[i].shifts ==> x < g.nsymbol
    ensures ListOk(l, next) && |l| <= g.nsymbol + |states[i].cfp| * g.nterminal + 1
    ensures forall s, t, y :: HasKey(l, s, t, y) <==> Candidate(g, states, fws, i, s, t, y)
  {
    var next1;
    l, next1 := AddShifts(g, states[i], 0);
    ghost var base := l;
    var cfp := states[i].cfp;
    for m := 0 to |cfp|
      invariant ListOk(l, next1) && |l| <= g.nsymbol + m * g.nterminal
      invariant forall s, t, y ::
        HasKey(l, s, t, y) <==> HasKey(base, s, t, y) || ReduceUpTo(g, states, fws, i, m, 0, s, t, y)
    {
      assert (m + 1) * g.nterminal == m * g.nterminal + g.nterminal;
      assert cfp[m] in cfp;
      ReduceNext(g, states, fws, i, m, if Complete(g, cfp[m]) then g.nterminal else 0);
      if |g.rules[cfp[m].rule].rhs| == cfp[m].dot {
        l, next1 := AddReduces(g, states, fws, i, m, l, next1, base);
      }
    }
    assert cfp[..|cfp|] == cfp;
    if i == 0 {
      AddOk(l, next1, g.start, ACCEPT, 0);
      l, next1 := ActionAdd(l, next1, g.start, ACCEPT, 0), next1 + 1;
    }
    next := next1;
  }

  // ---- after resolution ----

  /** Live actions are candidates; the others have lost. */
  ghost predicate OnlyCandidates(g: Grammar, states: seq<State>, fws: map<Node, set<nat>>, i: nat, r: seq<Action>)
    requires i < |states|
  {
    && (forall a :: a in r ==> a.sp < g.nsymbol && (IsLive(a) || IsLoser(a)))
    && (forall a :: a in r && IsLive(a) ==> Candidate(g, states, fws, i, a.sp, a.ty, a.x))
  }

  /** Who wins on lookahead s when the shift or acceptance, if there is one, is challenged by the reductions by
      the rules below n, in the order of the rules. */
  ghost function Winner(g: Grammar, states: seq<State>, fws: map<Node, set<nat>>, i: nat, s: nat,
          n: nat): (w: Option<Action>)
    requires i < |states|
  {
    if n == 0 then
      if s in states[i].shifts then Some(Action(0, s, SHIFT, states[i].shifts[s]))
      else if i == 0 && s == g.start then Some(Action(0, s, ACCEPT, 0))
      else None
    else
      var w, a := Winner(g, states, fws, i, s, n - 1), Action(0, s, REDUCE, n - 1);
      if Candidate(g, states, fws, i, s, REDUCE, n - 1) && (w.None? || TakesOver(g, w.value, a)) then Some(a) else w
  }

  /** On lookahead s, a shift that no rule before y has beaten meets rule y in a tie. */
  ghost predicate TieFought(g: Grammar, states: seq<State>, fws: map<Node, set<nat>>, i: nat, s: nat)
    requires i < |states|
  {
    exists y: nat :: TieAt(g, states, fws, i, s, y)
  }

  ghost predicate TieAt(g: Grammar, states: seq<State>, fws: map<Node, set<nat>>, i: nat, s: nat, y: nat)
    requires i < |states|
  {
    var w := Winner(g, states, fws, i, s, y);
    Candidate(g, states, fws, i, s, REDUCE, y) && w.Some? && Tie(g, w.value, Action(0, s, REDUCE, y))
  }

  /** Resolving the conflicts of state i fails an assertion: a tie is met whose symbol is not declared
      nonassociative, or after which another reduction is left on the same lookahead. */
  ghost predicate Overrun(g: Grammar, states: seq<State>, fws: map<Node, set<nat>>, i: nat)
    requires i < |states|
  {
    exists s: nat, y: nat :: OverrunAt(g, states, fws, i, s, y)
  }

  ghost predicate OverrunAt(g: Grammar, states: seq<State>, fws: map<Node, set<nat>>, i: nat, s: nat, y: nat)
    requires i < |states|
  {
    && TieAt(g, states, fws, i, s, y)
    && (AssocOf(g, s) != NONE || exists y': nat :: y < y' && Candidate(g, states, fws, i, s, REDUCE, y'))
  }

  /** What becomes of a candidate. A reduction that does not take the place of the winner among the earlier ones has
      lost to that; otherwise it stays until a later one takes its place, as the shift does. */
  ghost function LeftAs(g: Grammar, states: seq<State>, fws: map<Node, set<nat>>, i: nat, s: nat, t: ActionType,
          x: nat): ActionType
    requires i < |states|
  {
    var a, w, last := Action(0, s, t, x), Winner(g, states, fws, i, s, x), Winner(g, states, fws, i, s, |g.rules|);
    if t == REDUCE && w.Some? && !TakesOver(g, w.value, a) then LostAs(g, w.value, a)
    else if last == Some(a) then t
    else if t == REDUCE then RD_RESOLVED
    else if TieFought(g, states, fws, i, s) then ERROR
    else SH_RESOLVED
  }

  /** The action a is what has become of a candidate. */
  ghost predicate LeftOver(g: Grammar, states: seq<State>, fws: map<Node, set<nat>>, i: nat, a: Action)
    requires i < |states|
  {
    exists t :: Candidate(g, states, fws, i, a.sp, t, a.x) && a.ty == LeftAs(g, states, fws, i, a.sp, t, a.x)
  }

  /** Every candidate is there, once, with the type it is left with, and nothing else is. */
  ghost predicate Outcomes(g: Grammar, states: seq<State>, fws: map<Node, set<nat>>, i: nat, r: seq<Action>)
    requires i < |states|
  {
    && (forall s, t, x ::
          Candidate(g, states, fws, i, s, t, x) ==> HasKey(r, s, LeftAs(g, states, fws, i, s, t, x), x))
    && (forall a :: a in r ==> LeftOver(g, states, fws, i, a))
    && (forall j, k :: 0 <= j < k < |r| ==> r[j].(id := 0) != r[k].(id := 0))
  }

  /** The live action of each lookahead is the winner. */
  ghost predicate OnlyWinners(g: Grammar, states: seq<State>, fws: map<Node, set<nat>>, i: nat, r: seq<Action>)
    requires i < |states|
  {
    forall a :: a in r && IsLive(a) ==> Winner(g, states, fws, i, a.sp, |g.rules|) == Some(a.(id := 0))
  }

  ghost predicate ErrorOn(r: seq<Action>, s: nat) {
    exists a :: a in r && a.ty == ERROR && a.sp == s
  }

  /** ERROR actions stand exactly on the lookaheads where a tie was fought. */
  ghost predicate ErrorsFromTies(g: Grammar, states: seq<State>, fws: map<Node, set<nat>>, i: nat, r: seq<Action>)
    requires i < |states|
  {
    forall s: nat :: ErrorOn(r, s) <==> TieFought(g, states, fws, i, s)
  }

  /** Every lookahead that had a candidate has a live action. */
  ghost predicate AllCovered(g: Grammar, states: seq<State>, fws: map<Node, set<nat>>, i: nat, r: seq<Action>)
    requires i < |states|
  {
    forall s, t, y :: Candidate(g, states, fws, i, s, t, y) ==> LiveOn(r, s)
  }

  /** No lookahead has two live actions, no nonterminal has two actions at all, and no two actions
      share an address. */
  ghost predicate OneEach(g: Grammar, r: seq<Action>) {
    && (forall a, b :: a in r && b in r && IsLive(a) && IsLive(b) && a.sp == b.sp ==> a == b)
    && (forall a, b :: a in r && b in r && a.sp == b.sp && a.sp >= g.nterminal ==> a == b)
    && (forall j, k :: 0 <= j < k < |r| ==> r[j].id != r[k].id)
  }

  /** What conflict resolution leaves of state i, when no assertion fails: on every lookahead that had any candidate,
      exactly one live
      action, the winner; and an ERROR besides exactly where the shift lost in a tie. The list is in the order of
      the symbols. */
  ghost predicate Resolution(g: Grammar, states: seq<State>, fws: map<Node, set<nat>>, i: nat, r: seq<Action>)
    requires i < |states|
  {
    && OnlyCandidates(g, states, fws, i, r) && AllCovered(g, states, fws, i, r) && OneEach(g, r)
    && OnlyWinners(g, states, fws, i, r) && ErrorsFromTies(g, states, fws, i, r) && SpSorted(r)
    && !Overrun(g, states, fws, i)
  }

  /** ... and no tie was fought. */
  ghost predicate Resolved(g: Grammar, states: seq<State>, fws: map<Node, set<nat>>, i: nat, r: seq<Action>)
    requires i < |states|
  {
    Resolution(g, states, fws, i, r) && forall a :: a in r ==> a.ty != ERROR
  }

  /** Without a tie on any lookahead there is no ERROR. */
  lemma ResolvedCleanly(g: Grammar, states: seq<State>, fws: map<Node, set<nat>>, i: nat, r: seq<Action>)
    requires i < |states| && Resolution(g, states, fws, i, r)
    ensures Resolved(g, states, fws, i, r) <==> forall s: nat :: !TieFought(g, states, fws, i, s)
  {
    forall a | a in r && a.ty == ERROR ensures TieFought(g, states, fws, i, a.sp) {
      assert ErrorOn(r, a.sp);
    }
    if s: nat :| TieFought(g, states, fws, i, s) {
      assert ErrorOn(r, s);
    }
  }

  ghost predicate LiveOn(r: seq<Action>, s: nat) {
    exists a :: a in r && IsLive(a) && a.sp == s
  }

  /** No shift and reduction of equal precedence that is neither left nor right associative. */
  ghost predicate NoTies(g: Grammar, states: seq<State>, fws: map<Node, set<nat>>, i: nat)
    requires i < |states|
  {
    forall s: nat, x: nat, y: nat, m: nat, n: nat ::
      Candidate(g, states, fws, i, s, SHIFT, x) && Candidate(g, states, fws, i, s, REDUCE, y) ==>
        !Tie(g, Action(m, s, SHIFT, x), Action(n, s, REDUCE, y))
  }

  /** Without ties no assertion fails. */
  lemma NoTieNoOverrun(g: Grammar, states: seq<State>, fws: map<Node, set<nat>>, i: nat)
    requires i < |states| && forall s: nat :: !TieFought(g, states, fws, i, s)
    ensures !Overrun(g, states, fws, i)
  {
    forall s: nat, y: nat ensures !OverrunAt(g, states, fws, i, s, y) {
      assert !TieFought(g, states, fws, i, s);
    }
  }

  /** When no assertion fails, the reduction met in a tie is the one that is left. */
  lemma TieWins(g: Grammar, states: seq<State>, fws: map<Node, set<nat>>, i: nat, s: nat, y: nat)
    requires i < |states| && !Overrun(g, states, fws, i) && TieAt(g, states, fws, i, s, y)
    ensures Winner(g, states, fws, i, s, |g.rules|) == Some(Action(0, s, REDUCE, y))
  {
    assert !OverrunAt(g, states, fws, i, s, y);
    TieLast(g, states, fws, i, s, y, |g.rules|);
  }

  lemma {:induction false} TieLast(g: Grammar, states: seq<State>, fws: map<Node, set<nat>>, i: nat, s: nat, y: nat,
          n: nat)
    requires i < |states| && TieAt(g, states, fws, i, s, y) && y < n
    requires forall y': nat :: y < y' ==> !Candidate(g, states, fws, i, s, REDUCE, y')
    ensures Winner(g, states, fws, i, s, n) == Some(Action(0, s, REDUCE, y))
    decreases n
  {
    if n > y + 1 { TieLast(g, states, fws, i, s, y, n - 1); }
  }

  /** Then in particular no tie is fought. */
  lemma NoTieFought(g: Grammar, states: seq<State>, fws: map<Node, set<nat>>, i: nat, s: nat)
    requires i < |states| && NoTies(g, states, fws, i)
    ensures !TieFought(g, states, fws, i, s)
  {
    forall y: nat ensures !TieAt(g, states, fws, i, s, y) {
      WinnerShift(g, states, fws, i, s, y);
    }
  }

  lemma {:induction false} WinnerShift(g: Grammar, states: seq<State>, fws: map<Node, set<nat>>, i: nat, s: nat, n: nat)
    requires i < |states|
    ensures var w := Winner(g, states, fws, i, s, n);
      w.Some? && w.value.ty == SHIFT ==> s in states[i].shifts && w.value == Action(0, s, SHIFT, states[i].shifts[s])
  {
    if n > 0 { WinnerShift(g, states, fws, i, s, n - 1); }
  }

  lemma ListResolvable(g: Grammar, states: seq<State>, fws: map<Node, set<nat>>, i: nat, l: seq<Action>, next: nat)
    requires g.Valid() && g.StartIsolated() && IsAutomaton(g, states) && i < |states|
    requires ListOk(l, next)
    requires forall s, t, y :: HasKey(l, s, t, y) <==> Candidate(g, states, fws, i, s, t, y)
    ensures Resolvable(l)
    ensures forall a :: a in l ==> a.sp < g.nsymbol && Candidate(g, states, fws, i, a.sp, a.ty, a.x)
    ensures forall a, b :: a in l && b in l && a.sp == b.sp && a.sp >= g.nterminal ==> a == b
  {
    forall a, b | a in l && b in l && a.sp == b.sp && a.sp >= g.nterminal ensures a == b {
      assert HasKey(l, a.sp, a.ty, a.x) && HasKey(l, b.sp, b.ty, b.x);
      if a.ty == SHIFT || b.ty == SHIFT { if a.sp in states[i].shifts { ShiftSymbol(g, states, i, a.sp); } }
    }
    forall a | a in l ensures a.sp < g.nsymbol && Candidate(g, states, fws, i, a.sp, a.ty, a.x) {
      assert HasKey(l, a.sp, a.ty, a.x);
      if a.ty == SHIFT { ShiftSymbol(g, states, i, a.sp); }
    }
  }

  // ---- the champion of a sorted list is the winner ----

  /** A sorted list of exactly the candidates, each once. */
  ghost predicate ListedOk(g: Grammar, states: seq<State>, fws: map<Node, set<nat>>, i: nat, l: seq<Action>)
    requires i < |states|
  {
    && Sorted(Actioncmp, l) && Resolvable(l) && g.start !in states[i].shifts
    && (forall a, b :: a in l && b in l && a.sp == b.sp && a.ty == b.ty && a.x == b.x ==> a == b)
    && (forall s, t, y :: HasKey(l, s, t, y) <==> Candidate(g, states, fws, i, s, t, y))
  }

  /** ListedOk, sealed. */
  ghost predicate Listed(g: Grammar, states: seq<State>, fws: map<Node, set<nat>>, i: nat, l: seq<Action>)
    requires i < |states|
  {
    forall q {:trigger Open(q)} :: Open(q) && q == l ==> ListedOk(g, states, fws, i, q)
  }

  lemma ListedAt(g: Grammar, states: seq<State>, fws: map<Node, set<nat>>, i: nat, l: seq<Action>, k: nat)
    requires i < |states| && Listed(g, states, fws, i, l) && k < |l|
    ensures Candidate(g, states, fws, i, l[k].sp, l[k].ty, l[k].x)
  {
    assert Open(l);
    assert HasKey(l, l[k].sp, l[k].ty, l[k].x);
  }

  lemma ListedTwice(g: Grammar, states: seq<State>, fws: map<Node, set<nat>>, i: nat, l: seq<Action>, j: nat, k: nat)
    requires i < |states| && Listed(g, states, fws, i, l) && j < k < |l|
    ensures l[j].(id := 0) != l[k].(id := 0) && g.start !in states[i].shifts
  {
    assert Open(l);
    assert l[j] in l && l[k] in l && l[j].id != l[k].id;
  }

  lemma PlaceOf(g: Grammar, states: seq<State>, fws: map<Node, set<nat>>, i: nat, l: seq<Action>, s: nat,
          t: ActionType, y: nat)
    returns (k: nat)
    requires i < |states| && Listed(g, states, fws, i, l) && Candidate(g, states, fws, i, s, t, y)
    ensures k < |l| && l[k] == Action(l[k].id, s, t, y)
  {
    assert Open(l);
    assert HasKey(l, s, t, y);
    var a :| a in l && a.sp == s && a.ty == t && a.x == y;
    k :| 0 <= k < |l| && l[k] == a;
  }

  /** l[lo..m] are exactly the candidates on s other than reductions by rules from n on. */
  ghost predicate UpToRule(l: seq<Action>, lo: nat, m: nat, s: nat, n: nat) {
    && lo <= m <= |l|
    && (forall k :: 0 <= k < |l| ==> (lo <= k < m <==> l[k].sp == s && (l[k].ty == REDUCE ==> l[k].x < n)))
  }

  /** In sorted order, the reduction by rule n - 1 is the last of those below n. */
  lemma LastRule(l: seq<Action>, lo: nat, m: nat, s: nat, n: nat, k: nat)
    requires Sorted(Actioncmp, l) && Resolvable(l) && n > 0 && UpToRule(l, lo, m, s, n)
    requires forall a, b :: a in l && b in l && a.sp == b.sp && a.ty == b.ty && a.x == b.x ==> a == b
    requires k < |l| && l[k].sp == s && l[k].ty == REDUCE && l[k].x == n - 1
    ensures k == m - 1 && UpToRule(l, lo, m - 1, s, n - 1)
  {
    assert lo <= k < m && l[m - 1] in l && l[k] in l;
    forall q | 0 <= q < |l| && q != k ensures !(l[q].sp == s && l[q].ty == REDUCE && l[q].x == n - 1) {
      assert l[q] in l && l[k] in l;
      assert l[q].id != l[k].id;
    }
    if k < m - 1 {
      ActioncmpOrder();
      SortedPairs(Actioncmp, l, k, m - 1);
      assert false;
    }
  }

  lemma {:induction false} ChampWinner(g: Grammar, states: seq<State>, fws: map<Node, set<nat>>, i: nat,
          l: seq<Action>, lo: nat, m: nat, s: nat, n: nat)
    requires i < |states| && Listed(g, states, fws, i, l)
    requires UpToRule(l, lo, m, s, n)
    ensures Winner(g, states, fws, i, s, n) == if m == lo then None else Some(l[Champ(g, l, lo, m)].(id := 0))
    decreases n
  {
    if n == 0 {
      FirstChamp(g, states, fws, i, l, lo, m, s);
    } else if Candidate(g, states, fws, i, s, REDUCE, n - 1) {
      RulePresent(g, states, fws, i, l, lo, m, s, n);
      ChampWinner(g, states, fws, i, l, lo, m - 1, s, n - 1);
      if lo < m - 1 { ChampionFights(g, states, fws, i, l, Champ(g, l, lo, m - 1), m - 1); }
    } else {
      RuleAbsent(g, states, fws, i, l, lo, m, s, n);
      ChampWinner(g, states, fws, i, l, lo, m, s, n - 1);
    }
  }

  /** A champion that a reduction challenges is a shift or a reduction. */
  lemma ChampionFights(g: Grammar, states: seq<State>, fws: map<Node, set<nat>>, i: nat, l: seq<Action>, c: nat,
          k: nat)
    requires i < |states| && Listed(g, states, fws, i, l) && c < k < |l| && l[c].sp == l[k].sp && l[k].ty == REDUCE
    ensures l[c].ty == SHIFT || l[c].ty == REDUCE
    ensures Beats(g, l[c], l[k]) <==> TakesOver(g, l[c].(id := 0), l[k].(id := 0))
  {
    assert Resolvable(l) by { assert Open(l); }
    assert l[c] in l && l[k] in l && l[c].id != l[k].id;
    ResolveRule(g, l[c], l[k]);
  }

  lemma RulePresent(g: Grammar, states: seq<State>, fws: map<Node, set<nat>>, i: nat, l: seq<Action>, lo: nat, m: nat,
          s: nat, n: nat)
    requires i < |states| && Listed(g, states, fws, i, l) && UpToRule(l, lo, m, s, n)
    requires n > 0 && Candidate(g, states, fws, i, s, REDUCE, n - 1)
    ensures lo < m && l[m - 1].(id := 0) == Action(0, s, REDUCE, n - 1) && UpToRule(l, lo, m - 1, s, n - 1)
  {
    var k := PlaceOf(g, states, fws, i, l, s, REDUCE, n - 1);
    assert Open(l);
    LastRule(l, lo, m, s, n, k);
  }

  lemma RuleAbsent(g: Grammar, states: seq<State>, fws: map<Node, set<nat>>, i: nat, l: seq<Action>, lo: nat, m: nat,
          s: nat, n: nat)
    requires i < |states| && Listed(g, states, fws, i, l) && UpToRule(l, lo, m, s, n)
    requires n > 0 && !Candidate(g, states, fws, i, s, REDUCE, n - 1)
    ensures UpToRule(l, lo, m, s, n - 1)
  {
    forall k | 0 <= k < |l| && l[k].sp == s && l[k].ty == REDUCE ensures l[k].x != n - 1 {
      ListedAt(g, states, fws, i, l, k);
    }
  }

  /** At most one action on s is no reduction. */
  lemma FirstAlone(g: Grammar, states: seq<State>, fws: map<Node, set<nat>>, i: nat, l: seq<Action>, lo: nat, m: nat,
          s: nat)
    requires i < |states| && Listed(g, states, fws, i, l) && UpToRule(l, lo, m, s, 0)
    ensures m <= lo + 1
  {
    if m > lo + 1 {
      ListedAt(g, states, fws, i, l, lo);
      ListedAt(g, states, fws, i, l, lo + 1);
      ListedTwice(g, states, fws, i, l, lo, lo + 1);
      assert false;
    }
  }

  lemma FirstChamp(g: Grammar, states: seq<State>, fws: map<Node, set<nat>>, i: nat, l: seq<Action>, lo: nat, m: nat,
          s: nat)
    requires i < |states| && Listed(g, states, fws, i, l)
    requires UpToRule(l, lo, m, s, 0)
    ensures Winner(g, states, fws, i, s, 0) == if m == lo then None else Some(l[Champ(g, l, lo, m)].(id := 0))
  {
    FirstAlone(g, states, fws, i, l, lo, m, s);
    if m > lo {
      ListedAt(g, states, fws, i, l, lo);
      assert g.start !in states[i].shifts by { assert Open(l); }
    } else if Winner(g, states, fws, i, s, 0).Some? {
      var w := Winner(g, states, fws, i, s, 0).value;
      var k := PlaceOf(g, states, fws, i, l, s, w.ty, w.x);
      assert false;
    }
  }

  /** What the fights on one lookahead amount to. */
  lemma RunResolved(g: Grammar, states: seq<State>, fws: map<Node, set<nat>>, i: nat, l: seq<Action>, lo: nat, hi: nat)
    requires i < |states| && Listed(g, states, fws, i, l)
    requires IsRun(l, lo, hi)
    ensures IsGroup(g, l, lo, hi)
    ensures Winner(g, states, fws, i, l[lo].sp, |g.rules|) == Some(l[Champ(g, l, lo, hi)].(id := 0))
  {
    assert Sorted(Actioncmp, l) && Resolvable(l) by { assert Open(l); }
    SortedGroup(g, l, lo, hi);
    forall k | 0 <= k < |l| && l[k].ty == REDUCE ensures l[k].x < |g.rules| {
      ListedAt(g, states, fws, i, l, k);
    }
    ChampWinner(g, states, fws, i, l, lo, hi, l[lo].sp, |g.rules|);
  }

  lemma RunTies(g: Grammar, states: seq<State>, fws: map<Node, set<nat>>, i: nat, l: seq<Action>, lo: nat, hi: nat)
    requires i < |states| && Listed(g, states, fws, i, l) && IsRun(l, lo, hi)
    ensures SomeTie(g, l, lo, hi) <==> TieFought(g, states, fws, i, l[lo].sp)
  {
    if SomeTie(g, l, lo, hi) {
      var j :| lo < j < hi && Tie(g, l[Champ(g, l, lo, j)], l[j]);
      ListedAt(g, states, fws, i, l, j);
      RunTie(g, states, fws, i, l, lo, hi, j);
      assert TieAt(g, states, fws, i, l[lo].sp, l[j].x);
    }
    if TieFought(g, states, fws, i, l[lo].sp) {
      var y: nat :| TieAt(g, states, fws, i, l[lo].sp, y);
      var j := PlaceOf(g, states, fws, i, l, l[lo].sp, REDUCE, y);
      RunTie(g, states, fws, i, l, lo, hi, j);
    }
  }

  lemma RunTie(g: Grammar, states: seq<State>, fws: map<Node, set<nat>>, i: nat, l: seq<Action>, lo: nat, hi: nat,
          j: nat)
    requires i < |states| && Listed(g, states, fws, i, l) && IsRun(l, lo, hi)
    requires lo <= j < hi && l[j].ty == REDUCE && Candidate(g, states, fws, i, l[j].sp, REDUCE, l[j].x)
    ensures TieAt(g, states, fws, i, l[lo].sp, l[j].x) <==> j > lo && Tie(g, l[Champ(g, l, lo, j)], l[j])
  {
    assert UpToRule(l, lo, j, l[lo].sp, l[j].x) by { assert Open(l); RunPrefix(l, lo, hi, j); }
    ChampWinner(g, states, fws, i, l, lo, j, l[lo].sp, l[j].x);
  }

  /** The fights on one lookahead fail an assertion exactly in such a case. */
  lemma RunStops(g: Grammar, states: seq<State>, fws: map<Node, set<nat>>, i: nat, l: seq<Action>, lo: nat, hi: nat)
    requires i < |states| && Listed(g, states, fws, i, l) && IsRun(l, lo, hi)
    ensures Stops(g, l, lo, hi) <==> exists y: nat :: OverrunAt(g, states, fws, i, l[lo].sp, y)
  {
    if Stops(g, l, lo, hi) {
      var j :| lo < j < hi && StopsAt(g, l, lo, hi, j);
      RunStop(g, states, fws, i, l, lo, hi, j);
      assert OverrunAt(g, states, fws, i, l[lo].sp, l[j].x);
    }
    if y: nat :| OverrunAt(g, states, fws, i, l[lo].sp, y) {
      var j := PlaceOf(g, states, fws, i, l, l[lo].sp, REDUCE, y);
      RunStop(g, states, fws, i, l, lo, hi, j);
    }
  }

  lemma RunStop(g: Grammar, states: seq<State>, fws: map<Node, set<nat>>, i: nat, l: seq<Action>, lo: nat, hi: nat,
          j: nat)
    requires i < |states| && Listed(g, states, fws, i, l) && IsRun(l, lo, hi) && lo <= j < hi && l[j].ty == REDUCE
    ensures OverrunAt(g, states, fws, i, l[lo].sp, l[j].x) <==> j > lo && StopsAt(g, l, lo, hi, j)
  {
    ListedAt(g, states, fws, i, l, j);
    RunTie(g, states, fws, i, l, lo, hi, j);
    if j + 1 < hi {
      ListedAt(g, states, fws, i, l, j + 1);
      LaterRule(g, states, fws, i, l, j, j + 1);
    }
    if y': nat :| l[j].x < y' && Candidate(g, states, fws, i, l[lo].sp, REDUCE, y') {
      var q := PlaceOf(g, states, fws, i, l, l[lo].sp, REDUCE, y');
      if q < j { LaterRule(g, states, fws, i, l, q, j); }
    }
  }

  /** In sorted order a later action on the same lookahead is a reduction by a later rule. */
  lemma LaterRule(g: Grammar, states: seq<State>, fws: map<Node, set<nat>>, i: nat, l: seq<Action>, j: nat, k: nat)
    requires i < |states| && Listed(g, states, fws, i, l) && j < k < |l| && l[j].sp == l[k].sp && l[j].ty == REDUCE
    ensures l[k].ty == REDUCE && l[j].x < l[k].x
  {
    assert Open(l);
    ActioncmpOrder();
    SortedPairs(Actioncmp, l, j, k);
    ListedTwice(g, states, fws, i, l, j, k);
    assert l[k] in l && l[j] in l;
  }

  lemma ListStops(g: Grammar, states: seq<State>, fws: map<Node, set<nat>>, i: nat, l: seq<Action>)
    requires i < |states| && Listed(g, states, fws, i, l)
    ensures SomeStop(g, l) <==> Overrun(g, states, fws, i)
  {
    if SomeStop(g, l) {
      var lo: nat, hi: nat :| IsRun(l, lo, hi) && Stops(g, l, lo, hi);
      RunStops(g, states, fws, i, l, lo, hi);
    }
    if Overrun(g, states, fws, i) {
      var s: nat, y: nat :| OverrunAt(g, states, fws, i, s, y);
      var j := PlaceOf(g, states, fws, i, l, s, REDUCE, y);
      var lo, hi := RunOf(l, j) by { assert Open(l); }
      RunStops(g, states, fws, i, l, lo, hi);
    }
  }

  /** Every action of a sorted list is in a run. */
  lemma RunOf(l: seq<Action>, k: nat) returns (lo: nat, hi: nat)
    requires Sorted(Actioncmp, l) && k < |l|
    ensures IsRun(l, lo, hi) && lo <= k < hi
  {
    SpSortedList(l);
    lo, hi := k, k + 1;
    while lo > 0 && l[lo - 1].sp == l[k].sp
      invariant lo <= k && forall i :: lo <= i <= k ==> l[i].sp == l[k].sp
    {
      lo := lo - 1;
    }
    while hi < |l| && l[hi].sp == l[k].sp
      invariant k < hi <= |l| && forall i :: lo <= i < hi ==> l[i].sp == l[k].sp
    {
      hi := hi + 1;
    }
  }

  lemma RunPrefix(l: seq<Action>, lo: nat, hi: nat, j: nat)
    requires Sorted(Actioncmp, l) && Resolvable(l) && IsRun(l, lo, hi) && lo <= j < hi && l[j].ty == REDUCE
    requires forall a, b :: a in l && b in l && a.sp == b.sp && a.ty == b.ty && a.x == b.x ==> a == b
    ensures UpToRule(l, lo, j, l[lo].sp, l[j].x)
  {
    ActioncmpOrder();
    forall k | 0 <= k < |l| ensures lo <= k < j <==> l[k].sp == l[lo].sp && (l[k].ty == REDUCE ==> l[k].x < l[j].x) {
      assert l[k] in l && l[j] in l;
      if lo <= k < j {
        SortedPairs(Actioncmp, l, k, j);
        assert l[k].id != l[j].id;
      } else if j < k < hi {
        SortedPairs(Actioncmp, l, j, k);
      }
    }
  }

  /** The run of an action. */
  lemma FateOf(g: Grammar, l: seq<Action>, r: seq<Action>, k: nat) returns (lo: nat, hi: nat)
    requires Decided(g, l, r) && k < |l|
    ensures IsRun(l, lo, hi) && lo <= k < hi && r[k] == l[k].(ty := Fate(g, l, lo, hi, k))
  {
    assert Fated(g, l, r, k);
    lo, hi :| IsRun(l, lo, hi) && lo <= k < hi && r[k] == l[k].(ty := Fate(g, l, lo, hi, k));
  }

  lemma DecidedWinners(g: Grammar, states: seq<State>, fws: map<Node, set<nat>>, i: nat, l: seq<Action>, r: seq<Action>)
    requires i < |states| && Listed(g, states, fws, i, l)
    requires Decided(g, l, r)
    ensures OnlyWinners(g, states, fws, i, r)
  {
    forall a | a in r && IsLive(a) ensures Winner(g, states, fws, i, a.sp, |g.rules|) == Some(a.(id := 0)) {
      var k :| 0 <= k < |r| && r[k] == a;
      var lo, hi := FateOf(g, l, r, k);
      FateWins(g, states, fws, i, l, lo, hi, k, a);
    }
  }

  lemma FateWins(g: Grammar, states: seq<State>, fws: map<Node, set<nat>>, i: nat, l: seq<Action>, lo: nat, hi: nat,
          k: nat, a: Action)
    requires i < |states| && Listed(g, states, fws, i, l) && IsRun(l, lo, hi) && lo <= k < hi
    requires a == l[k].(ty := Fate(g, l, lo, hi, k)) && IsLive(a)
    ensures Winner(g, states, fws, i, a.sp, |g.rules|) == Some(a.(id := 0))
  {
    RunResolved(g, states, fws, i, l, lo, hi);
    Fates(g, l, lo, hi);
    assert k == Champ(g, l, lo, hi);
  }

  /** The fights on one lookahead leave each candidate as its type says. */
  lemma RunLeaves(g: Grammar, states: seq<State>, fws: map<Node, set<nat>>, i: nat, l: seq<Action>, lo: nat, hi: nat,
          k: nat)
    requires i < |states| && Listed(g, states, fws, i, l) && IsRun(l, lo, hi) && lo <= k < hi
    ensures Fate(g, l, lo, hi, k) == LeftAs(g, states, fws, i, l[k].sp, l[k].ty, l[k].x)
  {
    ListedAt(g, states, fws, i, l, k);
    RunResolved(g, states, fws, i, l, lo, hi);
    FateLeft(g, l, lo, hi, k);
    LastIs(g, states, fws, i, l, lo, hi, k);
    if l[k].ty == REDUCE {
      ReductionLeft(g, states, fws, i, l, lo, hi, k);
    } else {
      FirstIs(g, states, fws, i, l, lo, hi, k);
      ShiftErrs(g, states, fws, i, l, lo, hi);
    }
  }

  lemma LastIs(g: Grammar, states: seq<State>, fws: map<Node, set<nat>>, i: nat, l: seq<Action>, lo: nat, hi: nat,
          k: nat)
    requires i < |states| && Listed(g, states, fws, i, l) && IsRun(l, lo, hi) && lo <= k < hi
    ensures Winner(g, states, fws, i, l[k].sp, |g.rules|) == Some(l[k].(id := 0)) <==> Champ(g, l, lo, hi) == k
  {
    RunResolved(g, states, fws, i, l, lo, hi);
    var c := Champ(g, l, lo, hi);
    if c < k { ListedTwice(g, states, fws, i, l, c, k); }
    if k < c { ListedTwice(g, states, fws, i, l, k, c); }
  }

  /** An action that is no reduction comes first. */
  lemma FirstIs(g: Grammar, states: seq<State>, fws: map<Node, set<nat>>, i: nat, l: seq<Action>, lo: nat, hi: nat,
          k: nat)
    requires i < |states| && Listed(g, states, fws, i, l) && IsGroup(g, l, lo, hi) && lo <= k < hi && l[k].ty != REDUCE
    ensures k == lo && (l[k].ty == SHIFT || hi == lo + 1)
  {
    if k > lo {
      ListedAt(g, states, fws, i, l, lo);
      ListedAt(g, states, fws, i, l, k);
      ListedTwice(g, states, fws, i, l, lo, k);
      assert false;
    }
    if hi > lo + 1 { assert Fightable(l[lo], l[lo + 1]); }
  }

  lemma ReductionLeft(g: Grammar, states: seq<State>, fws: map<Node, set<nat>>, i: nat, l: seq<Action>, lo: nat,
          hi: nat, k: nat)
    requires i < |states| && Listed(g, states, fws, i, l) && IsRun(l, lo, hi) && lo <= k < hi && l[k].ty == REDUCE
    ensures var w, a := Winner(g, states, fws, i, l[k].sp, l[k].x), l[k].(id := 0);
      (w.Some? && !TakesOver(g, w.value, a)) <==> k > lo && !Beats(g, l[Champ(g, l, lo, k)], l[k])
    ensures k > lo && !Beats(g, l[Champ(g, l, lo, k)], l[k]) ==>
      Resolve(g, l[Champ(g, l, lo, k)], l[k]).1.ty ==
        LostAs(g, Winner(g, states, fws, i, l[k].sp, l[k].x).value, l[k].(id := 0))
  {
    assert UpToRule(l, lo, k, l[lo].sp, l[k].x) by { assert Open(l); RunPrefix(l, lo, hi, k); }
    ChampWinner(g, states, fws, i, l, lo, k, l[lo].sp, l[k].x);
    if k > lo {
      ChampionFights(g, states, fws, i, l, Champ(g, l, lo, k), k);
      ResolveRule(g, l[Champ(g, l, lo, k)], l[k]);
    }
  }

  /** The shift becomes an ERROR exactly if a tie was fought. */
  lemma ShiftErrs(g: Grammar, states: seq<State>, fws: map<Node, set<nat>>, i: nat, l: seq<Action>, lo: nat, hi: nat)
    requires i < |states| && Listed(g, states, fws, i, l) && IsRun(l, lo, hi)
    ensures Fate(g, l, lo, hi, lo) == ERROR <==> TieFought(g, states, fws, i, l[lo].sp)
  {
    RunResolved(g, states, fws, i, l, lo, hi);
    RunTies(g, states, fws, i, l, lo, hi);
    ErrorFates(g, l, lo, hi);
    if SomeError(g, l, lo, hi) {
      var q :| lo <= q < hi && Fate(g, l, lo, hi, q) == ERROR;
      ErrorFirst(g, l, lo, hi, q);
    }
  }

  lemma DecidedOutcomes(g: Grammar, states: seq<State>, fws: map<Node, set<nat>>, i: nat, l: seq<Action>,
          r: seq<Action>)
    requires i < |states| && Listed(g, states, fws, i, l) && Decided(g, l, r)
    ensures Outcomes(g, states, fws, i, r)
  {
    forall k | 0 <= k < |r|
      ensures r[k] == l[k].(ty := LeftAs(g, states, fws, i, l[k].sp, l[k].ty, l[k].x))
    {
      var lo, hi := FateOf(g, l, r, k);
      RunLeaves(g, states, fws, i, l, lo, hi, k);
    }
    OutcomesFrom(g, states, fws, i, l, r);
  }

  lemma OutcomesFrom(g: Grammar, states: seq<State>, fws: map<Node, set<nat>>, i: nat, l: seq<Action>, r: seq<Action>)
    requires i < |states| && Listed(g, states, fws, i, l) && |r| == |l|
    requires forall k ::
      0 <= k < |r| ==> r[k] == l[k].(ty := LeftAs(g, states, fws, i, l[k].sp, l[k].ty, l[k].x))
    ensures Outcomes(g, states, fws, i, r)
  {
    forall s, t, x | Candidate(g, states, fws, i, s, t, x)
      ensures HasKey(r, s, LeftAs(g, states, fws, i, s, t, x), x)
    {
      var k := PlaceOf(g, states, fws, i, l, s, t, x);
      assert r[k] in r;
    }
    forall a | a in r ensures LeftOver(g, states, fws, i, a) {
      var k :| 0 <= k < |r| && r[k] == a;
      ListedAt(g, states, fws, i, l, k);
    }
    forall j, k | 0 <= j < k < |r| ensures r[j].(id := 0) != r[k].(id := 0) {
      ListedAt(g, states, fws, i, l, j);
      ListedAt(g, states, fws, i, l, k);
      ListedTwice(g, states, fws, i, l, j, k);
    }
  }

  lemma DecidedErrors(g: Grammar, states: seq<State>, fws: map<Node, set<nat>>, i: nat, l: seq<Action>, r: seq<Action>)
    requires i < |states| && Listed(g, states, fws, i, l)
    requires Decided(g, l, r)
    ensures ErrorsFromTies(g, states, fws, i, r)
  {
    forall s: nat ensures ErrorOn(r, s) <==> TieFought(g, states, fws, i, s) {
      if ErrorOn(r, s) {
        var a :| a in r && a.ty == ERROR && a.sp == s;
        var k :| 0 <= k < |r| && r[k] == a;
        var lo, hi := FateOf(g, l, r, k);
        RunResolved(g, states, fws, i, l, lo, hi);
        RunTies(g, states, fws, i, l, lo, hi);
        ErrorFates(g, l, lo, hi);
        assert SomeError(g, l, lo, hi);
      }
      if TieFought(g, states, fws, i, s) { TieLeavesError(g, states, fws, i, l, r, s); }
    }
  }

  lemma TieLeavesError(g: Grammar, states: seq<State>, fws: map<Node, set<nat>>, i: nat, l: seq<Action>,
          r: seq<Action>, s: nat)
    requires i < |states| && Listed(g, states, fws, i, l)
    requires Decided(g, l, r) && TieFought(g, states, fws, i, s)
    ensures ErrorOn(r, s)
  {
    var y: nat :| TieAt(g, states, fws, i, s, y);
    var j := PlaceOf(g, states, fws, i, l, s, REDUCE, y);
    var lo, hi := FateOf(g, l, r, j);
    RunResolved(g, states, fws, i, l, lo, hi);
    RunTies(g, states, fws, i, l, lo, hi);
    ErrorFates(g, l, lo, hi);
    var k :| lo <= k < hi && Fate(g, l, lo, hi, k) == ERROR;
    RunFate(g, l, r, lo, hi, k);
    assert r[k] in r && r[k].ty == ERROR && r[k].sp == s;
  }

  /** The run of an action is unique. */
  lemma RunFate(g: Grammar, l: seq<Action>, r: seq<Action>, lo: nat, hi: nat, k: nat)
    requires Decided(g, l, r) && IsRun(l, lo, hi) && lo <= k < hi
    ensures r[k] == l[k].(ty := Fate(g, l, lo, hi, k))
  {
    var lo', hi' := FateOf(g, l, r, k);
    assert l[lo].sp == l[k].sp == l[lo'].sp;
    SameRun(l, lo, hi, lo', hi');
  }

  lemma ShiftSymbol(g: Grammar, states: seq<State>, i: nat, x: nat)
    requires g.Valid() && g.StartIsolated() && IsAutomaton(g, states) && i < |states| && x in states[i].shifts
    ensures x < g.nsymbol && x != g.start && states[i].shifts[x] < |states|
  {
    assert ShiftsSound(g, states, i);
    var c :| c in states[i].cfp && AtDot(g, c, x);
  }

  lemma DecidedEach(g: Grammar, l: seq<Action>, r: seq<Action>, a: Action) returns (b: Action)
    requires Decided(g, l, r) && a in r
    ensures b in l && (a == b || Lost(b, a))
  {
    var k :| 0 <= k < |r| && r[k] == a;
    b := l[k];
  }

  lemma DecidedLive(g: Grammar, l: seq<Action>, r: seq<Action>, s: nat, t: ActionType, y: nat)
    requires Decided(g, l, r) && HasKey(l, s, t, y)
    ensures LiveOn(r, s)
  {
    var a :| a in l && a.sp == s && a.ty == t && a.x == y;
    var k :| 0 <= k < |l| && l[k] == a;
    assert HasLive(r, |l|, l[k].sp);
    var w :| 0 <= w < |r| && IsLive(r[w]) && r[w].sp == s;
    assert r[w] in r;
  }

  lemma DecidedUnique(g: Grammar, l: seq<Action>, r: seq<Action>, a: Action, b: Action)
    requires Decided(g, l, r) && a in r && b in r && IsLive(a) && IsLive(b) && a.sp == b.sp
    ensures a == b
  {
    var j :| 0 <= j < |r| && r[j] == a;
    var k :| 0 <= k < |r| && r[k] == b;
  }

  lemma DecidedCandidates(g: Grammar, states: seq<State>, fws: map<Node, set<nat>>, i: nat, l: seq<Action>,
          r: seq<Action>)
    requires i < |states| && Decided(g, l, r)
    requires forall a :: a in l ==> IsLive(a) && a.sp < g.nsymbol && Candidate(g, states, fws, i, a.sp, a.ty, a.x)
    ensures OnlyCandidates(g, states, fws, i, r)
  {
    forall a | a in r ensures a.sp < g.nsymbol && (IsLive(a) || IsLoser(a))
      && (IsLive(a) ==> Candidate(g, states, fws, i, a.sp, a.ty, a.x))
    {
      var b := DecidedEach(g, l, r, a);
    }
  }

  lemma DecidedSingle(g: Grammar, l: seq<Action>, r: seq<Action>, a: Action, b: Action)
    requires Decided(g, l, r) && forall j, k :: 0 <= j < k < |l| ==> l[j].id != l[k].id
    requires forall a, b :: a in l && b in l && a.sp == b.sp && a.sp >= g.nterminal ==> a == b
    requires a in r && b in r && a.sp == b.sp && a.sp >= g.nterminal
    ensures a == b
  {
    var j :| 0 <= j < |r| && r[j] == a;
    var k :| 0 <= k < |r| && r[k] == b;
    DecidedAt(g, l, r, j);
    DecidedAt(g, l, r, k);
    SameAction(g, l, j, k);
  }

  lemma DecidedAt(g: Grammar, l: seq<Action>, r: seq<Action>, k: nat)
    requires Decided(g, l, r) && k < |r|
    ensures |r| == |l| && r[k].sp == l[k].sp
  {
    assert r[k] == l[k] || Lost(l[k], r[k]);
  }

  lemma SameAction(g: Grammar, l: seq<Action>, j: nat, k: nat)
    requires forall j, k :: 0 <= j < k < |l| ==> l[j].id != l[k].id
    requires forall a, b :: a in l && b in l && a.sp == b.sp && a.sp >= g.nterminal ==> a == b
    requires j < |l| && k < |l| && l[j].sp == l[k].sp >= g.nterminal
    ensures j == k
  {
    assert l[j] in l && l[k] in l;
  }

  lemma DecidedOneEach(g: Grammar, l: seq<Action>, r: seq<Action>)
    requires Decided(g, l, r) && forall j, k :: 0 <= j < k < |l| ==> l[j].id != l[k].id
    requires forall a, b :: a in l && b in l && a.sp == b.sp && a.sp >= g.nterminal ==> a == b
    ensures OneEach(g, r)
  {
    forall a, b | a in r && b in r && a.sp == b.sp && a.sp >= g.nterminal ensures a == b {
      DecidedSingle(g, l, r, a, b);
    }
    forall a, b | a in r && b in r && IsLive(a) && IsLive(b) && a.sp == b.sp ensures a == b {
      DecidedUnique(g, l, r, a, b);
    }
    DecidedIds(g, l, r);
  }

  lemma DecidedIds(g: Grammar, l: seq<Action>, r: seq<Action>)
    requires Decided(g, l, r) && forall j, k :: 0 <= j < k < |l| ==> l[j].id != l[k].id
    ensures forall j, k :: 0 <= j < k < |r| ==> r[j].id != r[k].id
  {
    assert forall k :: 0 <= k < |r| ==> r[k].id == l[k].id;
  }

  lemma DecidedSorted(g: Grammar, l: seq<Action>, r: seq<Action>)
    requires Decided(g, l, r) && Sorted(Actioncmp, l)
    ensures SpSorted(r)
  {
    SpSortedList(l);
    forall j, k | 0 <= j < k < |r| ensures r[j].sp <= r[k].sp {
      DecidedAt(g, l, r, j);
      DecidedAt(g, l, r, k);
    }
  }

  /** From positions to membership: what Decided says about the resolved list. */
  lemma DecidedResolution(g: Grammar, states: seq<State>, fws: map<Node, set<nat>>, i: nat, l: seq<Action>,
          r: seq<Action>)
    requires i < |states| && Listed(g, states, fws, i, l)
    requires Decided(g, l, r) && !Overrun(g, states, fws, i)
    requires Sorted(Actioncmp, l) && Resolvable(l) && forall s, t, y ::
      Candidate(g, states, fws, i, s, t, y) ==> HasKey(l, s, t, y)
    requires forall a :: a in l ==> a.sp < g.nsymbol && Candidate(g, states, fws, i, a.sp, a.ty, a.x)
    requires forall a, b :: a in l && b in l && a.sp == b.sp && a.sp >= g.nterminal ==> a == b
    ensures Resolution(g, states, fws, i, r)
  {
    DecidedCandidates(g, states, fws, i, l, r);
    DecidedOneEach(g, l, r);
    DecidedWinners(g, states, fws, i, l, r);
    DecidedErrors(g, states, fws, i, l, r);
    DecidedSorted(g, l, r);
    forall s, t, y | Candidate(g, states, fws, i, s, t, y) ensures LiveOn(r, s) {
      DecidedLive(g, l, r, s, t, y);
    }
  }

  /** Enough room for every sort. */
  ghost predicate SmallEnough(g: Grammar) {
    g.nsymbol + |AllConfigs(g)| * g.nterminal + 1 < Pow2(LISTSIZE)
  }

  lemma ListFits(g: Grammar, cfp: seq<Config>, n: nat)
    requires g.Valid() && SmallEnough(g) && Distinct(cfp) && (forall c :: c in cfp ==> InGrammar(g, c))
    requires n <= g.nsymbol + |cfp| * g.nterminal + 1
    ensures n < Pow2(LISTSIZE)
  {
    forall c | c in cfp ensures c in AllConfigs(g) {
      assert InGrammar(g, c);
    }
    DistinctSize(cfp, AllConfigs(g));
    MulMono(|cfp|, |AllConfigs(g)|, g.nterminal);
  }

  lemma MulMono(a: nat, b: nat, c: nat)
    requires a <= b
    ensures a * c <= b * c
  {
  }

  /** Sort the actions of one state and resolve its conflicts. */
  method ResolveState(g: Grammar, states: seq<State>, fws: map<Node, set<nat>>, i: nat)
    returns (ok: bool, r: seq<Action>, nconflict: nat)
    requires g.Valid() && g.StartIsolated() && SmallEnough(g) && IsAutomaton(g, states) && i < |states|
    requires Distinct(states[i].cfp)
    requires forall c :: c in states[i].cfp ==> Node(i, c) in fws && InGrammar(g, c)
    ensures ok <==> !Overrun(g, states, fws, i)
    ensures ok ==> Resolution(g, states, fws, i, r) && |r| < Pow2(LISTSIZE)
    ensures ok ==> Outcomes(g, states, fws, i, r) && nconflict == Conflicts(r)
  {
    forall x | x in states[i].shifts ensures x < g.nsymbol { ShiftSymbol(g, states, i, x); }
    var l, next := BuildList(g, states, fws, i);
    ListResolvable(g, states, fws, i, l, next);
    ActioncmpOrder();
    ListFits(g, states[i].cfp, |l|);
    var sorted := Msort(Actioncmp, l);
    assert g.start !in states[i].shifts by { if g.start in states[i].shifts { ShiftSymbol(g, states, i, g.start); } }
    NowListed(g, states, fws, i, l, next, sorted);
    assert |sorted| == |multiset(sorted)| == |multiset(l)| == |l|;
    ListStops(g, states, fws, i, sorted);
    ok, r, nconflict := ResolveSorted(g, sorted);
    if ok {
      DecidedResolution(g, states, fws, i, sorted, r);
      DecidedOutcomes(g, states, fws, i, sorted, r);
    }
  }

  lemma NowListed(g: Grammar, states: seq<State>, fws: map<Node, set<nat>>, i: nat, l: seq<Action>, next: nat,
          sorted: seq<Action>)
    requires i < |states| && g.start !in states[i].shifts && Resolvable(l) && ListOk(l, next)
    requires Sorted(Actioncmp, sorted) && multiset(l) == multiset(sorted)
    requires forall s, t, y :: HasKey(l, s, t, y) <==> Candidate(g, states, fws, i, s, t, y)
    ensures Listed(g, states, fws, i, sorted) && Resolvable(sorted) && forall a :: a in l <==> a in sorted
    ensures forall s, t, y :: Candidate(g, states, fws, i, s, t, y) ==> HasKey(sorted, s, t, y)
  {
    PermutedList(l, sorted);
    forall s, t, y ensures HasKey(l, s, t, y) <==> HasKey(sorted, s, t, y) {
      if HasKey(l, s, t, y) {
        var a :| a in l && a.sp == s && a.ty == t && a.x == y;
        assert a in sorted;
      }
      if HasKey(sorted, s, t, y) {
        var a :| a in sorted && a.sp == s && a.ty == t && a.x == y;
        assert a in l;
      }
    }
  }

  lemma PermutedList(l: seq<Action>, s: seq<Action>)
    requires Resolvable(l) && multiset(l) == multiset(s)
    ensures Resolvable(s) && forall a :: a in l <==> a in s
  {
    assert Distinct(l);
    DistinctPermuted(l, s);
    forall i, j | 0 <= i < j < |s| ensures s[i].id != s[j].id {
      assert s[i] in l && s[j] in l;
      var m :| 0 <= m < |l| && l[m] == s[i];
      var n :| 0 <= n < |l| && l[n] == s[j];
    }
  }

  lemma StateReady(g: Grammar, states: seq<State>, fws: map<Node, set<nat>>, i: nat)
    requires g.Valid() && IsAutomaton(g, states) && FollowClosed(g, states, fws) && i < |states|
    ensures forall c :: c in states[i].cfp ==> Node(i, c) in fws && InGrammar(g, c)
  {
    assert IsClosure(g, states[i].basis, states[i].cfp);
  }

  /** FindActions over all states: it fails an assertion if and only if it does in some state. */
  method FindActions(g: Grammar, states: seq<State>, fws: map<Node, set<nat>>)
    returns (ok: bool, aps: seq<seq<Action>>, nconflict: nat)
    requires g.Valid() && g.StartIsolated() && SmallEnough(g) && IsAutomaton(g, states) && FollowClosed(g, states, fws)
    requires forall i :: 0 <= i < |states| ==> Distinct(states[i].cfp)
    ensures ok <==> forall i :: 0 <= i < |states| ==> !Overrun(g, states, fws, i)
    ensures ok ==> |aps| == |states| && forall i ::
      0 <= i < |states| ==> Resolution(g, states, fws, i, aps[i]) && |aps[i]| < Pow2(LISTSIZE)
    ensures ok ==> nconflict == TotalConflicts(aps) && forall i ::
      0 <= i < |states| ==> Outcomes(g, states, fws, i, aps[i])
  {
    ok, aps, nconflict := true, [], 0;
    for i := 0 to |states|
      invariant |aps| == i && forall j :: 0 <= j < i ==> ListDone(g, states, fws, j, aps[j])
      invariant nconflict == TotalConflicts(aps)
    {
      StateReady(g, states, fws, i);
      var r, n;
      ok, r, n := ResolveState(g, states, fws, i);
      if !ok { return; }
      NowDone(g, states, fws, i, r);
      TotalMore(aps, r);
      aps, nconflict := aps + [r], nconflict + n;
    }
    ListsDone(g, states, fws, aps);
  }

  /** The conflicts in all lists. */
  function TotalConflicts(aps: seq<seq<Action>>): nat {
    if aps == [] then 0 else TotalConflicts(aps[..|aps| - 1]) + Conflicts(aps[|aps| - 1])
  }

  lemma TotalMore(aps: seq<seq<Action>>, r: seq<Action>)
    ensures TotalConflicts(aps + [r]) == TotalConflicts(aps) + Conflicts(r)
  {
    assert (aps + [r])[..|aps|] == aps;
  }

  /** The list of state i is resolved, sealed. */
  ghost predicate ListDone(g: Grammar, states: seq<State>, fws: map<Node, set<nat>>, i: nat, l: seq<Action>)
    requires i < |states|
  {
    forall q {:trigger Open(q)} :: Open(q) && q == l ==>
      Resolution(g, states, fws, i, q) && |q| < Pow2(LISTSIZE) && !Overrun(g, states, fws, i)
      && Outcomes(g, states, fws, i, q)
  }

  lemma NowDone(g: Grammar, states: seq<State>, fws: map<Node, set<nat>>, i: nat, r: seq<Action>)
    requires i < |states| && Resolution(g, states, fws, i, r) && |r| < Pow2(LISTSIZE) && !Overrun(g, states, fws, i)
    requires Outcomes(g, states, fws, i, r)
    ensures ListDone(g, states, fws, i, r)
  {
  }

  lemma ListsDone(g: Grammar, states: seq<State>, fws: map<Node, set<nat>>, aps: seq<seq<Action>>)
    requires |aps| == |states| && forall j :: 0 <= j < |aps| ==> ListDone(g, states, fws, j, aps[j])
    ensures forall i ::
      0 <= i < |states| ==>
        Resolution(g, states, fws, i, aps[i]) && |aps[i]| < Pow2(LISTSIZE) && !Overrun(g, states, fws, i)
        && Outcomes(g, states, fws, i, aps[i])
  {
    forall i | 0 <= i < |states|
      ensures Resolution(g, states, fws, i, aps[i]) && |aps[i]| < Pow2(LISTSIZE) && !Overrun(g, states, fws, i)
        && Outcomes(g, states, fws, i, aps[i])
    {
      assert Open(aps[i]);
    }
  }
}
