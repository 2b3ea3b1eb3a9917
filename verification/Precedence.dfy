/** What the fights of resolve_conflict come to: who is left on a symbol, in terms of the precedences alone, and
    which conflicts are counted. */
module Precedence {
  import opened Grammars
  import opened Automata
  import opened Lalr
  import opened StateTables
  import opened Actions
  import opened ActionLists
  import opened Options
  import opened ConfigLists

  // ---- the winner ----

  /** A candidate on s: the shift, or a reduction by a rule below n. */
  ghost predicate Entrant(g: Grammar, states: seq<State>, fws: map<Node, set<nat>>, i: nat, s: nat, n: nat, a: Action)
    requires i < |states|
  {
    a.id == 0 && a.sp == s && Candidate(g, states, fws, i, s, a.ty, a.x) && (a.ty == REDUCE ==> a.x < n)
  }

  /** In the list, a comes before b: the shift before the reductions, and these in the order of the rules. */
  predicate Precedes(a: Action, b: Action) {
    b.ty == REDUCE && (a.ty == REDUCE ==> a.x < b.x)
  }

  /** The precedence of a is higher than that of b; or they are equal, and either a reduction stands against a shift
      that is not right-associative, or a shift that is against a reduction, or a reduction against a later one. */
  predicate Outranks(g: Grammar, a: Action, b: Action) {
    || Strength(g, a) > Strength(g, b)
    || (Strength(g, a) == Strength(g, b)
        && (if a.ty == SHIFT then AssocOf(g, a.sp) == RIGHT
            else if b.ty == SHIFT then AssocOf(g, a.sp) != RIGHT
            else a.x < b.x))
  }

  /** No other entrant comes before a. */
  ghost predicate First(g: Grammar, states: seq<State>, fws: map<Node, set<nat>>, i: nat, s: nat, n: nat, a: Action)
    requires i < |states|
  {
    Entrant(g, states, fws, i, s, n, a)
    && forall b :: Entrant(g, states, fws, i, s, n, b) && b != a ==> Precedes(a, b)
  }

  /** Whose place nobody takes: the first entrant if it has no precedence; otherwise the one that outranks all others
      that have a precedence. */
  ghost predicate Best(g: Grammar, states: seq<State>, fws: map<Node, set<nat>>, i: nat, s: nat, n: nat, w: Action)
    requires i < |states|
  {
    && Entrant(g, states, fws, i, s, n, w)
    && if Strength(g, w) < 0 then First(g, states, fws, i, s, n, w)
       else
         && (forall a :: Entrant(g, states, fws, i, s, n, a) && a != w && Strength(g, a) >= 0 ==> Outranks(g, w, a))
         && (forall a :: First(g, states, fws, i, s, n, a) ==> Strength(g, a) >= 0)
  }

  ghost predicate NoEntrant(g: Grammar, states: seq<State>, fws: map<Node, set<nat>>, i: nat, s: nat, n: nat)
    requires i < |states|
  {
    forall a :: !Entrant(g, states, fws, i, s, n, a)
  }

  /** One more rule. */
  lemma EntrantMore(g: Grammar, states: seq<State>, fws: map<Node, set<nat>>, i: nat, s: nat, n: nat, a: Action)
    requires i < |states| && n > 0
    ensures Entrant(g, states, fws, i, s, n, a) <==>
      || Entrant(g, states, fws, i, s, n - 1, a)
      || (a == Action(0, s, REDUCE, n - 1) && Candidate(g, states, fws, i, s, REDUCE, n - 1))
  {
  }

  lemma EntrantKind(g: Grammar, states: seq<State>, fws: map<Node, set<nat>>, i: nat, s: nat, n: nat, a: Action)
    requires i < |states| && s != g.start && Entrant(g, states, fws, i, s, n, a)
    ensures a.ty == SHIFT || a.ty == REDUCE
    ensures a.ty == SHIFT ==> s in states[i].shifts && a == Action(0, s, SHIFT, states[i].shifts[s])
  {
  }

  /** On every symbol but the start symbol, where only acceptance can be, the winner is the best of the entrants. */
  lemma {:induction false} WinnerBest(g: Grammar, states: seq<State>, fws: map<Node, set<nat>>, i: nat, s: nat, n: nat)
    requires i < |states| && s != g.start
    ensures var w := Winner(g, states, fws, i, s, n);
      if w.None? then NoEntrant(g, states, fws, i, s, n) else Best(g, states, fws, i, s, n, w.value)
    decreases n
  {
    if n == 0 {
      NobodyElse(g, states, fws, i, s);
    } else {
      WinnerBest(g, states, fws, i, s, n - 1);
      var w, b := Winner(g, states, fws, i, s, n - 1), Action(0, s, REDUCE, n - 1);
      forall a ensures Entrant(g, states, fws, i, s, n, a) <==>
        Entrant(g, states, fws, i, s, n - 1, a) || (a == b && Candidate(g, states, fws, i, s, REDUCE, n - 1))
      {
        EntrantMore(g, states, fws, i, s, n, a);
      }
      if Candidate(g, states, fws, i, s, REDUCE, n - 1) {
        if w.None? {
          OnlyOne(g, states, fws, i, s, n, b);
        } else if TakesOver(g, w.value, b) {
          NewBest(g, states, fws, i, s, n, w.value, b);
        } else {
          StillBest(g, states, fws, i, s, n, w.value, b);
        }
      } else if w.Some? {
        SameBest(g, states, fws, i, s, n, w.value);
      }
    }
  }

  lemma NobodyElse(g: Grammar, states: seq<State>, fws: map<Node, set<nat>>, i: nat, s: nat)
    requires i < |states| && s != g.start
    ensures var w := Winner(g, states, fws, i, s, 0);
      if w.None? then NoEntrant(g, states, fws, i, s, 0) else Best(g, states, fws, i, s, 0, w.value)
  {
    var w := Winner(g, states, fws, i, s, 0);
    forall a | Entrant(g, states, fws, i, s, 0, a) ensures w == Some(a) {
      EntrantKind(g, states, fws, i, s, 0, a);
    }
    if w.Some? { assert Entrant(g, states, fws, i, s, 0, w.value); }
  }

  lemma OnlyOne(g: Grammar, states: seq<State>, fws: map<Node, set<nat>>, i: nat, s: nat, n: nat, b: Action)
    requires i < |states| && forall a :: Entrant(g, states, fws, i, s, n, a) <==> a == b
    ensures Best(g, states, fws, i, s, n, b)
  {
  }

  lemma SameBest(g: Grammar, states: seq<State>, fws: map<Node, set<nat>>, i: nat, s: nat, n: nat, w: Action)
    requires i < |states| && n > 0 && Best(g, states, fws, i, s, n - 1, w)
    requires forall a :: Entrant(g, states, fws, i, s, n, a) <==> Entrant(g, states, fws, i, s, n - 1, a)
    ensures Best(g, states, fws, i, s, n, w)
  {
    forall a ensures First(g, states, fws, i, s, n, a) <==> First(g, states, fws, i, s, n - 1, a) {
    }
  }

  /** A later entrant is not the first. */
  lemma FirstStays(g: Grammar, states: seq<State>, fws: map<Node, set<nat>>, i: nat, s: nat, n: nat, w: Action,
          b: Action, a: Action)
    requires i < |states| && n > 0 && s != g.start && b == Action(0, s, REDUCE, n - 1)
    requires Entrant(g, states, fws, i, s, n - 1, w)
    requires forall a ::
      Entrant(g, states, fws, i, s, n, a) <==> Entrant(g, states, fws, i, s, n - 1, a) || a == b
    ensures First(g, states, fws, i, s, n, a) <==> First(g, states, fws, i, s, n - 1, a)
  {
    assert Entrant(g, states, fws, i, s, n, w) && w != b && !Precedes(b, w);
    if First(g, states, fws, i, s, n - 1, a) {
      EntrantKind(g, states, fws, i, s, n - 1, a);
      assert Precedes(a, b);
    }
  }

  lemma StillBest(g: Grammar, states: seq<State>, fws: map<Node, set<nat>>, i: nat, s: nat, n: nat, w: Action,
          b: Action)
    requires i < |states| && n > 0 && s != g.start && Best(g, states, fws, i, s, n - 1, w)
    requires b == Action(0, s, REDUCE, n - 1) && !TakesOver(g, w, b)
    requires forall a ::
      Entrant(g, states, fws, i, s, n, a) <==> Entrant(g, states, fws, i, s, n - 1, a) || a == b
    ensures Best(g, states, fws, i, s, n, w)
  {
    EntrantKind(g, states, fws, i, s, n - 1, w);
    forall a ensures First(g, states, fws, i, s, n, a) <==> First(g, states, fws, i, s, n - 1, a) {
      FirstStays(g, states, fws, i, s, n, w, b, a);
    }
  }

  lemma NewBest(g: Grammar, states: seq<State>, fws: map<Node, set<nat>>, i: nat, s: nat, n: nat, w: Action,
          b: Action)
    requires i < |states| && n > 0 && s != g.start && Best(g, states, fws, i, s, n - 1, w)
    requires b == Action(0, s, REDUCE, n - 1) && TakesOver(g, w, b)
    requires forall a ::
      Entrant(g, states, fws, i, s, n, a) <==> Entrant(g, states, fws, i, s, n - 1, a) || a == b
    ensures Best(g, states, fws, i, s, n, b)
  {
    EntrantKind(g, states, fws, i, s, n - 1, w);
    forall a ensures First(g, states, fws, i, s, n, a) <==> First(g, states, fws, i, s, n - 1, a) {
      FirstStays(g, states, fws, i, s, n, w, b, a);
    }
    forall a | Entrant(g, states, fws, i, s, n, a) && a != b && Strength(g, a) >= 0 ensures Outranks(g, b, a) {
      EntrantKind(g, states, fws, i, s, n - 1, a);
    }
  }

  /** There is only one best entrant. */
  lemma BestUnique(g: Grammar, states: seq<State>, fws: map<Node, set<nat>>, i: nat, s: nat, n: nat, v: Action,
          w: Action)
    requires i < |states| && s != g.start && Best(g, states, fws, i, s, n, v) && Best(g, states, fws, i, s, n, w)
    ensures v == w
  {
    EntrantKind(g, states, fws, i, s, n, v);
    EntrantKind(g, states, fws, i, s, n, w);
  }

  /** The live action on a symbol is the best of all candidates. */
  lemma LiveIsBest(g: Grammar, states: seq<State>, fws: map<Node, set<nat>>, i: nat, r: seq<Action>, s: nat,
          t: ActionType, x: nat)
    requires i < |states| && Resolution(g, states, fws, i, r) && s != g.start && (t == SHIFT || t == REDUCE)
    ensures HasKey(r, s, t, x) <==> Best(g, states, fws, i, s, |g.rules|, Action(0, s, t, x))
  {
    WinnerBest(g, states, fws, i, s, |g.rules|);
    if HasKey(r, s, t, x) {
      var a :| a in r && a.sp == s && a.ty == t && a.x == x;
    }
    if Best(g, states, fws, i, s, |g.rules|, Action(0, s, t, x)) {
      assert Candidate(g, states, fws, i, s, t, x);
      var a :| a in r && IsLive(a) && a.sp == s;
      BestUnique(g, states, fws, i, s, |g.rules|, Action(0, s, t, x), a.(id := 0));
    }
  }

  // ---- two candidates ----

  /** The precedence of a rule, negative if there is none. */
  function RulePrec(g: Grammar, y: nat): int {
    if RulePrecsym(g, y) < 0 then -1 else Prec(g, RulePrecsym(g, y))
  }

  lemma {:induction false} ShiftStays(g: Grammar, states: seq<State>, fws: map<Node, set<nat>>, i: nat, s: nat,
          x: nat, y: nat, n: nat)
    requires i < |states| && Candidate(g, states, fws, i, s, SHIFT, x)
    requires forall z: nat :: Candidate(g, states, fws, i, s, REDUCE, z) <==> z == y
    ensures var a, b := Action(0, s, SHIFT, x), Action(0, s, REDUCE, y);
      Winner(g, states, fws, i, s, n) == Some(if n > y && TakesOver(g, a, b) then b else a)
    decreases n
  {
    if n > 0 { ShiftStays(g, states, fws, i, s, x, y, n - 1); }
  }

  /** A shift against one reduction: without a precedence on both sides the shift is left, and the conflict is
      reported; otherwise the higher precedence decides, and among equals the associativity. */
  lemma ShiftOrReduce(g: Grammar, states: seq<State>, fws: map<Node, set<nat>>, i: nat, r: seq<Action>, s: nat,
          x: nat, y: nat)
    requires i < |states| && Outcomes(g, states, fws, i, r) && Candidate(g, states, fws, i, s, SHIFT, x)
    requires forall z: nat :: Candidate(g, states, fws, i, s, REDUCE, z) <==> z == y
    ensures var p, q, assoc := Prec(g, s), RulePrec(g, y), AssocOf(g, s);
      && (p < 0 || q < 0 ==> HasKey(r, s, SHIFT, x) && HasKey(r, s, SRCONFLICT, y))
      && (p >= 0 && q >= 0 && (p > q || (p == q && assoc == RIGHT)) ==>
            HasKey(r, s, SHIFT, x) && HasKey(r, s, RD_RESOLVED, y))
      && (p >= 0 && q >= 0 && (p < q || (p == q && assoc == LEFT)) ==>
            HasKey(r, s, SH_RESOLVED, x) && HasKey(r, s, REDUCE, y))
      && (p >= 0 && p == q && assoc != LEFT && assoc != RIGHT ==>
            HasKey(r, s, ERROR, x) && HasKey(r, s, REDUCE, y))
  {
    var a, b := Action(0, s, SHIFT, x), Action(0, s, REDUCE, y);
    ShiftStays(g, states, fws, i, s, x, y, y);
    ShiftStays(g, states, fws, i, s, x, y, |g.rules|);
    assert Candidate(g, states, fws, i, s, REDUCE, y);
    TieOnly(g, states, fws, i, s, x, y);
    assert HasKey(r, s, LeftAs(g, states, fws, i, s, SHIFT, x), x);
    assert HasKey(r, s, LeftAs(g, states, fws, i, s, REDUCE, y), y);
  }

  lemma TieOnly(g: Grammar, states: seq<State>, fws: map<Node, set<nat>>, i: nat, s: nat, x: nat, y: nat)
    requires i < |states| && Candidate(g, states, fws, i, s, SHIFT, x)
    requires forall z: nat :: Candidate(g, states, fws, i, s, REDUCE, z) <==> z == y
    ensures TieFought(g, states, fws, i, s) <==> Tie(g, Action(0, s, SHIFT, x), Action(0, s, REDUCE, y))
  {
    ShiftStays(g, states, fws, i, s, x, y, y);
    assert TieAt(g, states, fws, i, s, y) <==> Tie(g, Action(0, s, SHIFT, x), Action(0, s, REDUCE, y));
    if TieFought(g, states, fws, i, s) {
      var z: nat :| TieAt(g, states, fws, i, s, z);
      assert z == y;
    }
  }

  lemma {:induction false} RuleStays(g: Grammar, states: seq<State>, fws: map<Node, set<nat>>, i: nat, s: nat,
          y: nat, z: nat, n: nat)
    requires i < |states| && s !in states[i].shifts && s != g.start && y < z
    requires forall q: nat :: Candidate(g, states, fws, i, s, REDUCE, q) <==> q == y || q == z
    ensures var a, b := Action(0, s, REDUCE, y), Action(0, s, REDUCE, z);
      Winner(g, states, fws, i, s, n) ==
        if n <= y then None else Some(if n > z && TakesOver(g, a, b) then b else a)
    decreases n
  {
    if n > 0 { RuleStays(g, states, fws, i, s, y, z, n - 1); }
  }

  /** Two reductions: the later one is left if both have a precedence and its own is higher; otherwise the earlier one
      is left, and the conflict is reported unless the earlier one has the higher precedence. */
  lemma ReduceOrReduce(g: Grammar, states: seq<State>, fws: map<Node, set<nat>>, i: nat, r: seq<Action>, s: nat,
          y: nat, z: nat)
    requires i < |states| && Outcomes(g, states, fws, i, r) && s !in states[i].shifts && s != g.start && y < z
    requires forall q: nat :: Candidate(g, states, fws, i, s, REDUCE, q) <==> q == y || q == z
    ensures var p, q := RulePrec(g, y), RulePrec(g, z);
      && (p >= 0 && q > p ==> HasKey(r, s, RD_RESOLVED, y) && HasKey(r, s, REDUCE, z))
      && (q >= 0 && p > q ==> HasKey(r, s, REDUCE, y) && HasKey(r, s, RD_RESOLVED, z))
      && (p < 0 || q < 0 || p == q ==> HasKey(r, s, REDUCE, y) && HasKey(r, s, RRCONFLICT, z))
  {
    RuleStays(g, states, fws, i, s, y, z, y);
    RuleStays(g, states, fws, i, s, y, z, z);
    RuleStays(g, states, fws, i, s, y, z, |g.rules|);
    assert Candidate(g, states, fws, i, s, REDUCE, y) && Candidate(g, states, fws, i, s, REDUCE, z);
    assert HasKey(r, s, LeftAs(g, states, fws, i, s, REDUCE, y), y);
    assert HasKey(r, s, LeftAs(g, states, fws, i, s, REDUCE, z), z);
  }

  // ---- the conflicts that are counted ----

  /** The symbols and rules of the reductions that lose without the precedences deciding it. */
  ghost function Undecided(g: Grammar, states: seq<State>, fws: map<Node, set<nat>>, i: nat): set<(nat, nat)>
    requires i < |states|
  {
    set s: nat, x: nat | s < g.nsymbol && x < |g.rules| && LosesUndecided(g, states, fws, i, s, x) :: (s, x)
  }

  /** The winner among the shift and the earlier rules keeps its place against rule x although one of the two has no
      precedence, or although both are reductions of equal precedence. */
  ghost predicate LosesUndecided(g: Grammar, states: seq<State>, fws: map<Node, set<nat>>, i: nat, s: nat, x: nat)
    requires i < |states|
  {
    var w, a := Winner(g, states, fws, i, s, x), Action(0, s, REDUCE, x);
    && Candidate(g, states, fws, i, s, REDUCE, x) && w.Some?
    && (Strength(g, w.value) < 0 || Strength(g, a) < 0
        || (w.value.ty == REDUCE && Strength(g, w.value) == Strength(g, a)))
  }

  lemma UndecidedType(g: Grammar, states: seq<State>, fws: map<Node, set<nat>>, i: nat, s: nat, t: ActionType, x: nat)
    requires i < |states| && Candidate(g, states, fws, i, s, t, x)
    ensures IsConflict(LeftAs(g, states, fws, i, s, t, x)) <==> t == REDUCE && LosesUndecided(g, states, fws, i, s, x)
  {
  }

  function Keys(l: seq<Action>): set<(nat, nat)> {
    set a | a in l && IsConflict(a.ty) :: (a.sp, a.x)
  }

  lemma {:induction false} KeysCounted(l: seq<Action>)
    requires forall j, k :: 0 <= j < k < |l| && IsConflict(l[j].ty) && IsConflict(l[k].ty) ==>
      (l[j].sp, l[j].x) != (l[k].sp, l[k].x)
    ensures |Keys(l)| == Conflicts(l)
  {
    if l == [] {
      assert Keys(l) == {};
    } else {
      var n := |l| - 1;
      var a := l[n];
      assert l == l[..n] + [a];
      KeysCounted(l[..n]);
      if IsConflict(a.ty) {
        assert (a.sp, a.x) !in Keys(l[..n]);
        assert Keys(l) == Keys(l[..n]) + {(a.sp, a.x)};
      } else {
        assert Keys(l) == Keys(l[..n]);
      }
    }
  }

  /** The number of conflicts that ResolveState adds to nconflict is the number of such reductions. */
  lemma ConflictsCounted(g: Grammar, states: seq<State>, fws: map<Node, set<nat>>, i: nat, r: seq<Action>)
    requires i < |states| && Resolution(g, states, fws, i, r) && Outcomes(g, states, fws, i, r)
    ensures Conflicts(r) == |Undecided(g, states, fws, i)|
  {
    forall j, k | 0 <= j < k < |r| && IsConflict(r[j].ty) && IsConflict(r[k].ty)
      ensures (r[j].sp, r[j].x) != (r[k].sp, r[k].x)
    {
      ConflictType(g, states, fws, i, r[j]);
      ConflictType(g, states, fws, i, r[k]);
    }
    KeysCounted(r);
    forall s: nat, x: nat ensures (s, x) in Keys(r) <==> (s, x) in Undecided(g, states, fws, i) {
      ConflictKey(g, states, fws, i, r, s, x);
    }
    assert Keys(r) == Undecided(g, states, fws, i);
  }

  lemma ConflictType(g: Grammar, states: seq<State>, fws: map<Node, set<nat>>, i: nat, a: Action)
    requires i < |states| && LeftOver(g, states, fws, i, a) && IsConflict(a.ty)
    ensures LosesUndecided(g, states, fws, i, a.sp, a.x) && a.x < |g.rules|
    ensures a.ty == LeftAs(g, states, fws, i, a.sp, REDUCE, a.x)
  {
    var t :| Candidate(g, states, fws, i, a.sp, t, a.x) && a.ty == LeftAs(g, states, fws, i, a.sp, t, a.x);
    UndecidedType(g, states, fws, i, a.sp, t, a.x);
  }

  lemma ConflictKey(g: Grammar, states: seq<State>, fws: map<Node, set<nat>>, i: nat, r: seq<Action>, s: nat, x: nat)
    requires i < |states| && Resolution(g, states, fws, i, r) && Outcomes(g, states, fws, i, r)
    ensures (s, x) in Keys(r) <==> (s, x) in Undecided(g, states, fws, i)
  {
    if (s, x) in Keys(r) {
      var a :| a in r && IsConflict(a.ty) && (a.sp, a.x) == (s, x);
      ConflictType(g, states, fws, i, a);
    }
    if (s, x) in Undecided(g, states, fws, i) {
      UndecidedType(g, states, fws, i, s, REDUCE, x);
      var t := LeftAs(g, states, fws, i, s, REDUCE, x);
      assert HasKey(r, s, t, x);
      var a :| a in r && a.sp == s && a.ty == t && a.x == x;
    }
  }
}
