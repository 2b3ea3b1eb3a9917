/** Parser actions: their order, the pairwise resolution of conflicts, and FindActions. */
module Actions {
  import opened Grammars
  import opened Automata
  import opened Lalr
  import opened MergeSort
  import opened ConfigLists
  import opened Seals

  datatype ActionType =
    | SHIFT | ACCEPT | REDUCE | ERROR | SSCONFLICT | SRCONFLICT | RRCONFLICT
    | SH_RESOLVED | RD_RESOLVED | NOT_USED | SHIFTREDUCE

  /** One action: its address, its lookahead symbol, its type, and the state (SHIFT) or rule. */
  datatype Action = Action(id: nat, sp: nat, ty: ActionType, x: nat)

  function Rank(ty: ActionType): nat {
    match ty
    case SHIFT => 0 case ACCEPT => 1 case REDUCE => 2 case ERROR => 3 case SSCONFLICT => 4
    case SRCONFLICT => 5 case RRCONFLICT => 6 case SH_RESOLVED => 7 case RD_RESOLVED => 8
    case NOT_USED => 9 case SHIFTREDUCE => 10
  }

  /** actioncmp: by lookahead, type, rule (for reductions), and finally by address, later first. */
  function Actioncmp(a: Action, b: Action): int {
    if a.sp != b.sp then a.sp - b.sp
    else if a.ty != b.ty then Rank(a.ty) - Rank(b.ty)
    else if (a.ty == REDUCE || a.ty == SHIFTREDUCE) && a.x != b.x then a.x - b.x
    else b.id - a.id
  }

  lemma ActioncmpOrder()
    ensures Total(Actioncmp) && Transitive(Actioncmp)
  {
  }

  predicate IsLive(a: Action) {
    a.ty == SHIFT || a.ty == ACCEPT || a.ty == REDUCE
  }

  // ---- resolving one conflict ----

  function Prec(g: Grammar, s: int): int {
    if 0 <= s < |g.prec| then g.prec[s] else -1
  }

  function RulePrecsym(g: Grammar, r: nat): int {
    if r < |g.rules| then g.rules[r].precsym else -1
  }

  function AssocOf(g: Grammar, s: nat): Assoc {
    if s < |g.assoc| then g.assoc[s] else UNK
  }

  /** A shift and a reduction of equal precedence that is neither left nor right associative. */
  predicate Tie(g: Grammar, a: Action, b: Action) {
    && a.ty == SHIFT && b.ty == REDUCE && RulePrecsym(g, b.x) >= 0
    && Prec(g, a.sp) >= 0 && Prec(g, a.sp) == Prec(g, RulePrecsym(g, b.x))
    && AssocOf(g, a.sp) != LEFT && AssocOf(g, a.sp) != RIGHT
  }

  /** resolve_conflict: the two actions with their new types, and the number of conflicts to report. */
  function Resolve(g: Grammar, a: Action, b: Action): (Action, Action, nat) {
    if a.ty == SHIFT && b.ty == SHIFT then
      (a, b.(ty := SSCONFLICT), 1)
    else if a.ty == SHIFT && b.ty == REDUCE then
      var spx, spy := a.sp, RulePrecsym(g, b.x);
      if spy < 0 || Prec(g, spx) < 0 || Prec(g, spy) < 0 then (a, b.(ty := SRCONFLICT), 1)
      else if Prec(g, spx) > Prec(g, spy) then (a, b.(ty := RD_RESOLVED), 0)
      else if Prec(g, spx) < Prec(g, spy) then (a.(ty := SH_RESOLVED), b, 0)
      else if AssocOf(g, spx) == RIGHT then (a, b.(ty := RD_RESOLVED), 0)
      else if AssocOf(g, spx) == LEFT then (a.(ty := SH_RESOLVED), b, 0)
      else (a.(ty := ERROR), b, 0)
    else if a.ty == REDUCE && b.ty == REDUCE then
      var spx, spy := RulePrecsym(g, a.x), RulePrecsym(g, b.x);
      if spx < 0 || spy < 0 || Prec(g, spx) < 0 || Prec(g, spy) < 0 || Prec(g, spx) == Prec(g, spy) then
        (a, b.(ty := RRCONFLICT), 1)
      else if Prec(g, spx) > Prec(g, spy) then (a, b.(ty := RD_RESOLVED), 0)
      else (a.(ty := RD_RESOLVED), b, 0)
    else (a, b, 0)
  }

  /** The assertions of resolve_conflict hold: a tie must be between nonassociative actions, and of two actions that
      are not both live one must have lost before, otherwise than in a tie. */
  predicate Asserted(g: Grammar, a: Action, b: Action) {
    if a.ty == SHIFT && b.ty == REDUCE then Tie(g, a, b) ==> AssocOf(g, a.sp) == NONE
    else if a.ty == SHIFT && b.ty == SHIFT then true
    else if a.ty == REDUCE && b.ty == REDUCE then true
    else LostFight(a.ty) || LostFight(b.ty)
  }

  predicate LostFight(ty: ActionType) {
    ty == SSCONFLICT || ty == SRCONFLICT || ty == RRCONFLICT || ty == SH_RESOLVED || ty == RD_RESOLVED
  }

  /** The later action b survives against the earlier action a. */
  predicate Beats(g: Grammar, a: Action, b: Action) {
    !IsLive(Resolve(g, a, b).0)
  }

  /** Two live actions that can be fought out: not a reduction before a shift, and no ACCEPT. */
  predicate Fightable(a: Action, b: Action) {
    (a.ty == SHIFT && b.ty == SHIFT) || (a.ty == SHIFT && b.ty == REDUCE) || (a.ty == REDUCE && b.ty == REDUCE)
  }

  /** One fight between two live actions leaves exactly one of them, unchanged; the loser becomes an ERROR
      exactly in a tie. */
  lemma ResolveOne(g: Grammar, a: Action, b: Action)
    requires Fightable(a, b)
    ensures var r := Resolve(g, a, b);
      && r.0.(ty := a.ty) == a && r.1.(ty := b.ty) == b
      && (Beats(g, a, b) ==> r.1 == b && IsLoser(r.0) && (r.0.ty == ERROR <==> Tie(g, a, b)))
      && (!Beats(g, a, b) ==> r.0 == a && IsLoser(r.1) && r.1.ty != ERROR)
      && (Tie(g, a, b) ==> Beats(g, a, b))
  {
  }

  // ---- the rule in terms of precedence ----

  /** The precedence an action fights with: that of the symbol shifted, or of the precedence symbol of the rule. A
      negative one is none. */
  function Strength(g: Grammar, a: Action): int {
    if a.ty == REDUCE then Prec(g, RulePrecsym(g, a.x)) else Prec(g, a.sp)
  }

  /** The reduction b takes the place of the shift or reduction a: both have a precedence, and that of b is higher; or
      they are equal, and a is a shift whose symbol is not right-associative. */
  predicate TakesOver(g: Grammar, a: Action, b: Action) {
    && Strength(g, a) >= 0 && Strength(g, b) >= 0
    && (Strength(g, b) > Strength(g, a)
        || (Strength(g, b) == Strength(g, a) && a.ty == SHIFT && AssocOf(g, a.sp) != RIGHT))
  }

  /** What the reduction b becomes when it does not: without a precedence on both sides, and between reductions of
      equal precedence, it is a conflict to report. */
  function LostAs(g: Grammar, a: Action, b: Action): ActionType {
    if Strength(g, a) < 0 || Strength(g, b) < 0 then (if a.ty == SHIFT then SRCONFLICT else RRCONFLICT)
    else if a.ty == REDUCE && Strength(g, a) == Strength(g, b) then RRCONFLICT
    else RD_RESOLVED
  }

  /** resolve_conflict decides between a shift or reduction and a later reduction as this rule says, and it counts
      exactly the conflicts to report. */
  lemma ResolveRule(g: Grammar, a: Action, b: Action)
    requires (a.ty == SHIFT || a.ty == REDUCE) && b.ty == REDUCE
    ensures var r := Resolve(g, a, b);
      && r.2 == (if !TakesOver(g, a, b) && LostAs(g, a, b) != RD_RESOLVED then 1 else 0)
      && if TakesOver(g, a, b) then
           && r.1 == b
           && r.0 == a.(ty := if a.ty == REDUCE then RD_RESOLVED
             else if Strength(g, a) == Strength(g, b) && AssocOf(g, a.sp) != LEFT then ERROR else SH_RESOLVED)
         else r.0 == a && r.1 == b.(ty := LostAs(g, a, b))
  {
  }

  /** Of two shifts the later one is a conflict. */
  lemma ResolveShifts(g: Grammar, a: Action, b: Action)
    requires a.ty == SHIFT && b.ty == SHIFT
    ensures Resolve(g, a, b) == (a, b.(ty := SSCONFLICT), 1)
  {
  }

  lemma ResolveDead(g: Grammar, a: Action, b: Action)
    requires !IsLive(a) || !IsLive(b)
    ensures Resolve(g, a, b) == (a, b, 0)
  {
  }

  // ---- one group of actions with the same lookahead ----

  /** The champion of l[lo..hi]: each action in turn fights the champion so far. */
  function Champ(g: Grammar, l: seq<Action>, lo: nat, hi: nat): nat
    requires lo < hi <= |l|
    ensures lo <= Champ(g, l, lo, hi) < hi
  {
    if hi == lo + 1 then lo
    else
      var c := Champ(g, l, lo, hi - 1);
      if Beats(g, l[c], l[hi - 1]) then hi - 1 else c
  }

  /** What becomes of action i in the fights of l[lo..hi]: the type it has afterwards. */
  function Fate(g: Grammar, l: seq<Action>, lo: nat, hi: nat, i: nat): ActionType
    requires lo <= i < hi <= |l|
  {
    if hi == lo + 1 then l[lo].ty
    else
      var c := Champ(g, l, lo, hi - 1);
      if i == hi - 1 then Resolve(g, l[c], l[i]).1.ty
      else if i == c then Resolve(g, l[i], l[hi - 1]).0.ty
      else Fate(g, l, lo, hi - 1, i)
  }

  /** The champion keeps its type, all others lose. */
  lemma {:induction false} Fates(g: Grammar, l: seq<Action>, lo: nat, hi: nat)
    requires IsGroup(g, l, lo, hi)
    ensures var c := Champ(g, l, lo, hi); Fate(g, l, lo, hi, c) == l[c].ty
    ensures forall i :: lo <= i < hi && i != Champ(g, l, lo, hi) ==> IsLosing(Fate(g, l, lo, hi, i))
    decreases hi
  {
    if hi > lo + 1 {
      var n, c := hi - 1, Champ(g, l, lo, hi - 1);
      Fates(g, l, lo, n);
      ResolveOne(g, l[c], l[n]);
      forall i | lo <= i < hi
        ensures if i == Champ(g, l, lo, hi) then Fate(g, l, lo, hi, i) == l[i].ty else IsLosing(Fate(g, l, lo, hi, i))
      {
        FateAt(g, l, lo, hi, i);
      }
    }
  }

  /** The last fight changes only the two that take part in it. */
  lemma FateAt(g: Grammar, l: seq<Action>, lo: nat, hi: nat, i: nat)
    requires lo <= i < hi <= |l| && lo + 1 < hi
    ensures var n, c := hi - 1, Champ(g, l, lo, hi - 1);
      Fate(g, l, lo, hi, i) ==
        if i == n then Resolve(g, l[c], l[n]).1.ty
        else if i == c then Resolve(g, l[c], l[n]).0.ty else Fate(g, l, lo, n, i)
  {
  }

  /** The first of two loses as a reduction, or as a shift. */
  lemma FirstLoses(g: Grammar, a: Action, b: Action)
    requires Fightable(a, b)
    ensures Resolve(g, a, b).0.ty == a.ty || (Beats(g, a, b) && BeatenAs(a, Resolve(g, a, b).0.ty))
    ensures !Beats(g, a, b) ==> Resolve(g, a, b).0.ty == a.ty
  {
  }

  /** The type of an action whose place a later one has taken. */
  predicate BeatenAs(a: Action, ty: ActionType) {
    if a.ty == SHIFT then ty == SH_RESOLVED || ty == ERROR else ty == RD_RESOLVED
  }

  /** An action that meets the champion so far and does not take its place has the type it lost with; one that does
      stays as it is, until a later one takes its place. */
  lemma {:induction false} FateLeft(g: Grammar, l: seq<Action>, lo: nat, hi: nat, k: nat)
    requires IsGroup(g, l, lo, hi) && lo <= k < hi
    ensures FateIs(g, l, lo, k, Fate(g, l, lo, hi, k), Champ(g, l, lo, hi))
    decreases hi
  {
    if k < hi - 1 {
      FateLeft(g, l, lo, hi - 1, k);
      Fates(g, l, lo, hi - 1);
      FateKept(g, l, lo, hi, k);
    } else if hi > lo + 1 {
      FateNew(g, l, lo, hi);
    }
  }

  /** The type f of action k when c is the champion in the end. */
  predicate FateIs(g: Grammar, l: seq<Action>, lo: nat, k: nat, f: ActionType, c: nat)
    requires lo <= k < |l|
  {
    if k > lo && !Beats(g, l[Champ(g, l, lo, k)], l[k]) then
      f == Resolve(g, l[Champ(g, l, lo, k)], l[k]).1.ty && c != k
    else if c == k then f == l[k].ty
    else BeatenAs(l[k], f)
  }

  lemma FateNew(g: Grammar, l: seq<Action>, lo: nat, hi: nat)
    requires IsGroup(g, l, lo, hi) && hi > lo + 1
    ensures var n, c := hi - 1, Champ(g, l, lo, hi - 1);
      if Beats(g, l[c], l[n]) then Champ(g, l, lo, hi) == n && Fate(g, l, lo, hi, n) == l[n].ty
      else Fate(g, l, lo, hi, n) == Resolve(g, l[c], l[n]).1.ty
  {
    FateAt(g, l, lo, hi, hi - 1);
    ResolveOne(g, l[Champ(g, l, lo, hi - 1)], l[hi - 1]);
  }

  /** The fight with the last action touches only the champion. */
  lemma FateKept(g: Grammar, l: seq<Action>, lo: nat, hi: nat, k: nat)
    requires IsGroup(g, l, lo, hi) && lo <= k < hi - 1
    ensures Champ(g, l, lo, hi - 1) != k ==>
      Fate(g, l, lo, hi, k) == Fate(g, l, lo, hi - 1, k) && Champ(g, l, lo, hi) != k
    ensures Champ(g, l, lo, hi - 1) == k ==>
      if Champ(g, l, lo, hi) == k then Fate(g, l, lo, hi, k) == l[k].ty else BeatenAs(l[k], Fate(g, l, lo, hi, k))
  {
    FateAt(g, l, lo, hi, k);
    FirstLoses(g, l[Champ(g, l, lo, hi - 1)], l[hi - 1]);
  }

  /** Some action of the group becomes an ERROR. */
  ghost predicate SomeError(g: Grammar, l: seq<Action>, lo: nat, hi: nat)
    requires lo < hi <= |l|
  {
    exists i :: lo <= i < hi && Fate(g, l, lo, hi, i) == ERROR
  }

  /** A champion on the way meets a tie. */
  ghost predicate SomeTie(g: Grammar, l: seq<Action>, lo: nat, hi: nat)
    requires lo < hi <= |l|
  {
    exists j :: lo < j < hi && Tie(g, l[Champ(g, l, lo, j)], l[j])
  }

  lemma {:induction false} ErrorFates(g: Grammar, l: seq<Action>, lo: nat, hi: nat)
    requires IsGroup(g, l, lo, hi)
    ensures SomeError(g, l, lo, hi) <==> SomeTie(g, l, lo, hi)
    decreases hi
  {
    if hi > lo + 1 {
      ErrorFates(g, l, lo, hi - 1);
      ErrorStep(g, l, lo, hi);
      assert SomeTie(g, l, lo, hi) <==> SomeTie(g, l, lo, hi - 1) || Tie(g, l[Champ(g, l, lo, hi - 1)], l[hi - 1]);
    }
  }

  lemma ErrorStep(g: Grammar, l: seq<Action>, lo: nat, hi: nat)
    requires IsGroup(g, l, lo, hi) && hi > lo + 1
    ensures SomeError(g, l, lo, hi) <==> SomeError(g, l, lo, hi - 1) || Tie(g, l[Champ(g, l, lo, hi - 1)], l[hi - 1])
  {
    var n := hi - 1;
    var c := Champ(g, l, lo, n);
    Fates(g, l, lo, n);
    ResolveOne(g, l[c], l[n]);
    if SomeError(g, l, lo, hi) {
      var i :| lo <= i < hi && Fate(g, l, lo, hi, i) == ERROR;
      FateAt(g, l, lo, hi, i);
    }
    if SomeError(g, l, lo, n) {
      var i :| lo <= i < n && Fate(g, l, lo, n, i) == ERROR;
      FateAt(g, l, lo, hi, i);
    }
    if Tie(g, l[c], l[n]) { FateAt(g, l, lo, hi, c); }
  }

  /** The fights of l[lo..hi] fail an assertion: a champion meets a tie, and either it is not declared nonassociative
      or another action of the group is left to fight it. */
  ghost predicate Stops(g: Grammar, l: seq<Action>, lo: nat, hi: nat)
    requires lo < hi <= |l|
  {
    exists j :: lo < j < hi && StopsAt(g, l, lo, hi, j)
  }

  ghost predicate StopsAt(g: Grammar, l: seq<Action>, lo: nat, hi: nat, j: nat)
    requires lo < j < hi <= |l|
  {
    Tie(g, l[Champ(g, l, lo, j)], l[j]) && (j + 1 < hi || AssocOf(g, l[lo].sp) != NONE)
  }

  /** Only the first action of a group can be a SHIFT when it is the champion. */
  lemma {:induction false} ShiftChamp(g: Grammar, l: seq<Action>, lo: nat, hi: nat)
    requires IsGroup(g, l, lo, hi) && l[Champ(g, l, lo, hi)].ty == SHIFT
    ensures Champ(g, l, lo, hi) == lo
    decreases hi
  {
    if hi > lo + 1 {
      var c := Champ(g, l, lo, hi - 1);
      ResolveOne(g, l[c], l[hi - 1]);
      if c == Champ(g, l, lo, hi) { ShiftChamp(g, l, lo, hi - 1); }
    }
  }

  /** Only the first action of a group can become an ERROR, and then it met a tie. */
  lemma {:induction false} ErrorFirst(g: Grammar, l: seq<Action>, lo: nat, hi: nat, i: nat)
    requires IsGroup(g, l, lo, hi) && lo <= i < hi && Fate(g, l, lo, hi, i) == ERROR
    ensures i == lo && exists j :: lo < j < hi && Tie(g, l[Champ(g, l, lo, j)], l[j])
    decreases hi
  {
    if hi > lo + 1 {
      var n := hi - 1;
      var c := Champ(g, l, lo, n);
      FateAt(g, l, lo, hi, i);
      ResolveOne(g, l[c], l[n]);
      if i == c {
        assert Tie(g, l[c], l[n]);
        ShiftChamp(g, l, lo, n);
      } else {
        assert i != n;
        ErrorFirst(g, l, lo, n, i);
        var j :| lo < j < n && Tie(g, l[Champ(g, l, lo, j)], l[j]);
      }
    }
  }

  /** A group as FindActions builds it: one lookahead, live, and fightable in this order. */
  ghost predicate IsGroup(g: Grammar, l: seq<Action>, lo: nat, hi: nat) {
    && lo < hi <= |l|
    && (forall i :: lo <= i < hi ==> l[i].sp == l[lo].sp && IsLive(l[i]))
    && (forall i, j :: lo <= i < j < hi ==> Fightable(l[i], l[j]))
  }

  /** Same action, but lost. */
  predicate Lost(a: Action, b: Action) {
    b.(ty := a.ty) == a && IsLoser(b)
  }

  predicate IsLoser(b: Action) { IsLosing(b.ty) }

  predicate IsLosing(ty: ActionType) { LostFight(ty) || ty == ERROR }

  /** In the middle of the fights of a group: k is the champion of l[lo..k+1] and untouched, all
      before it have lost; after it, l[k+1..m] have lost to it and l[m..hi] are untouched. */
  ghost predicate Fought(g: Grammar, l0: seq<Action>, l: seq<Action>, lo: nat, hi: nat, k: nat, m: nat) {
    && lo <= k < m <= hi <= |l0| && |l| == |l0|
    && Champ(g, l0, lo, m) == k
    && l[k] == l0[k]
    && (forall i :: lo <= i < m && i != k ==> Lost(l0[i], l[i]))
    && (forall i :: lo <= i < m ==> l[i] == l0[i].(ty := Fate(g, l0, lo, m, i)))
    && (forall i :: m <= i < hi ==> l[i] == l0[i])
    && (forall i :: 0 <= i < |l0| && !(lo <= i < hi) ==> l[i] == l0[i])
  }

  /** Fought, sealed. */
  ghost predicate Fighting(g: Grammar, l0: seq<Action>, l: seq<Action>, lo: nat, hi: nat, k: nat, m: nat) {
    && lo <= k < m <= hi <= |l0| == |l|
    && forall q {:trigger Open(q)} :: Open(q) && q == l ==> Fought(g, l0, q, lo, hi, k, m)
  }

  lemma FoughtOut(g: Grammar, l0: seq<Action>, l: seq<Action>, lo: nat, hi: nat, k: nat, m: nat)
    requires Fighting(g, l0, l, lo, hi, k, m) && m == hi
    ensures Crowned(g, l0, l, lo, hi)
  {
    assert Open(l);
  }

  /** One call of resolve_conflict on positions i < j of the group. */
  lemma FightStep(g: Grammar, l0: seq<Action>, l: seq<Action>, lo: nat, hi: nat, k: nat, m: nat, i: nat, j: nat)
    requires IsGroup(g, l0, lo, hi) && Fighting(g, l0, l, lo, hi, k, m) && lo <= i < j < hi
    requires i < k || (i == k && j <= m) || (i > k && m == hi)
    ensures var r := Resolve(g, l[i], l[j]); var l' := l[i := r.0][j := r.1];
      if i == k && j == m then
        if Beats(g, l0[k], l0[m]) then Fighting(g, l0, l', lo, hi, m, m + 1) else Fighting(g, l0, l', lo, hi, k, m + 1)
      else l' == l
  {
    assert Open(l);
    if i == k && j == m {
      FightFirst(g, l0, l, lo, hi, k, m);
    } else {
      assert !IsLive(l[i]) || !IsLive(l[j]);
      ResolveDead(g, l[i], l[j]);
    }
  }

  /** The champion meets the next action. */
  lemma FightFirst(g: Grammar, l0: seq<Action>, l: seq<Action>, lo: nat, hi: nat, k: nat, m: nat)
    requires IsGroup(g, l0, lo, hi) && Fought(g, l0, l, lo, hi, k, m) && m < hi
    ensures var r := Resolve(g, l[k], l[m]); var l' := l[k := r.0][m := r.1];
      if Beats(g, l0[k], l0[m]) then Fought(g, l0, l', lo, hi, m, m + 1) else Fought(g, l0, l', lo, hi, k, m + 1)
  {
    ResolveOne(g, l0[k], l0[m]);
    var r := Resolve(g, l0[k], l0[m]);
    var l' := l[k := r.0][m := r.1];
    forall q | lo <= q < m + 1 ensures l'[q] == l0[q].(ty := Fate(g, l0, lo, m + 1, q)) {
    }
  }

  /** The outcome for a group: each action meets its fate, its champion is unchanged, the others have lost, and
      nothing else moved. */
  ghost predicate Crowned(g: Grammar, l: seq<Action>, r: seq<Action>, lo: nat, hi: nat) {
    && lo < hi <= |l| && |r| == |l|
    && r[Champ(g, l, lo, hi)] == l[Champ(g, l, lo, hi)]
    && (forall i :: lo <= i < hi && i != Champ(g, l, lo, hi) ==> Lost(l[i], r[i]))
    && (forall i :: lo <= i < hi ==> r[i] == l[i].(ty := Fate(g, l, lo, hi, i)))
    && (forall i :: 0 <= i < |l| && !(lo <= i < hi) ==> r[i] == l[i])
  }

  method FightOne(g: Grammar, a: array<Action>, i: nat, j: nat) returns (n: nat)
    requires i < j < a.Length
    modifies a
    ensures var r := Resolve(g, old(a[i]), old(a[j])); n == r.2 && a[..] == old(a[..])[i := r.0][j := r.1]
    ensures Conflicts(a[..]) == Conflicts(old(a[..])) + n
  {
    FightConflicts(g, a[..], i, j);
    var r := Resolve(g, a[i], a[j]);
    a[i], a[j] := r.0, r.1;
    n := r.2;
  }

  // ---- counting the conflicts ----

  predicate IsConflict(ty: ActionType) {
    ty == SSCONFLICT || ty == SRCONFLICT || ty == RRCONFLICT
  }

  /** The number of actions on which a conflict is to be reported. */
  function Conflicts(l: seq<Action>): nat {
    if l == [] then 0 else Conflicts(l[..|l| - 1]) + if IsConflict(l[|l| - 1].ty) then 1 else 0
  }

  lemma {:induction false} ConflictsUpdate(l: seq<Action>, i: nat, a: Action)
    requires i < |l|
    ensures Conflicts(l[i := a]) ==
      Conflicts(l) - (if IsConflict(l[i].ty) then 1 else 0) + (if IsConflict(a.ty) then 1 else 0)
  {
    var n, m := |l| - 1, l[i := a];
    if i < n {
      assert m[..n] == l[..n][i := a];
      ConflictsUpdate(l[..n], i, a);
    } else {
      assert m[..n] == l[..n];
    }
  }

  lemma FightConflicts(g: Grammar, l: seq<Action>, i: nat, j: nat)
    requires i < j < |l|
    ensures var r := Resolve(g, l[i], l[j]); Conflicts(l[i := r.0][j := r.1]) == Conflicts(l) + r.2
  {
    var r := Resolve(g, l[i], l[j]);
    ConflictsUpdate(l, i, r.0);
    ConflictsUpdate(l[i := r.0], j, r.1);
  }

  /** Among live actions there are none. */
  lemma {:induction false} NoConflicts(l: seq<Action>)
    requires forall a :: a in l ==> IsLive(a)
    ensures Conflicts(l) == 0
  {
    if l != [] {
      assert l[|l| - 1] in l;
      NoConflicts(l[..|l| - 1]);
    }
  }

  /** A fight fails its assertion only if the group stops. */
  lemma StepStops(g: Grammar, l0: seq<Action>, l: seq<Action>, lo: nat, hi: nat, k: nat, m: nat, i: nat, j: nat)
    requires IsGroup(g, l0, lo, hi) && Fighting(g, l0, l, lo, hi, k, m) && lo <= i < j < hi
    requires i < k || (i == k && j <= m) || (i > k && m == hi)
    requires i == lo && i < k ==> j >= m
    requires i > lo ==> !Stops(g, l0, lo, hi)
    ensures !Asserted(g, l[i], l[j]) ==> Stops(g, l0, lo, hi)
  {
    assert Open(l);
    if i == k && j == m {
      if !Asserted(g, l[i], l[j]) {
        ShiftChamp(g, l0, lo, m);
        assert StopsAt(g, l0, lo, hi, m);
      }
    } else {
      if l[i].ty == ERROR { ErrorStops(g, l0, lo, hi, m, i, j); }
      if j < m && l[j].ty == ERROR { ErrorFirst(g, l0, lo, m, j); }
    }
  }

  /** An action that has become an ERROR has another one to fight. */
  lemma ErrorStops(g: Grammar, l: seq<Action>, lo: nat, hi: nat, m: nat, i: nat, j: nat)
    requires IsGroup(g, l, lo, hi) && lo <= i < m <= hi && i < j < hi && Fate(g, l, lo, m, i) == ERROR
    requires j >= m || Stops(g, l, lo, hi) || i > lo
    ensures i == lo && Stops(g, l, lo, hi)
  {
    ErrorFirst(g, l, lo, m, i);
    var q :| lo < q < m && Tie(g, l[Champ(g, l, lo, q)], l[q]);
    if j >= m { assert StopsAt(g, l, lo, hi, q); }
  }

  /** Once the first action is beaten it is never the champion again. */
  lemma {:induction false} ChampLeaves(g: Grammar, l: seq<Action>, lo: nat, m: nat, q: nat)
    requires lo < m <= q <= |l| && Champ(g, l, lo, m) != lo
    ensures Champ(g, l, lo, q) != lo
    decreases q
  {
    if m < q { ChampLeaves(g, l, lo, m, q - 1); }
  }

  /** While the first action fights, nothing has stopped up to j; then nothing stops up to j + 1. */
  lemma RowGoesOn(g: Grammar, l0: seq<Action>, l: seq<Action>, lo: nat, hi: nat, k: nat, m: nat, j: nat)
    requires IsGroup(g, l0, lo, hi) && Fighting(g, l0, l, lo, hi, k, m) && lo < j < hi
    requires m <= j && (k == lo ==> m == j)
    requires !Stops(g, l0, lo, j) && Asserted(g, l[lo], l[j])
    ensures !Stops(g, l0, lo, j + 1)
  {
    var n := j + 1;
    forall q | lo < q < n ensures !StopsAt(g, l0, lo, n, q) {
      if StopsAt(g, l0, lo, n, q) {
        RowTie(g, l0, l, lo, hi, k, m, j, q);
        assert Open(l);
      }
    }
  }

  /** A tie that the first action met before j has left an ERROR, which fails the assertion with action j. */
  lemma RowTie(g: Grammar, l0: seq<Action>, l: seq<Action>, lo: nat, hi: nat, k: nat, m: nat, j: nat, q: nat)
    requires IsGroup(g, l0, lo, hi) && Fighting(g, l0, l, lo, hi, k, m) && lo < q <= j < hi
    requires m <= j && (k == lo ==> m == j)
    requires Asserted(g, l[lo], l[j]) && Tie(g, l0[Champ(g, l0, lo, q)], l0[q])
    ensures q == j && k == lo
  {
    ShiftChamp(g, l0, lo, q);
    if q < m { EarlyTie(g, l0, l, lo, hi, k, m, j, q); }
    if k != lo {
      ChampLeaves(g, l0, lo, m, q) by { assert Open(l); }
    }
  }

  lemma EarlyTie(g: Grammar, l0: seq<Action>, l: seq<Action>, lo: nat, hi: nat, k: nat, m: nat, j: nat, q: nat)
    requires IsGroup(g, l0, lo, hi) && Fighting(g, l0, l, lo, hi, k, m) && lo < q < m <= j < hi
    requires Champ(g, l0, lo, q) == lo && Tie(g, l0[lo], l0[q])
    ensures !Asserted(g, l[lo], l[j])
  {
    assert Open(l);
    TieStays(g, l0, lo, m, q);
  }

  /** The shift that loses in a tie is an ERROR from then on. */
  lemma {:induction false} TieStays(g: Grammar, l: seq<Action>, lo: nat, m: nat, q: nat)
    requires IsGroup(g, l, lo, m) && lo < q < m && Champ(g, l, lo, q) == lo && Tie(g, l[lo], l[q])
    ensures Fate(g, l, lo, m, lo) == ERROR && Champ(g, l, lo, m) != lo
    decreases m
  {
    FateAt(g, l, lo, m, lo);
    ResolveOne(g, l[lo], l[q]);
    if q < m - 1 { TieStays(g, l, lo, m - 1, q); }
  }

  /** Where the fights of action i stand before it meets action j. */
  ghost predicate InRow(g: Grammar, l0: seq<Action>, l: seq<Action>, lo: nat, hi: nat, k: nat, m: nat, i: nat, j: nat) {
    && lo <= i < j <= hi <= |l0| && Fighting(g, l0, l, lo, hi, k, m)
    && (k == i ==> m >= j) && (k >= i || m == hi)
    && (if i == lo then m <= j && (k == lo ==> m == j) && !Stops(g, l0, lo, j) else !Stops(g, l0, lo, hi))
  }

  lemma RowStep(g: Grammar, l0: seq<Action>, l: seq<Action>, lo: nat, hi: nat, k: nat, m: nat, i: nat, j: nat)
    returns (k': nat, m': nat)
    requires IsGroup(g, l0, lo, hi) && InRow(g, l0, l, lo, hi, k, m, i, j) && j < hi && Asserted(g, l[i], l[j])
    ensures var r := Resolve(g, l[i], l[j]); InRow(g, l0, l[i := r.0][j := r.1], lo, hi, k', m', i, j + 1)
  {
    if i == lo { RowGoesOn(g, l0, l, lo, hi, k, m, j); }
    k', m' := RowFights(g, l0, l, lo, hi, k, m, i, j);
  }

  lemma RowFights(g: Grammar, l0: seq<Action>, l: seq<Action>, lo: nat, hi: nat, k: nat, m: nat, i: nat, j: nat)
    returns (k': nat, m': nat)
    requires IsGroup(g, l0, lo, hi) && Fighting(g, l0, l, lo, hi, k, m) && lo <= i < j < hi
    requires (k == i ==> m >= j) && (k >= i || m == hi)
    ensures var r := Resolve(g, l[i], l[j]); Fighting(g, l0, l[i := r.0][j := r.1], lo, hi, k', m')
    ensures (k' == i ==> m' >= j + 1) && (k' >= i || m' == hi)
    ensures i == lo && m <= j && (k == lo ==> m == j) ==> m' <= j + 1 && (k' == lo ==> m' == j + 1)
  {
    FightStep(g, l0, l, lo, hi, k, m, i, j);
    if i == k && j == m {
      k', m' := if Beats(g, l0[k], l0[m]) then m else k, m + 1;
    } else {
      k', m' := k, m;
    }
  }

  /** Action i against every later action of its group, as long as the assertions hold. */
  method FightRow(g: Grammar, a: array<Action>, ghost l0: seq<Action>, lo: nat, hi: nat, ghost k0: nat, ghost m0: nat,
          i: nat)
    returns (ok: bool, nconflict: nat, ghost k: nat, ghost m: nat)
    requires IsGroup(g, l0, lo, hi) && i < hi && InRow(g, l0, a[..], lo, hi, k0, m0, i, i + 1)
    modifies a
    ensures ok <==> !Stops(g, l0, lo, hi)
    ensures ok ==> InRow(g, l0, a[..], lo, hi, k, m, i, hi)
    ensures Conflicts(a[..]) == Conflicts(old(a[..])) + nconflict
  {
    ok, nconflict, k, m := true, 0, k0, m0;
    for j := i + 1 to hi
      invariant InRow(g, l0, a[..], lo, hi, k, m, i, j)
      invariant Conflicts(a[..]) == Conflicts(old(a[..])) + nconflict
    {
      ghost var l := a[..];
      StepStops(g, l0, l, lo, hi, k, m, i, j);
      if !Asserted(g, a[i], a[j]) {
        ok := false;
        return;
      }
      k, m := RowStep(g, l0, l, lo, hi, k, m, i, j);
      var n := FightOne(g, a, i, j);
      nconflict := nconflict + n;
    }
  }

  /** All fights of one group, in lemon's order. Unless an assertion fails, exactly one action survives: the
      champion. */
  method ResolveGroup(g: Grammar, a: array<Action>, lo: nat, hi: nat) returns (ok: bool, nconflict: nat)
    requires IsGroup(g, a[..], lo, hi)
    modifies a
    ensures ok <==> !Stops(g, old(a[..]), lo, hi)
    ensures ok ==> Crowned(g, old(a[..]), a[..], lo, hi)
    ensures ok ==> Conflicts(a[..]) == Conflicts(old(a[..])) + nconflict
  {
    ok, nconflict := true, 0;
    ghost var l0 := a[..];
    ghost var k: nat, m: nat := lo, lo + 1;
    assert Fought(g, l0, a[..], lo, hi, k, m);
    for i := lo to hi
      invariant
        if i < hi then InRow(g, l0, a[..], lo, hi, k, m, i, i + 1) else Fighting(g, l0, a[..], lo, hi, k, m) && m == hi
      invariant i > lo ==> !Stops(g, l0, lo, hi)
      invariant Conflicts(a[..]) == Conflicts(l0) + nconflict
    {
      var n;
      ok, n, k, m := FightRow(g, a, l0, lo, hi, k, m, i);
      if !ok { return; }
      nconflict := nconflict + n;
    }
    FoughtOut(g, l0, a[..], lo, hi, k, m);
  }

  // ---- all actions of one state ----

  /** What is resolved: live actions with distinct addresses, ACCEPT alone on its lookahead. */
  ghost predicate Resolvable(l: seq<Action>) {
    && (forall a :: a in l ==> IsLive(a))
    && (forall i, j :: 0 <= i < j < |l| ==> l[i].id != l[j].id)
    && (forall a, b :: a in l && b in l && a.sp == b.sp && a.ty == ACCEPT ==> a == b)
  }

  /** l[lo..hi] are all actions on one lookahead. */
  ghost predicate IsRun(l: seq<Action>, lo: nat, hi: nat) {
    && lo < hi <= |l|
    && forall i :: 0 <= i < |l| ==> (lo <= i < hi <==> l[i].sp == l[lo].sp)
  }

  /** The fights on some lookahead fail an assertion. */
  ghost predicate SomeStop(g: Grammar, l: seq<Action>) {
    exists lo: nat, hi: nat :: IsRun(l, lo, hi) && Stops(g, l, lo, hi)
  }

  /** ... on none of the first n. */
  ghost predicate NoStopBefore(g: Grammar, l: seq<Action>, n: nat) {
    forall lo: nat, hi: nat :: IsRun(l, lo, hi) && hi <= n ==> !Stops(g, l, lo, hi)
  }

  /** Action i has met its fate among the actions on its lookahead. */
  ghost predicate Fated(g: Grammar, l: seq<Action>, r: seq<Action>, i: nat)
    requires i < |l| == |r|
  {
    exists lo: nat, hi: nat :: IsRun(l, lo, hi) && lo <= i < hi && r[i] == l[i].(ty := Fate(g, l, lo, hi, i))
  }

  /** The first n actions of l have been decided, giving those of r: each is unchanged or has lost,
      no lookahead keeps two live actions, none that had an action is left without, and each has the type that
      the fights on its lookahead give it. */
  ghost predicate Settled(g: Grammar, l: seq<Action>, r: seq<Action>, n: nat) {
    && n <= |l| == |r|
    && (forall i :: 0 <= i < n ==> r[i] == l[i] || Lost(l[i], r[i]))
    && (forall i, j :: 0 <= i < j < n && IsLive(r[i]) && IsLive(r[j]) ==> r[i].sp != r[j].sp)
    && (forall i :: 0 <= i < n ==> HasLive(r, n, l[i].sp))
    && (forall i :: 0 <= i < n ==> Fated(g, l, r, i))
  }

  ghost predicate HasLive(r: seq<Action>, n: nat, sp: nat) {
    exists w :: 0 <= w < n && w < |r| && IsLive(r[w]) && r[w].sp == sp
  }

  ghost predicate Decided(g: Grammar, l: seq<Action>, r: seq<Action>) {
    Settled(g, l, r, |l|)
  }

  /** Settled up to n, with the rest untouched and on other lookaheads. */
  ghost predicate DecidedUpTo(g: Grammar, l: seq<Action>, r: seq<Action>, n: nat) {
    && Settled(g, l, r, n)
    && (forall i :: n <= i < |l| ==> r[i] == l[i])
    && (forall i, j :: 0 <= i < n <= j < |l| ==> l[i].sp != l[j].sp)
  }

  lemma GroupHasLive(g: Grammar, l: seq<Action>, r: seq<Action>, r': seq<Action>, lo: nat, hi: nat)
    requires IsGroup(g, l, lo, hi) && DecidedUpTo(g, l, r, lo)
    requires Crowned(g, r, r', lo, hi) && Champ(g, r, lo, hi) == Champ(g, l, lo, hi)
    ensures forall i :: 0 <= i < hi ==> HasLive(r', hi, l[i].sp)
  {
    var c := Champ(g, l, lo, hi);
    forall i | 0 <= i < hi ensures HasLive(r', hi, l[i].sp) {
      if i < lo {
        assert HasLive(r, lo, l[i].sp);
        var w :| 0 <= w < lo && IsLive(r[w]) && r[w].sp == l[i].sp;
        assert r'[w] == r[w];
      } else {
        assert r'[c] == l[c];
      }
    }
  }

  lemma GroupUnique(g: Grammar, l: seq<Action>, r: seq<Action>, r': seq<Action>, lo: nat, hi: nat)
    requires IsGroup(g, l, lo, hi) && DecidedUpTo(g, l, r, lo)
    requires Crowned(g, r, r', lo, hi) && Champ(g, r, lo, hi) == Champ(g, l, lo, hi)
    ensures forall i, j :: 0 <= i < j < hi && IsLive(r'[i]) && IsLive(r'[j]) ==> r'[i].sp != r'[j].sp
  {
    forall i, j | 0 <= i < j < hi && IsLive(r'[i]) && IsLive(r'[j]) ensures r'[i].sp != r'[j].sp {
      if j < lo {
        assert r'[i] == r[i] && r'[j] == r[j];
      } else {
        GroupPair(g, l, r, r', lo, hi, i, j);
      }
    }
  }

  /** A live action of the group is its champion, and earlier groups have other lookaheads. */
  lemma GroupPair(g: Grammar, l: seq<Action>, r: seq<Action>, r': seq<Action>, lo: nat, hi: nat, i: nat, j: nat)
    requires DecidedUpTo(g, l, r, lo) && Crowned(g, r, r', lo, hi)
    requires i < j && lo <= j < hi && IsLive(r'[i]) && IsLive(r'[j])
    ensures r'[i].sp != r'[j].sp
  {
    LiveIsChamp(g, r, r', lo, hi, j);
    if i >= lo {
      LiveIsChamp(g, r, r', lo, hi, i);
      assert false;
    }
    assert r'[i].sp == l[i].sp && r'[j].sp == l[j].sp;
  }

  lemma LiveIsChamp(g: Grammar, r: seq<Action>, r': seq<Action>, lo: nat, hi: nat, j: nat)
    requires Crowned(g, r, r', lo, hi) && lo <= j < hi && IsLive(r'[j])
    ensures j == Champ(g, r, lo, hi)
  {
    if j != Champ(g, r, lo, hi) { LostIsDead(r[j], r'[j]); }
  }

  lemma LostIsDead(a: Action, b: Action)
    requires Lost(a, b)
    ensures !IsLive(b)
  {
  }

  lemma GroupDecided(g: Grammar, l: seq<Action>, r: seq<Action>, r': seq<Action>, lo: nat, hi: nat)
    requires IsGroup(g, l, lo, hi) && DecidedUpTo(g, l, r, lo)
    requires forall i, j :: lo <= i < hi <= j < |l| ==> l[i].sp != l[j].sp
    requires Crowned(g, r, r', lo, hi) && Champ(g, r, lo, hi) == Champ(g, l, lo, hi)
    ensures DecidedUpTo(g, l, r', hi)
  {
    GroupHasLive(g, l, r, r', lo, hi);
    GroupUnique(g, l, r, r', lo, hi);
    GroupKept(g, l, r, r', lo, hi);
    GroupFated(g, l, r, r', lo, hi);
  }

  lemma GroupFated(g: Grammar, l: seq<Action>, r: seq<Action>, r': seq<Action>, lo: nat, hi: nat)
    requires IsGroup(g, l, lo, hi) && DecidedUpTo(g, l, r, lo) && Crowned(g, r, r', lo, hi)
    requires forall i, j :: lo <= i < hi <= j < |l| ==> l[i].sp != l[j].sp
    ensures forall i :: 0 <= i < hi ==> Fated(g, l, r', i)
  {
    assert IsRun(l, lo, hi);
    forall i | 0 <= i < hi ensures Fated(g, l, r', i) {
      if i < lo {
        assert Fated(g, l, r, i) && r'[i] == r[i];
      } else {
        FateSame(g, l, r, lo, hi, i);
      }
    }
  }

  lemma {:induction false} FateSame(g: Grammar, l: seq<Action>, r: seq<Action>, lo: nat, hi: nat, i: nat)
    requires lo <= i < hi <= |l| == |r| && forall k :: lo <= k < hi ==> r[k] == l[k]
    ensures Fate(g, r, lo, hi, i) == Fate(g, l, lo, hi, i)
    decreases hi
  {
    if hi > lo + 1 {
      ChampSame(g, l, r, lo, hi - 1);
      if i < hi - 1 { FateSame(g, l, r, lo, hi - 1, i); }
    }
  }

  lemma GroupKept(g: Grammar, l: seq<Action>, r: seq<Action>, r': seq<Action>, lo: nat, hi: nat)
    requires DecidedUpTo(g, l, r, lo) && Crowned(g, r, r', lo, hi)
    requires forall i, j :: lo <= i < hi <= j < |l| ==> l[i].sp != l[j].sp
    ensures forall i :: 0 <= i < hi ==> r'[i] == l[i] || Lost(l[i], r'[i])
    ensures forall i :: hi <= i < |l| ==> r'[i] == l[i]
    ensures forall i, j :: 0 <= i < hi <= j < |l| ==> l[i].sp != l[j].sp
  {
    forall i | 0 <= i < hi ensures r'[i] == l[i] || Lost(l[i], r'[i]) {
      if i < lo { assert r'[i] == r[i]; } else { assert r[i] == l[i]; }
    }
  }

  lemma StartDecided(g: Grammar, l: seq<Action>)
    ensures DecidedUpTo(g, l, l, 0)
  {
  }

  /** In sorted order the actions of one lookahead form a fightable group. */
  lemma SortedGroup(g: Grammar, l: seq<Action>, lo: nat, hi: nat)
    requires Sorted(Actioncmp, l) && Resolvable(l) && lo < hi <= |l|
    requires forall i :: lo <= i < hi ==> l[i].sp == l[lo].sp
    ensures IsGroup(g, l, lo, hi)
  {
    ActioncmpOrder();
    forall i, j | lo <= i < j < hi ensures Fightable(l[i], l[j]) {
      SortedPairs(Actioncmp, l, i, j);
      assert l[i] in l && l[j] in l && l[i].id != l[j].id;
    }
  }

  lemma SortedBySp(l: seq<Action>, i: nat, j: nat)
    requires Sorted(Actioncmp, l) && i <= j < |l|
    ensures l[i].sp <= l[j].sp
  {
    ActioncmpOrder();
    if i < j { SortedPairs(Actioncmp, l, i, j); }
  }

  /** In the order of the symbols. */
  ghost predicate SpSorted(l: seq<Action>) {
    forall i, j :: 0 <= i < j < |l| ==> l[i].sp <= l[j].sp
  }

  lemma SpSortedList(l: seq<Action>)
    requires Sorted(Actioncmp, l)
    ensures SpSorted(l)
  {
    forall i, j | 0 <= i < j < |l| ensures l[i].sp <= l[j].sp { SortedBySp(l, i, j); }
  }

  /** The end of the run of actions with the lookahead of action lo. */
  method GroupEnd(a: array<Action>, lo: nat) returns (hi: nat)
    requires lo < a.Length
    ensures lo < hi <= a.Length
    ensures forall i :: lo <= i < hi ==> a[i].sp == a[lo].sp
    ensures hi < a.Length ==> a[hi].sp != a[lo].sp
  {
    hi := lo + 1;
    while hi < a.Length && a[hi].sp == a[lo].sp
      invariant lo < hi <= a.Length
      invariant forall i :: lo <= i < hi ==> a[i].sp == a[lo].sp
    {
      hi := hi + 1;
    }
  }

  /** One group further. */
  method ResolveNext(g: Grammar, ghost l: seq<Action>, a: array<Action>, lo: nat)
    returns (ok: bool, hi: nat, nconflict: nat)
    requires Sorted(Actioncmp, l) && Resolvable(l) && lo < |l| == a.Length && DecidedUpTo(g, l, a[..], lo)
    requires NoStopBefore(g, l, lo)
    modifies a
    ensures lo < hi && (ok ==> DecidedUpTo(g, l, a[..], hi) && NoStopBefore(g, l, hi))
    ensures ok ==> Conflicts(a[..]) == Conflicts(old(a[..])) + nconflict
    ensures !ok ==> SomeStop(g, l)
  {
    hi := GroupEnd(a, lo);
    ghost var before := a[..];
    assert forall i :: lo <= i < |l| ==> before[i] == l[i] && before[i] == a[i];
    GroupReady(g, l, before, lo, hi);
    GroupRun(g, l, lo, hi);
    StopsSame(g, l, before, lo, hi);
    ok, nconflict := ResolveGroup(g, a, lo, hi);
    if ok {
      GroupDecided(g, l, before, a[..], lo, hi);
      NoStopNext(g, l, lo, hi);
    }
  }

  /** In a sorted list a maximal block on one lookahead is a run. */
  lemma GroupRun(g: Grammar, l: seq<Action>, lo: nat, hi: nat)
    requires Sorted(Actioncmp, l) && lo < hi <= |l| && forall i :: lo <= i < hi ==> l[i].sp == l[lo].sp
    requires forall i, j :: 0 <= i < lo <= j < |l| ==> l[i].sp != l[j].sp
    requires forall i, j :: lo <= i < hi <= j < |l| ==> l[i].sp != l[j].sp
    ensures IsRun(l, lo, hi)
  {
  }

  lemma StopsSame(g: Grammar, l: seq<Action>, r: seq<Action>, lo: nat, hi: nat)
    requires lo < hi <= |l| == |r| && forall i :: lo <= i < hi ==> r[i] == l[i]
    ensures Stops(g, r, lo, hi) <==> Stops(g, l, lo, hi)
  {
    forall j | lo < j < hi ensures StopsAt(g, r, lo, hi, j) <==> StopsAt(g, l, lo, hi, j) {
      ChampSame(g, l, r, lo, j);
    }
  }

  /** All actions on one lookahead form one run. */
  lemma SameRun(l: seq<Action>, lo: nat, hi: nat, lo': nat, hi': nat)
    requires IsRun(l, lo, hi) && IsRun(l, lo', hi') && l[lo].sp == l[lo'].sp
    ensures lo == lo' && hi == hi'
  {
    assert l[hi - 1].sp == l[lo'].sp && l[hi' - 1].sp == l[lo].sp;
  }

  lemma NoStopNext(g: Grammar, l: seq<Action>, lo: nat, hi: nat)
    requires IsRun(l, lo, hi) && NoStopBefore(g, l, lo) && !Stops(g, l, lo, hi)
    ensures NoStopBefore(g, l, hi)
  {
    forall lo': nat, hi': nat | IsRun(l, lo', hi') && hi' <= hi ensures !Stops(g, l, lo', hi') {
      if hi' > lo {
        assert l[hi' - 1].sp == l[lo].sp == l[lo'].sp;
        SameRun(l, lo, hi, lo', hi');
      }
    }
  }

  /** The conflict loop over one sorted list: it fails an assertion, or decides every action. */
  method ResolveSorted(g: Grammar, l: seq<Action>) returns (ok: bool, r: seq<Action>, nconflict: nat)
    requires Sorted(Actioncmp, l) && Resolvable(l)
    ensures ok <==> !SomeStop(g, l)
    ensures ok ==> Decided(g, l, r) && nconflict == Conflicts(r)
  {
    NoConflicts(l);
    ok, nconflict := true, 0;
    var a := new Action[|l|](i requires 0 <= i < |l| => l[i]);
    assert a[..] == l;
    StartDecided(g, l);
    var lo := 0;
    while lo < |l|
      invariant DecidedUpTo(g, l, a[..], lo) && NoStopBefore(g, l, lo) && nconflict == Conflicts(a[..])
      decreases |l| - lo
    {
      var hi, n;
      ok, hi, n := ResolveNext(g, l, a, lo);
      if !ok { return false, [], nconflict; }
      lo, nconflict := hi, nconflict + n;
    }
    r := a[..];
    DecidedAll(g, l, r, lo);
  }

  lemma DecidedAll(g: Grammar, l: seq<Action>, r: seq<Action>, n: nat)
    requires DecidedUpTo(g, l, r, n) && n >= |l|
    ensures Decided(g, l, r)
  {
  }

  lemma GroupReady(g: Grammar, l: seq<Action>, r: seq<Action>, lo: nat, hi: nat)
    requires Sorted(Actioncmp, l) && Resolvable(l) && lo < hi <= |l| == |r|
    requires forall i :: lo <= i < hi ==> l[i].sp == l[lo].sp
    requires hi < |l| ==> l[hi].sp != l[lo].sp
    requires DecidedUpTo(g, l, r, lo)
    ensures IsGroup(g, l, lo, hi) && IsGroup(g, r, lo, hi)
    ensures Champ(g, r, lo, hi) == Champ(g, l, lo, hi)
    ensures forall i, j :: lo <= i < hi <= j < |l| ==> l[i].sp != l[j].sp
  {
    SortedGroup(g, l, lo, hi);
    assert forall i :: lo <= i < hi ==> r[i] == l[i];
    ChampSame(g, l, r, lo, hi);
    forall i, j | lo <= i < hi <= j < |l| ensures l[i].sp != l[j].sp {
      SortedBySp(l, i, hi);
      SortedBySp(l, hi, j);
    }
  }

  lemma {:induction false} ChampSame(g: Grammar, l: seq<Action>, r: seq<Action>, lo: nat, hi: nat)
    requires lo < hi <= |l| == |r| && forall i :: lo <= i < hi ==> r[i] == l[i]
    ensures Champ(g, r, lo, hi) == Champ(g, l, lo, hi)
    decreases hi
  {
    if hi > lo + 1 { ChampSame(g, l, r, lo, hi - 1); }
  }
}
