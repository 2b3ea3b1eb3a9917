/** eval_preprocessor_boolean: the argument of an %if, %ifdef or %ifndef line. */
module Conditions {

  predicate IsSpace(c: char) {
    c == ' ' || c == '\t' || c == '\n' || c == '\r' || c == '\U{b}' || c == '\U{c}'
  }

  predicate IsAlpha(c: char) { 'a' <= c <= 'z' || 'A' <= c <= 'Z' }

  predicate IsWord(c: char) { IsAlpha(c) || '0' <= c <= '9' || c == '_' }

  /** The character at i, or the terminating NUL. */
  function At(z: seq<char>, i: nat): char {
    if i < |z| then z[i] else '\0'
  }

  /** The end of the word that starts before k. */
  function WordEnd(z: seq<char>, k: nat): (r: nat)
    requires k <= |z|
    ensures k <= r <= |z| && (forall j :: k <= j < r ==> IsWord(z[j])) && (r < |z| ==> !IsWord(z[r]))
    decreases |z| - k
  {
    if k < |z| && IsWord(z[k]) then WordEnd(z, k + 1) else k
  }

  /** The ')' that closes n open parentheses, searched from k; |z| if there is none. */
  function Close(z: seq<char>, k: nat, n: nat): (r: nat)
    requires k <= |z| && n > 0
    ensures k <= r <= |z| && (r < |z| ==> z[r] == ')')
    decreases |z| - k
  {
    if k == |z| then k
    else if z[k] == ')' then if n == 1 then k else Close(z, k + 1, n - 1)
    else if z[k] == '(' then Close(z, k + 1, n + 1)
    else Close(z, k + 1, n)
  }

  datatype Outcome = Value(b: bool) | SyntaxError(at: nat)

  /** What the loop does at position i: end, skip, or take a term or an operator. */
  function Eval(defs: set<seq<char>>, z: seq<char>, i: nat, neg: bool, res: bool, okTerm: bool): Outcome
    requires i <= |z|
    decreases |z|, |z| - i
  {
    if i == |z| then Value(res)
    else if IsSpace(z[i]) then Eval(defs, z, i + 1, neg, res, okTerm)
    else if z[i] == '!' then if okTerm then Eval(defs, z, i + 1, !neg, res, okTerm) else SyntaxError(i)
    else if z[i] == '|' && At(z, i + 1) == '|' then
      if okTerm then SyntaxError(i) else if res then Value(true) else Eval(defs, z, i + 2, neg, res, true)
    else if z[i] == '&' && At(z, i + 1) == '&' then
      if okTerm then SyntaxError(i) else if !res then Value(false) else Eval(defs, z, i + 2, neg, res, true)
    else if z[i] == '(' then
      if !okTerm then SyntaxError(i)
      else
        var k := Close(z, i + 1, 1);
        if k == |z| then Eval(defs, z, i + 1, false, res != neg, false)   // no closing parenthesis: res is left
        else
          match Eval(defs, z[i + 1..k], 0, false, false, true)
          case SyntaxError(at) => SyntaxError(i + 1 + at)
          case Value(b) => Eval(defs, z, k + 1, false, b != neg, false)
    else if IsAlpha(z[i]) then
      if !okTerm then SyntaxError(i)
      else
        var k := WordEnd(z, i + 1);
        Eval(defs, z, k, false, (z[i..k] in defs) != neg, false)
    else SyntaxError(i)
  }

  /** The scanning loop over the parentheses. */
  method FindClose(z: seq<char>, i: nat) returns (k: nat)
    requires i <= |z|
    ensures k == Close(z, i, 1)
  {
    var n := 1;
    k := i;
    while k < |z|
      invariant i <= k <= |z| && n > 0 && Close(z, k, n) == Close(z, i, 1)
    {
      if z[k] == ')' {
        n := n - 1;
        if n == 0 { return; }
      } else if z[k] == '(' {
        n := n + 1;
      }
      k := k + 1;
    }
  }

  method FindWordEnd(z: seq<char>, i: nat) returns (k: nat)
    requires i <= |z|
    ensures k == WordEnd(z, i)
  {
    k := i;
    while k < |z| && IsWord(z[k])
      invariant i <= k <= |z| && WordEnd(z, k) == WordEnd(z, i)
    {
      k := k + 1;
    }
  }

  /** eval_preprocessor_boolean. */
  method EvalBoolean(defs: set<seq<char>>, z: seq<char>) returns (r: Outcome)
    ensures r == Eval(defs, z, 0, false, false, true)
    decreases |z|
  {
    var neg, res, okTerm, i := false, false, true, 0;
    while i < |z|
      invariant i <= |z| && Eval(defs, z, i, neg, res, okTerm) == Eval(defs, z, 0, false, false, true)
      decreases |z| - i
    {
      if IsSpace(z[i]) {
        i := i + 1;
      } else if z[i] == '!' {
        if !okTerm { return SyntaxError(i); }
        neg, i := !neg, i + 1;
      } else if z[i] == '|' && At(z, i + 1) == '|' {
        if okTerm { return SyntaxError(i); }
        if res { return Value(true); }
        i, okTerm := i + 2, true;
      } else if z[i] == '&' && At(z, i + 1) == '&' {
        if okTerm { return SyntaxError(i); }
        if !res { return Value(false); }
        i, okTerm := i + 2, true;
      } else if z[i] == '(' {
        if !okTerm { return SyntaxError(i); }
        var k := FindClose(z, i + 1);
        if k < |z| {
          var inner := EvalBoolean(defs, z[i + 1..k]);
          if inner.SyntaxError? { return SyntaxError(i + 1 + inner.at); }
          res, i := inner.b, k;
        }
        if neg { res, neg := !res, false; }
        okTerm, i := false, i + 1;
      } else if IsAlpha(z[i]) {
        if !okTerm { return SyntaxError(i); }
        var k := FindWordEnd(z, i + 1);
        res := z[i..k] in defs;
        if neg { res, neg := !res, false; }
        okTerm, i := false, k;
      } else {
        return SyntaxError(i);
      }
    }
    r := Value(res);
  }

  // ---- the conditions as they are meant ----

  /** A condition: spaces, negations, a name or a condition in parentheses, and perhaps an operator
      with all the rest of the line on its right. */
  datatype Expr = Expr(lead: nat, nots: nat, prim: Prim, gap: nat, rest: Rest)
  datatype Prim = Name(id: seq<char>) | Group(e: Expr)
  datatype Rest = Done | OrElse(e: Expr) | AndAlso(e: Expr)

  predicate Letter(c: char) { 'a' <= c <= 'z' || 'A' <= c <= 'Z' }

  predicate NameChar(c: char) { Letter(c) || '0' <= c <= '9' || c == '_' }

  predicate IsName(id: seq<char>) {
    id != [] && Letter(id[0]) && forall j :: 0 <= j < |id| ==> NameChar(id[j])
  }

  predicate WellNamed(e: Expr) {
    && (match e.prim case Name(id) => IsName(id) case Group(g) => WellNamed(g))
    && (match e.rest case Done => true case OrElse(r) => WellNamed(r) case AndAlso(r) => WellNamed(r))
  }

  /** Right-nested: everything after an operator is its right operand. */
  function Meaning(defs: set<seq<char>>, e: Expr): bool {
    var v := (match e.prim case Name(id) => id in defs case Group(g) => Meaning(defs, g)) != (e.nots % 2 == 1);
    match e.rest
    case Done => v
    case OrElse(r) => v || Meaning(defs, r)
    case AndAlso(r) => v && Meaning(defs, r)
  }

  function Repeat(c: char, n: nat): (s: seq<char>)
    ensures |s| == n && forall j :: 0 <= j < n ==> s[j] == c
  {
    if n == 0 then [] else [c] + Repeat(c, n - 1)
  }

  function Text(e: Expr): seq<char>
    decreases e, 1
  {
    Repeat(' ', e.lead) + Repeat('!', e.nots) + PrimText(e) + Repeat(' ', e.gap) + RestText(e)
  }

  function PrimText(e: Expr): seq<char>
    decreases e, 0
  {
    match e.prim case Name(id) => id case Group(g) => "(" + Text(g) + ")"
  }

  function RestText(e: Expr): seq<char>
    decreases e, 0
  {
    match e.rest case Done => "" case OrElse(r) => "||" + Text(r) case AndAlso(r) => "&&" + Text(r)
  }

  // ---- closing parentheses ----

  /** Characters without parentheses do not change the search. */
  lemma {:induction false} CloseSkips(z: seq<char>, k: nat, m: nat, n: nat)
    requires k <= m <= |z| && n > 0 && forall j :: k <= j < m ==> z[j] != '(' && z[j] != ')'
    ensures Close(z, k, n) == Close(z, m, n)
    decreases m - k
  {
    if k < m { CloseSkips(z, k + 1, m, n); }
  }

  /** The text t is in z at k. */
  predicate Here(z: seq<char>, k: nat, t: seq<char>) {
    k + |t| <= |z| && z[k..k + |t|] == t
  }

  lemma HereSplit(z: seq<char>, k: nat, a: seq<char>, b: seq<char>)
    requires Here(z, k, a + b)
    ensures Here(z, k, a) && Here(z, k + |a|, b)
  {
    var t := z[k..k + |a + b|];
    assert z[k..k + |a|] == t[..|a|];
    assert z[k + |a|..k + |a| + |b|] == t[|a|..];
  }

  /** The search passes over the text of a condition, whose parentheses are balanced. */
  lemma {:induction false} CloseText(z: seq<char>, k: nat, e: Expr, n: nat)
    requires Here(z, k, Text(e)) && WellNamed(e) && n > 0
    ensures Close(z, k, n) == Close(z, k + |Text(e)|, n)
    decreases e, 1
  {
    var i1, i2, i3, i4 := Parts(z, k, e);
    CloseSkips(z, k, i2, n);
    ClosePrim(z, i2, e, n);
    CloseSkips(z, i3, i4, n);
    CloseRest(z, i4, e, n);
  }

  lemma {:induction false} CloseRest(z: seq<char>, k: nat, e: Expr, n: nat)
    requires Here(z, k, RestText(e)) && WellNamed(e) && n > 0
    ensures Close(z, k, n) == Close(z, k + |RestText(e)|, n)
    decreases e, 0
  {
    match e.rest {
      case Done =>
      case OrElse(r) => CloseOperator(z, k, "||", r, n);
      case AndAlso(r) => CloseOperator(z, k, "&&", r, n);
    }
  }

  lemma {:induction false} CloseOperator(z: seq<char>, k: nat, op: seq<char>, r: Expr, n: nat)
    requires Here(z, k, op + Text(r)) && WellNamed(r) && n > 0 && (op == "||" || op == "&&")
    ensures Close(z, k, n) == Close(z, k + |op + Text(r)|, n)
    decreases r, 2
  {
    HereSplit(z, k, op, Text(r));
    CloseSkips(z, k, k + 2, n);
    CloseText(z, k + 2, r, n);
  }

  lemma {:induction false} ClosePrim(z: seq<char>, k: nat, e: Expr, n: nat)
    requires Here(z, k, PrimText(e)) && WellNamed(e) && n > 0
    ensures Close(z, k, n) == Close(z, k + |PrimText(e)|, n)
    decreases e, 0
  {
    match e.prim {
      case Name(id) => CloseSkips(z, k, k + |id|, n);
      case Group(g) =>
        GroupParts(z, k, g);
        CloseText(z, k + 1, g, n + 1);
    }
  }

  lemma GroupParts(z: seq<char>, k: nat, g: Expr)
    requires Here(z, k, "(" + Text(g) + ")")
    ensures z[k] == '(' && Here(z, k + 1, Text(g)) && k + 1 + |Text(g)| < |z| && z[k + 1 + |Text(g)|] == ')'
  {
    HereSplit(z, k, "(" + Text(g), ")");
    HereSplit(z, k, "(", Text(g));
    assert z[k..k + 1][0] == z[k];
    var m := k + 1 + |Text(g)|;
    assert z[m..m + 1][0] == z[m];
  }

  /** The parts of the text of a condition, each at its place. */
  lemma Parts(z: seq<char>, k: nat, e: Expr) returns (i1: nat, i2: nat, i3: nat, i4: nat)
    requires Here(z, k, Text(e))
    ensures i1 == k + e.lead && i2 == i1 + e.nots && i3 == i2 + |PrimText(e)| && i4 == i3 + e.gap
    ensures i4 + |RestText(e)| == k + |Text(e)| <= |z|
    ensures forall j :: k <= j < i1 ==> z[j] == ' '
    ensures forall j :: i1 <= j < i2 ==> z[j] == '!'
    ensures forall j :: i3 <= j < i4 ==> z[j] == ' '
    ensures Here(z, i2, PrimText(e)) && Here(z, i4, RestText(e))
  {
    var a, b, c, d, f := Repeat(' ', e.lead), Repeat('!', e.nots), PrimText(e), Repeat(' ', e.gap), RestText(e);
    HereSplit(z, k, a + b + c + d, f);
    HereSplit(z, k, a + b + c, d);
    HereSplit(z, k, a + b, c);
    HereSplit(z, k, a, b);
    i1 := k + |a|;
    i2 := i1 + |b|;
    i3 := i2 + |c|;
    i4 := i3 + |d|;
    HereRepeated(z, k, a, ' ');
    HereRepeated(z, i1, b, '!');
    HereRepeated(z, i3, d, ' ');
  }

  lemma HereRepeated(z: seq<char>, k: nat, a: seq<char>, c: char)
    requires Here(z, k, a) && forall j :: 0 <= j < |a| ==> a[j] == c
    ensures forall j :: k <= j < k + |a| ==> z[j] == c
  {
    assert forall j :: k <= j < k + |a| ==> z[j] == z[k..k + |a|][j - k];
  }

  // ---- evaluation of a text is its meaning ----

  lemma {:induction false} EvalSpaces(defs: set<seq<char>>, z: seq<char>, k: nat, m: nat, neg: bool, res: bool,
          okTerm: bool)
    requires k <= m <= |z| && forall j :: k <= j < m ==> z[j] == ' '
    ensures Eval(defs, z, k, neg, res, okTerm) == Eval(defs, z, m, neg, res, okTerm)
    decreases m - k
  {
    if k < m { EvalSpaces(defs, z, k + 1, m, neg, res, okTerm); }
  }

  lemma {:induction false} EvalNots(defs: set<seq<char>>, z: seq<char>, k: nat, m: nat, neg: bool, res: bool)
    requires k <= m <= |z| && forall j :: k <= j < m ==> z[j] == '!'
    ensures Eval(defs, z, k, neg, res, true) == Eval(defs, z, m, neg != ((m - k) % 2 == 1), res, true)
    decreases m - k
  {
    if k < m { EvalNots(defs, z, k + 1, m, !neg, res); }
  }

  function PrimMeaning(defs: set<seq<char>>, e: Expr): bool {
    match e.prim case Name(id) => id in defs case Group(g) => Meaning(defs, g)
  }

  /** What follows a name is not part of it. */
  lemma AfterPrim(z: seq<char>, i3: nat, e: Expr)
    requires i3 + e.gap <= |z| && (forall j :: i3 <= j < i3 + e.gap ==> z[j] == ' ') && Here(z, i3 + e.gap, RestText(e))
    requires i3 + e.gap + |RestText(e)| == |z|
    ensures i3 < |z| ==> !IsWord(z[i3])
  {
    if e.gap == 0 && i3 < |z| {
      assert z[i3] == z[i3..i3 + |RestText(e)|][0];
    }
  }

  lemma {:induction false} WordEndIs(z: seq<char>, k: nat, m: nat)
    requires k <= m <= |z| && (forall j :: k <= j < m ==> IsWord(z[j])) && (m < |z| ==> !IsWord(z[m]))
    ensures WordEnd(z, k) == m
    decreases m - k
  {
    if k < m { WordEndIs(z, k + 1, m); }
  }

  lemma NameHere(z: seq<char>, k: nat, id: seq<char>)
    requires Here(z, k, id) && IsName(id) && (k + |id| < |z| ==> !IsWord(z[k + |id|]))
    ensures IsAlpha(z[k]) && WordEnd(z, k + 1) == k + |id| && z[k..k + |id|] == id
  {
    assert forall j :: 0 <= j < |id| ==> z[k + j] == id[j];
    assert forall j :: k <= j < k + |id| ==> z[j] == id[j - k];
    WordEndIs(z, k + 1, k + |id|);
  }

  lemma {:induction false} EvalPrim(defs: set<seq<char>>, z: seq<char>, k: nat, e: Expr, neg: bool, res: bool)
    requires Here(z, k, PrimText(e)) && WellNamed(e)
    requires var m := k + |PrimText(e)|; e.prim.Name? && m < |z| ==> !IsWord(z[m])
    ensures Eval(defs, z, k, neg, res, true) ==
      Eval(defs, z, k + |PrimText(e)|, false, PrimMeaning(defs, e) != neg, false)
    decreases e, 0, 0
  {
    match e.prim {
      case Name(id) =>
        NameHere(z, k, id);
      case Group(g) =>
        GroupParts(z, k, g);
        CloseText(z, k + 1, g, 1);
        var m := k + 1 + |Text(g)|;
        assert Close(z, k + 1, 1) == m;
        assert z[k + 1..m] == Text(g);
        EvalText(defs, Text(g), 0, g, false);
    }
  }

  /** A text that runs to the end of the line evaluates to the meaning of the condition. */
  lemma {:induction false} EvalText(defs: set<seq<char>>, z: seq<char>, k: nat, e: Expr, res: bool)
    requires Here(z, k, Text(e)) && k + |Text(e)| == |z| && WellNamed(e)
    ensures Eval(defs, z, k, false, res, true) == Value(Meaning(defs, e))
    decreases e, 1
  {
    var i4 := EvalTerm(defs, z, k, e, res);
    EvalRest(defs, z, i4, e, PrimMeaning(defs, e) != (e.nots % 2 == 1));
  }

  /** The first term, up to the operator or the end. */
  lemma {:induction false} EvalTerm(defs: set<seq<char>>, z: seq<char>, k: nat, e: Expr, res: bool) returns (i4: nat)
    requires Here(z, k, Text(e)) && k + |Text(e)| == |z| && WellNamed(e)
    ensures Here(z, i4, RestText(e)) && i4 + |RestText(e)| == |z|
    ensures Eval(defs, z, k, false, res, true) ==
      Eval(defs, z, i4, false, PrimMeaning(defs, e) != (e.nots % 2 == 1), false)
    decreases e, 0, 2
  {
    var i1, i2, i3;
    i1, i2, i3, i4 := Parts(z, k, e);
    EvalParts(defs, z, k, i1, i2, i3, i4, e, res);
  }

  lemma {:induction false} EvalParts(defs: set<seq<char>>, z: seq<char>, k: nat, i1: nat, i2: nat, i3: nat, i4: nat,
          e: Expr, res: bool)
    requires k <= i1 && i2 == i1 + e.nots && i3 == i2 + |PrimText(e)| && i4 == i3 + e.gap && i4 + |RestText(e)| == |z|
    requires WellNamed(e)
    requires (forall j :: k <= j < i1 ==> z[j] == ' ') && (forall j :: i1 <= j < i2 ==> z[j] == '!')
    requires forall j :: i3 <= j < i4 ==> z[j] == ' '
    requires Here(z, i2, PrimText(e)) && Here(z, i4, RestText(e))
    ensures Eval(defs, z, k, false, res, true) ==
      Eval(defs, z, i4, false, PrimMeaning(defs, e) != (e.nots % 2 == 1), false)
    decreases e, 0, 1
  {
    var neg := e.nots % 2 == 1;
    var v := PrimMeaning(defs, e) != neg;
    AfterPrim(z, i3, e);
    calc {
      Eval(defs, z, k, false, res, true);
      { EvalLead(defs, z, k, i1, i2, res); }
      Eval(defs, z, i2, neg, res, true);
      { EvalPrim(defs, z, i2, e, neg, res); }
      Eval(defs, z, i3, false, v, false);
      { EvalSpaces(defs, z, i3, i4, false, v, false); }
      Eval(defs, z, i4, false, v, false);
    }
  }

  /** The spaces and negations before a term. */
  lemma EvalLead(defs: set<seq<char>>, z: seq<char>, k: nat, i1: nat, i2: nat, res: bool)
    requires k <= i1 <= i2 <= |z| && (forall j :: k <= j < i1 ==> z[j] == ' ')
    requires forall j :: i1 <= j < i2 ==> z[j] == '!'
    ensures Eval(defs, z, k, false, res, true) == Eval(defs, z, i2, (i2 - i1) % 2 == 1, res, true)
  {
    EvalSpaces(defs, z, k, i1, false, res, true);
    EvalNots(defs, z, i1, i2, false, res);
  }

  lemma {:induction false} EvalRest(defs: set<seq<char>>, z: seq<char>, k: nat, e: Expr, v: bool)
    requires Here(z, k, RestText(e)) && k + |RestText(e)| == |z| && WellNamed(e)
    ensures Eval(defs, z, k, false, v, false) == Value(match e.rest
      case Done => v
      case OrElse(r) => v || Meaning(defs, r)
      case AndAlso(r) => v && Meaning(defs, r))
    decreases e, 0
  {
    match e.rest {
      case Done =>
      case OrElse(r) =>
        OperatorParts(z, k, "||", r);
        if !v { EvalText(defs, z, k + 2, r, v); }
      case AndAlso(r) =>
        OperatorParts(z, k, "&&", r);
        if v { EvalText(defs, z, k + 2, r, v); }
    }
  }

  lemma OperatorParts(z: seq<char>, k: nat, op: seq<char>, r: Expr)
    requires Here(z, k, op + Text(r)) && |op| == 2
    ensures k + 2 <= |z| && z[k] == op[0] && z[k + 1] == op[1] && Here(z, k + 2, Text(r))
  {
    HereSplit(z, k, op, Text(r));
    assert z[k..k + 2][0] == z[k] && z[k..k + 2][1] == z[k + 1];
  }

  /** Every condition evaluates, right-nested and short-circuited, to what it means. */
  lemma ConditionsEvaluate(defs: set<seq<char>>, e: Expr)
    requires WellNamed(e)
    ensures Eval(defs, Text(e), 0, false, false, true) == Value(Meaning(defs, e))
  {
    EvalText(defs, Text(e), 0, e, false);
  }

  // ---- texts that are no conditions ----

  predicate White(c: char) {
    c == ' ' || c == '\t' || c == '\n' || c == '\r' || c == '\U{b}' || c == '\U{c}'
  }

  predicate StartsOperator(t: seq<char>) {
    |t| >= 2 && ((t[0] == '|' && t[1] == '|') || (t[0] == '&' && t[1] == '&'))
  }

  /** Nothing that can stand at the beginning of a term or of an operator. */
  predicate Stray(t: seq<char>) {
    && t != [] && !White(t[0]) && !Letter(t[0]) && t[0] != '!' && t[0] != '(' && !StartsOperator(t)
  }

  lemma Following(a: seq<char>, t: seq<char>)
    requires t != []
    ensures var z := a + t; z[|a|] == t[0] && At(z, |a| + 1) == At(t, 1)
  {
  }

  /** Spaces and negations that no term follows, but an operator or anything strange. */
  lemma NoTerm(defs: set<seq<char>>, n: nat, m: nat, t: seq<char>)
    requires StartsOperator(t) || Stray(t)
    ensures Eval(defs, Repeat(' ', n) + Repeat('!', m) + t, 0, false, false, true) == SyntaxError(n + m)
  {
    var a := Repeat(' ', n) + Repeat('!', m);
    Following(a, t);
    EvalLead(defs, a + t, 0, n, n + m, false);
  }

  /** A complete condition that something other than an operator follows: the error is where that begins. */
  lemma TwoTerms(defs: set<seq<char>>, e: Expr, t: seq<char>)
    requires WellNamed(e) && e.rest.Done? && t != []
    requires Stray(t) || t[0] == '!' || t[0] == '(' || Letter(t[0])
    requires e.prim.Name? && e.gap == 0 ==> !NameChar(t[0])
    ensures Eval(defs, Text(e) + t, 0, false, false, true) == SyntaxError(|Text(e)|)
  {
    var z := Text(e) + t;
    assert z[..|Text(e)|] == Text(e);
    var i1, i2, i3, i4 := Parts(z, 0, e);
    Following(Text(e), t);
    AfterFirst(z, i3, e, t);
    FirstTerm(defs, z, i1, i2, i3, i4, e);
    Misplaced(defs, z, i4, t, PrimMeaning(defs, e) != (e.nots % 2 == 1));
  }

  /** One term, whatever follows it. */
  lemma FirstTerm(defs: set<seq<char>>, z: seq<char>, i1: nat, i2: nat, i3: nat, i4: nat, e: Expr)
    requires i2 == i1 + e.nots && i3 == i2 + |PrimText(e)| && i3 <= i4 <= |z| && WellNamed(e)
    requires (forall j :: 0 <= j < i1 ==> z[j] == ' ') && (forall j :: i1 <= j < i2 ==> z[j] == '!')
    requires Here(z, i2, PrimText(e)) && (forall j :: i3 <= j < i4 ==> z[j] == ' ')
    requires e.prim.Name? && i3 < |z| ==> !IsWord(z[i3])
    ensures Eval(defs, z, 0, false, false, true) ==
      Eval(defs, z, i4, false, PrimMeaning(defs, e) != (e.nots % 2 == 1), false)
  {
    var b := e.nots % 2 == 1;
    var v := PrimMeaning(defs, e) != b;
    calc {
      Eval(defs, z, 0, false, false, true);
      { EvalLead(defs, z, 0, i1, i2, false); }
      Eval(defs, z, i2, b, false, true);
      { EvalPrim(defs, z, i2, e, b, false); }
      Eval(defs, z, i3, false, v, false);
      { EvalSpaces(defs, z, i3, i4, false, v, false); }
      Eval(defs, z, i4, false, v, false);
    }
  }

  lemma AfterFirst(z: seq<char>, i3: nat, e: Expr, t: seq<char>)
    requires i3 + e.gap < |z| && (forall j :: i3 <= j < i3 + e.gap ==> z[j] == ' ')
    requires t != [] && z[i3 + e.gap] == t[0] && (e.prim.Name? && e.gap == 0 ==> !NameChar(t[0]))
    ensures e.prim.Name? ==> !IsWord(z[i3])
  {
  }

  lemma Misplaced(defs: set<seq<char>>, z: seq<char>, k: nat, t: seq<char>, res: bool)
    requires t != [] && k < |z| && z[k] == t[0] && At(z, k + 1) == At(t, 1)
    requires Stray(t) || t[0] == '!' || t[0] == '(' || Letter(t[0])
    ensures Eval(defs, z, k, false, res, false) == SyntaxError(k)
  {
  }

  /** An error in parentheses is an error at its place in the whole text. */
  lemma ErrorInside(defs: set<seq<char>>, n: nat, m: nat, t: seq<char>, u: seq<char>, at: nat)
    requires forall k :: 0 <= k < |t| ==> t[k] != '(' && t[k] != ')'
    requires Eval(defs, t, 0, false, false, true) == SyntaxError(at)
    ensures Eval(defs, Repeat(' ', n) + Repeat('!', m) + ("(" + t + ")" + u), 0, false, false, true) ==
      SyntaxError(n + m + 1 + at)
  {
    var a, b := Repeat(' ', n) + Repeat('!', m), "(" + t + ")" + u;
    var z, i := a + b, n + m;
    EvalLead(defs, z, 0, n, i, false);
    Following(a, b);
    var k := i + 1 + |t|;
    assert z[i + 1..k] == t && z[k] == ')';
    CloseSkips(z, i + 1, k, 1);
  }

  /** A parenthesis that is never closed stands for a false term: with an operator and a condition behind it ... */
  lemma UnclosedTerm(defs: set<seq<char>>, n: nat, m: nat, g: nat, e: Expr)
    requires WellNamed(e) && forall k :: 0 <= k < |Text(e)| ==> Text(e)[k] != ')'
    ensures var a := Repeat(' ', n) + Repeat('!', m) + "(" + Repeat(' ', g);
      && Eval(defs, a + ("||" + Text(e)), 0, false, false, true) == Value(m % 2 == 1 || Meaning(defs, e))
      && Eval(defs, a + ("&&" + Text(e)), 0, false, false, true) == Value(m % 2 == 1 && Meaning(defs, e))
  {
    UnclosedOperator(defs, n, m, g, "||", e);
    UnclosedOperator(defs, n, m, g, "&&", e);
  }

  lemma UnclosedOperator(defs: set<seq<char>>, n: nat, m: nat, g: nat, op: seq<char>, e: Expr)
    requires WellNamed(e) && (op == "||" || op == "&&") && forall k :: 0 <= k < |Text(e)| ==> Text(e)[k] != ')'
    ensures Eval(defs, Repeat(' ', n) + Repeat('!', m) + "(" + Repeat(' ', g) + (op + Text(e)), 0, false, false, true)
      == Value(if op == "||" then m % 2 == 1 || Meaning(defs, e) else m % 2 == 1 && Meaning(defs, e))
  {
    var b, t, i := Repeat(' ', n) + Repeat('!', m) + "(" + Repeat(' ', g), op + Text(e), n + m + 1 + g;
    var z := b + t;
    UnclosedStart(defs, n, m, g, t);
    assert z[i..i + |t|] == t;
    OperatorEvaluates(defs, z, i, op, e, m % 2 == 1);
  }

  lemma OperatorEvaluates(defs: set<seq<char>>, z: seq<char>, i: nat, op: seq<char>, e: Expr, res: bool)
    requires Here(z, i, op + Text(e)) && i + |op + Text(e)| == |z| && WellNamed(e) && (op == "||" || op == "&&")
    ensures Eval(defs, z, i, false, res, false) ==
      Value(if op == "||" then res || Meaning(defs, e) else res && Meaning(defs, e))
  {
    OperatorParts(z, i, op, e);
    if res == (op == "&&") { EvalText(defs, z, i + 2, e, res); }
  }

  lemma UnclosedStart(defs: set<seq<char>>, n: nat, m: nat, g: nat, t: seq<char>)
    requires forall k :: 0 <= k < |t| ==> t[k] != ')'
    ensures var z := Repeat(' ', n) + Repeat('!', m) + "(" + Repeat(' ', g) + t;
      Eval(defs, z, 0, false, false, true) == Eval(defs, z, n + m + 1 + g, false, m % 2 == 1, false)
  {
    var z := Repeat(' ', n) + Repeat('!', m) + "(" + Repeat(' ', g) + t;
    EvalLead(defs, z, 0, n, n + m, false);
    NeverClosed(z, n + m + 1, 1);
    EvalSpaces(defs, z, n + m + 1, n + m + 1 + g, false, m % 2 == 1, false);
  }

  /** ... or with nothing; anything else is a syntax error. */
  lemma Unclosed(defs: set<seq<char>>, n: nat, m: nat, g: nat, t: seq<char>)
    requires forall k :: 0 <= k < |t| ==> t[k] != ')'
    ensures var r := Eval(defs, Repeat(' ', n) + Repeat('!', m) + "(" + Repeat(' ', g) + t, 0, false, false, true);
      && (t == [] ==> r == Value(m % 2 == 1))
      && (t != [] && (Stray(t) || t[0] == '!' || t[0] == '(' || Letter(t[0])) ==> r == SyntaxError(n + m + 1 + g))
  {
    var b := Repeat(' ', n) + Repeat('!', m) + "(" + Repeat(' ', g);
    UnclosedStart(defs, n, m, g, t);
    if t != [] { Following(b, t); }
  }

  lemma {:induction false} NeverClosed(z: seq<char>, k: nat, n: nat)
    requires k <= |z| && n > 0 && forall j :: k <= j < |z| ==> z[j] != ')'
    ensures Close(z, k, n) == |z|
    decreases |z| - k
  {
    if k < |z| { NeverClosed(z, k + 1, if z[k] == '(' then n + 1 else n); }
  }

  // ---- all white space is alike ----

  /** The same text, except that white space may be other white space. */
  ghost predicate SameButSpace(y: seq<char>, z: seq<char>) {
    |y| == |z| && forall j :: 0 <= j < |z| ==> y[j] == z[j] || (White(y[j]) && White(z[j]))
  }

  lemma {:induction false} CloseSame(y: seq<char>, z: seq<char>, k: nat, n: nat)
    requires SameButSpace(y, z) && k <= |z| && n > 0
    ensures Close(y, k, n) == Close(z, k, n)
    decreases |z| - k
  {
    if k < |z| {
      if z[k] == ')' {
        if n > 1 { CloseSame(y, z, k + 1, n - 1); }
      } else {
        CloseSame(y, z, k + 1, if z[k] == '(' then n + 1 else n);
      }
    }
  }

  lemma {:induction false} WordSame(y: seq<char>, z: seq<char>, k: nat)
    requires SameButSpace(y, z) && k <= |z|
    ensures WordEnd(y, k) == WordEnd(z, k) && y[k..WordEnd(z, k)] == z[k..WordEnd(z, k)]
    decreases |z| - k
  {
    if k < |z| && IsWord(z[k]) { WordSame(y, z, k + 1); }
  }

  /** Tabs and the other white space characters count as spaces. */
  lemma {:induction false} SpaceAlike(defs: set<seq<char>>, y: seq<char>, z: seq<char>, i: nat, neg: bool, res: bool,
          okTerm: bool)
    requires SameButSpace(y, z) && i <= |z|
    ensures Eval(defs, y, i, neg, res, okTerm) == Eval(defs, z, i, neg, res, okTerm)
    decreases |z|, |z| - i, 1
  {
    if i == |z| || (z[i] != y[i]) || IsSpace(z[i]) {
      if i < |z| { SpaceAlike(defs, y, z, i + 1, neg, res, okTerm); }
    } else if z[i] == '!' {
      if okTerm { SpaceAlike(defs, y, z, i + 1, !neg, res, okTerm); }
    } else if z[i] == '|' || z[i] == '&' {
      if At(z, i + 1) == z[i] && !okTerm && res == (z[i] == '&') { SpaceAlike(defs, y, z, i + 2, neg, res, true); }
    } else if z[i] == '(' {
      if okTerm { GroupAlike(defs, y, z, i, neg, res); }
    } else if IsAlpha(z[i]) {
      if okTerm {
        WordSame(y, z, i);
        var k := WordEnd(z, i + 1);
        SpaceAlike(defs, y, z, k, false, (z[i..k] in defs) != neg, false);
      }
    }
  }

  lemma {:induction false} GroupAlike(defs: set<seq<char>>, y: seq<char>, z: seq<char>, i: nat, neg: bool, res: bool)
    requires SameButSpace(y, z) && i < |z| && z[i] == '(' == y[i]
    ensures Eval(defs, y, i, neg, res, true) == Eval(defs, z, i, neg, res, true)
    decreases |z|, |z| - i, 0
  {
    CloseSame(y, z, i + 1, 1);
    var k := Close(z, i + 1, 1);
    if k == |z| {
      SpaceAlike(defs, y, z, i + 1, false, res != neg, false);
    } else {
      SpaceAlike(defs, y[i + 1..k], z[i + 1..k], 0, false, false, true);
      var r := Eval(defs, z[i + 1..k], 0, false, false, true);
      if r.Value? { SpaceAlike(defs, y, z, k + 1, false, r.b != neg, false); }
    }
  }
}
