/** preprocess_input: %if, %ifdef, %ifndef, %else and %endif lines, with one counter where the meaning
is a stack of open conditionals. */
module Preprocess {
  import opened Conditions
  import Seals

  datatype Directive = NoDirective | EndIf | Else | If(isNot: bool, cond: seq<char>)

  /** The first newline from i on, or the end. */
  function LineEnd(z: seq<char>, i: nat): (e: nat)
    requires i <= |z|
    ensures i <= e <= |z| && (forall j :: i <= j < e ==> z[j] != '\n') && (e < |z| ==> z[e] == '\n')
    decreases |z| - i
  {
    if i == |z| || z[i] == '\n' then i else LineEnd(z, i + 1)
  }

  /** The first white space from i on, or the end. */
  function KeywordEnd(z: seq<char>, i: nat): (e: nat)
    requires i <= |z|
    ensures i <= e <= LineEnd(z, i)
    decreases |z| - i
  {
    if i == |z| || IsSpace(z[i]) then i else KeywordEnd(z, i + 1)
  }

  predicate AtLineStart(z: seq<char>, i: nat)
    requires i <= |z|
  {
    i == 0 || z[i - 1] == '\n'
  }

  /** The directive that starts at position i. */
  function DirectiveAt(z: seq<char>, i: nat): Directive
    requires i < |z|
  {
    if z[i] != '%' || !AtLineStart(z, i) then NoDirective
    else if Here(z, i, "%endif") && IsSpace(At(z, i + 6)) then EndIf
    else if Here(z, i, "%else") && IsSpace(At(z, i + 5)) then Else
    else if Here(z, i, "%ifdef ") || Here(z, i, "%if ") || Here(z, i, "%ifndef ") then
      var j := KeywordEnd(z, i);
      If(j == i + 7, z[j..LineEnd(z, i)])
    else NoDirective
  }

  // ---- the meaning: a stack of conditionals ----

  /** Whether the current branch of each open conditional is taken; or a condition did not parse. */
  datatype Nesting = Open(taken: seq<bool>) | Malformed

  /** From the outermost branch that is not taken up to the innermost: 0 if all are taken. */
  function Excluded(taken: seq<bool>): nat {
    if taken == [] then 0
    else
      var n := |taken| - 1;
      var e := Excluded(taken[..n]);
      if e > 0 then e + 1 else if taken[n] then 0 else 1
  }

  lemma {:induction false} ExcludedMeans(taken: seq<bool>)
    ensures Excluded(taken) == 0 <==> forall k :: 0 <= k < |taken| ==> taken[k]
  {
    if taken != [] {
      var n := |taken| - 1;
      ExcludedMeans(taken[..n]);
      assert taken == taken[..n] + [taken[n]];
    }
  }

  /** The effect of one directive on the open conditionals. A condition is looked at only where all
      enclosing branches are taken. An %else outside of any conditional opens one whose branch is not taken. */
  function Apply(defs: set<seq<char>>, taken: seq<bool>, d: Directive): Nesting {
    match d
    case NoDirective => Open(taken)
    case EndIf => Open(if taken == [] then [] else taken[..|taken| - 1])
    case Else => Open(if taken == [] then [false] else taken[..|taken| - 1] + [!taken[|taken| - 1]])
    case If(isNot, cond) =>
      if Excluded(taken) > 0 then Open(taken + [true])
      else
        match Eval(defs, cond, 0, false, false, true)
        case SyntaxError(_) => Malformed
        case Value(b) => Open(taken + [b != isNot])
  }

  /** The conditionals open at position i. */
  function Nest(defs: set<seq<char>>, z: seq<char>, i: nat): Nesting
    requires i <= |z|
  {
    if i == 0 then Open([])
    else
      match Nest(defs, z, i - 1)
      case Malformed => Malformed
      case Open(taken) => Apply(defs, taken, DirectiveAt(z, i - 1))
  }

  lemma {:induction false} NestPrefix(defs: set<seq<char>>, z: seq<char>, i: nat, j: nat)
    requires i <= j <= |z| && Nest(defs, z, j).Open?
    ensures Nest(defs, z, i).Open?
    decreases j
  {
    if i < j { NestPrefix(defs, z, i, j - 1); }
  }

  /** Where the line of position j starts. */
  function LineStart(z: seq<char>, j: nat): (s: nat)
    requires j <= |z|
    ensures s <= j && AtLineStart(z, s) && forall k :: s <= k < j ==> z[k] != '\n'
  {
    if AtLineStart(z, j) then j else LineStart(z, j - 1)
  }

  predicate InDirective(z: seq<char>, j: nat)
    requires j < |z|
  {
    DirectiveAt(z, LineStart(z, j)) != NoDirective
  }

  function Blank(c: char): char {
    if c == '\n' then '\n' else ' '
  }

  /** What is left at position j: newlines stay; text survives exactly when it is not part of a directive
      and every enclosing branch is taken. */
  function Survivor(defs: set<seq<char>>, z: seq<char>, j: nat): char
    requires j < |z|
  {
    if InDirective(z, j) || (Nest(defs, z, j).Open? && Excluded(Nest(defs, z, j).taken) > 0) then Blank(z[j]) else z[j]
  }

  // ---- the counter follows the stack ----

  /** The new value of the counter, given the current one and the outcome of the condition. */
  function Count(exclude: nat, d: Directive, b: bool): nat {
    match d
    case NoDirective => exclude
    case EndIf => if exclude > 0 then exclude - 1 else 0
    case Else => if exclude == 1 then 0 else if exclude == 0 then 1 else exclude
    case If(isNot, _) => if exclude > 0 then exclude + 1 else if b != isNot then 0 else 1
  }

  lemma CounterFollows(defs: set<seq<char>>, taken: seq<bool>, d: Directive, b: bool)
    requires Apply(defs, taken, d).Open?
    requires d.If? && Excluded(taken) == 0 ==> Eval(defs, d.cond, 0, false, false, true) == Value(b)
    ensures Excluded(Apply(defs, taken, d).taken) == Count(Excluded(taken), d, b)
  {
    var t := Apply(defs, taken, d).taken;
    match d {
      case NoDirective =>
      case EndIf =>
      case Else => if taken != [] { assert t[..|t| - 1] == taken[..|taken| - 1]; }
      case If(_, _) => assert t[..|t| - 1] == taken;
    }
  }

  // ---- the loop ----

  /** The buffer at the top of the loop: e is the end of the last directive line, start the beginning of
      the excluded region. */
  ghost predicate Tracks(defs: set<seq<char>>, z: seq<char>, a: seq<char>, i: nat, e: nat, exclude: nat, start: nat) {
    && |a| == |z| && i <= |z| && e <= |z| && start <= i
    && (forall j :: 0 <= j < |z| ==> (a[j] == '\n' <==> z[j] == '\n'))
    && TextAhead(z, a, i, e) && LinesEnd(z, i, e) && NestTracked(defs, z, a, i, exclude, start)
  }

  /** From i on the text is untouched, except for what is left of the last directive line. */
  ghost predicate TextAhead(z: seq<char>, a: seq<char>, i: nat, e: nat)
    requires |a| == |z| && e <= |z|
  {
    && (forall j :: i <= j < |z| && e <= j ==> a[j] == z[j])
    && (forall j :: i <= j < e ==> a[j] == ' ' && InDirective(z, j) && LineStart(z, j) < i)
  }

  /** All directive lines before i end by e. */
  ghost predicate LinesEnd(z: seq<char>, i: nat, e: nat)
    requires i <= |z|
  {
    forall s :: 0 <= s < i && DirectiveAt(z, s) != NoDirective ==> LineEnd(z, s) <= e
  }

  /** The counter is that of the nesting, and what comes before the excluded region is what survives. */
  ghost predicate NestTracked(defs: set<seq<char>>, z: seq<char>, a: seq<char>, i: nat, exclude: nat, start: nat)
    requires |a| == |z| && start <= i <= |z|
  {
    Nest(defs, z, i).Open? ==>
      && exclude == Excluded(Nest(defs, z, i).taken)
      && (forall j :: 0 <= j < (if exclude > 0 then start else i) ==> a[j] == Survivor(defs, z, j))
      && (exclude > 0 ==> forall j :: start <= j < i ==> Survivor(defs, z, j) == Blank(z[j]))
  }

  lemma HereSame(z: seq<char>, a: seq<char>, i: nat, t: seq<char>)
    requires |a| == |z| && forall j :: i <= j < |z| ==> a[j] == z[j]
    ensures Here(a, i, t) <==> Here(z, i, t)
  {
    if i + |t| <= |z| { assert a[i..i + |t|] == z[i..i + |t|]; }
  }

  lemma {:induction false} EndsSame(z: seq<char>, a: seq<char>, i: nat)
    requires |a| == |z| && i <= |z| && forall j :: i <= j < |z| ==> a[j] == z[j]
    ensures LineEnd(a, i) == LineEnd(z, i) && KeywordEnd(a, i) == KeywordEnd(z, i)
    decreases |z| - i
  {
    if i < |z| { EndsSame(z, a, i + 1); }
  }

  lemma DirectiveSame(z: seq<char>, a: seq<char>, i: nat)
    requires |a| == |z| && i < |z| && a[i..] == z[i..] && (i > 0 ==> (a[i - 1] == '\n' <==> z[i - 1] == '\n'))
    ensures DirectiveAt(a, i) == DirectiveAt(z, i)
  {
    assert forall j :: i <= j < |z| ==> a[j] == a[i..][j - i] == z[i..][j - i] == z[j];
    HereSame(z, a, i, "%endif");
    HereSame(z, a, i, "%else");
    HereSame(z, a, i, "%ifdef ");
    HereSame(z, a, i, "%if ");
    HereSame(z, a, i, "%ifndef ");
    EndsSame(z, a, i);
    var j, e := KeywordEnd(z, i), LineEnd(z, i);
    assert a[j..e] == z[j..e];
  }

  lemma {:induction false} LineStartIs(z: seq<char>, s: nat, j: nat)
    requires s <= j <= |z| && AtLineStart(z, s) && forall k :: s <= k < j ==> z[k] != '\n'
    ensures LineStart(z, j) == s
    decreases j
  {
    if s < j { LineStartIs(z, s, j - 1); }
  }

  lemma NotInDirective(z: seq<char>, i: nat, e: nat)
    requires e <= i < |z| && z[i] != '\n' && DirectiveAt(z, i) == NoDirective
    requires LinesEnd(z, i, e)
    ensures !InDirective(z, i)
  {
    var s := LineStart(z, i);
    assert LineEnd(z, s) > i;
  }

  lemma SkipSurvivor(defs: set<seq<char>>, z: seq<char>, i: nat, c: char, e: nat)
    requires i < |z| && DirectiveAt(z, i) == NoDirective && Nest(defs, z, i).Open?
    requires if i < e then c == ' ' && InDirective(z, i) && z[i] != '\n'
      else c == z[i] && (z[i] != '\n' ==> !InDirective(z, i))
    ensures Nest(defs, z, i + 1) == Nest(defs, z, i)
    ensures if Excluded(Nest(defs, z, i).taken) > 0 then Survivor(defs, z, i) == Blank(z[i])
      else c == Survivor(defs, z, i)
  {
  }

  /** Past a position that starts no directive. */
  lemma TracksSkip(defs: set<seq<char>>, z: seq<char>, a: seq<char>, i: nat, e: nat, exclude: nat, start: nat)
    requires Tracks(defs, z, a, i, e, exclude, start) && i < |z| && DirectiveAt(z, i) == NoDirective
    ensures Tracks(defs, z, a, i + 1, e, exclude, start)
  {
    if i >= e && z[i] != '\n' { NotInDirective(z, i, e); }
    assert LinesEnd(z, i + 1, e);
    NestSkip(defs, z, a, i, e, exclude, start);
  }

  lemma NestSkip(defs: set<seq<char>>, z: seq<char>, a: seq<char>, i: nat, e: nat, exclude: nat, start: nat)
    requires |a| == |z| && start <= i < |z| && NestTracked(defs, z, a, i, exclude, start)
    requires DirectiveAt(z, i) == NoDirective
    requires if i < e then a[i] == ' ' && InDirective(z, i) && z[i] != '\n'
      else a[i] == z[i] && (z[i] != '\n' ==> !InDirective(z, i))
    ensures NestTracked(defs, z, a, i + 1, exclude, start)
  {
    if Nest(defs, z, i).Open? {
      SkipSurvivor(defs, z, i, a[i], e);
    } else {
      assert !Nest(defs, z, i + 1).Open?;
    }
  }

  /** The buffer after a directive at i: its line is blanked, and so is the excluded region if it ends here. */
  ghost predicate Blanked(z: seq<char>, a: seq<char>, a': seq<char>, i: nat, exclude: nat, exclude': nat, start: nat)
    requires |a| == |z| && i <= |z|
  {
    && |a'| == |a|
    && forall j :: 0 <= j < |a| ==>
         a'[j] == if i <= j < LineEnd(z, i) then ' '
           else if exclude > 0 && exclude' == 0 && start <= j < i then Blank(a[j]) else a[j]
  }

  lemma EarlierLines(z: seq<char>, i: nat, e: nat)
    requires e <= i < |z| && LinesEnd(z, i, e)
    ensures LinesEnd(z, i + 1, LineEnd(z, i))
  {
  }

  lemma DirectiveSurvivors(defs: set<seq<char>>, z: seq<char>, a: seq<char>, a': seq<char>, i: nat, e: nat,
          exclude: nat, start: nat, exclude': nat)
    requires |a| == |z| && start <= i < |z| && e <= i && DirectiveAt(z, i) != NoDirective && Nest(defs, z, i).Open?
    requires NestTracked(defs, z, a, i, exclude, start) && TextAhead(z, a, i, e)
    requires forall j :: 0 <= j < |z| ==> (a[j] == '\n' <==> z[j] == '\n')
    requires Blanked(z, a, a', i, exclude, exclude', start)
    ensures Survivor(defs, z, i) == Blank(z[i]) == a'[i]
    ensures exclude == 0 || exclude' == 0 ==> forall j :: 0 <= j < i ==> a'[j] == Survivor(defs, z, j)
    ensures exclude > 0 && exclude' > 0 ==> forall j :: 0 <= j < start ==> a'[j] == Survivor(defs, z, j)
  {
    SurvivorHere(defs, z, i);
    forall j | 0 <= j < i
      ensures exclude == 0 || exclude' == 0 || j < start ==> a'[j] == Survivor(defs, z, j)
    {
      SurvivorBefore(defs, z, a, a', i, exclude, start, exclude', j);
    }
  }

  lemma SurvivorHere(defs: set<seq<char>>, z: seq<char>, i: nat)
    requires i < |z| && DirectiveAt(z, i) != NoDirective
    ensures Survivor(defs, z, i) == Blank(z[i]) == ' ' && LineEnd(z, i) > i
  {
    LineStartIs(z, i, i);
  }

  lemma SurvivorBefore(defs: set<seq<char>>, z: seq<char>, a: seq<char>, a': seq<char>, i: nat,
          exclude: nat, start: nat, exclude': nat, j: nat)
    requires |a| == |z| && start <= i < |z| && j < i && Nest(defs, z, i).Open? && (a[j] == '\n' <==> z[j] == '\n')
    requires NestTracked(defs, z, a, i, exclude, start) && Blanked(z, a, a', i, exclude, exclude', start)
    ensures exclude == 0 || exclude' == 0 || j < start ==> a'[j] == Survivor(defs, z, j)
  {
  }

  lemma TracksDirective(defs: set<seq<char>>, z: seq<char>, a: seq<char>, a': seq<char>, i: nat, e: nat, exclude: nat,
          start: nat, d: Directive, b: bool, exclude': nat, start': nat)
    requires Tracks(defs, z, a, i, e, exclude, start) && e <= i < |z| && d == DirectiveAt(z, i) != NoDirective
    requires exclude' == Count(exclude, d, b) && start' == (if exclude == 0 && exclude' > 0 then i else start)
    requires d.If? && exclude == 0 ==> Eval(defs, d.cond, 0, false, false, true) == Value(b)
    requires Blanked(z, a, a', i, exclude, exclude', start)
    ensures Tracks(defs, z, a', i + 1, LineEnd(z, i), exclude', start')
  {
    EarlierLines(z, i, e);
    TextDirective(z, a, a', i, e, exclude, exclude', start);
    NestDirective(defs, z, a, a', i, e, exclude, start, d, b, exclude', start');
  }

  lemma TextDirective(z: seq<char>, a: seq<char>, a': seq<char>, i: nat, e: nat, exclude: nat, exclude': nat,
          start: nat)
    requires |a| == |z| && e <= i < |z| && start <= i && TextAhead(z, a, i, e) && DirectiveAt(z, i) != NoDirective
    requires forall j :: 0 <= j < |z| ==> (a[j] == '\n' <==> z[j] == '\n')
    requires Blanked(z, a, a', i, exclude, exclude', start)
    ensures TextAhead(z, a', i + 1, LineEnd(z, i))
    ensures forall j :: 0 <= j < |z| ==> (a'[j] == '\n' <==> z[j] == '\n')
  {
    forall j | i <= j < LineEnd(z, i) ensures InDirective(z, j) && LineStart(z, j) == i { LineStartIs(z, i, j); }
  }

  lemma NestDirective(defs: set<seq<char>>, z: seq<char>, a: seq<char>, a': seq<char>, i: nat, e: nat, exclude: nat,
          start: nat, d: Directive, b: bool, exclude': nat, start': nat)
    requires |a| == |z| && start <= i < |z| && e <= i && d == DirectiveAt(z, i) != NoDirective
    requires NestTracked(defs, z, a, i, exclude, start) && TextAhead(z, a, i, e)
    requires forall j :: 0 <= j < |z| ==> (a[j] == '\n' <==> z[j] == '\n')
    requires exclude' == Count(exclude, d, b) && start' == (if exclude == 0 && exclude' > 0 then i else start)
    requires d.If? && exclude == 0 ==> Eval(defs, d.cond, 0, false, false, true) == Value(b)
    requires Blanked(z, a, a', i, exclude, exclude', start)
    ensures NestTracked(defs, z, a', i + 1, exclude', start')
  {
    if Nest(defs, z, i + 1).Open? {
      CountNext(defs, z, i, d, b);
      DirectiveSurvivors(defs, z, a, a', i, e, exclude, start, exclude');
      NestThere(defs, z, a', i + 1, exclude, start, exclude', start');
    }
  }

  /** What is needed one position further. */
  lemma NestThere(defs: set<seq<char>>, z: seq<char>, a: seq<char>, i: nat, exclude: nat, start: nat, exclude': nat,
          start': nat)
    requires |a| == |z| && 0 < i <= |z| && start < i
    requires start' == (if exclude == 0 && exclude' > 0 then i - 1 else start)
    requires Nest(defs, z, i).Open? && exclude' == Excluded(Nest(defs, z, i).taken)
    requires Survivor(defs, z, i - 1) == Blank(z[i - 1]) == a[i - 1]
    requires exclude == 0 || exclude' == 0 ==> forall j :: 0 <= j < i - 1 ==> a[j] == Survivor(defs, z, j)
    requires exclude > 0 && exclude' > 0 ==> forall j :: 0 <= j < start ==> a[j] == Survivor(defs, z, j)
    requires exclude > 0 ==> forall j :: start <= j < i - 1 ==> Survivor(defs, z, j) == Blank(z[j])
    ensures NestTracked(defs, z, a, i, exclude', start')
  {
    var left := seq(|z|, j requires 0 <= j < |z| => Survivor(defs, z, j));
    assert forall j :: 0 <= j < |z| ==> left[j] == Survivor(defs, z, j);
    RegionsThere(z, a, left, i, exclude, start, exclude', start');
  }

  lemma RegionsThere(z: seq<char>, a: seq<char>, left: seq<char>, i: nat, exclude: nat, start: nat, exclude': nat,
          start': nat)
    requires |a| == |z| == |left| && 0 < i <= |z| && start < i
    requires start' == (if exclude == 0 && exclude' > 0 then i - 1 else start)
    requires left[i - 1] == Blank(z[i - 1]) == a[i - 1]
    requires exclude == 0 || exclude' == 0 ==> forall j :: 0 <= j < i - 1 ==> a[j] == left[j]
    requires exclude > 0 && exclude' > 0 ==> forall j :: 0 <= j < start ==> a[j] == left[j]
    requires exclude > 0 ==> forall j :: start <= j < i - 1 ==> left[j] == Blank(z[j])
    ensures forall j :: 0 <= j < (if exclude' > 0 then start' else i) ==> a[j] == left[j]
    ensures exclude' > 0 ==> forall j :: start' <= j < i ==> left[j] == Blank(z[j])
  {
  }

  lemma NestNext(defs: set<seq<char>>, z: seq<char>, i: nat, d: Directive)
    requires i < |z| && d == DirectiveAt(z, i) != NoDirective && Nest(defs, z, i + 1).Open?
    ensures Nest(defs, z, i).Open? && Nest(defs, z, i + 1) == Apply(defs, Nest(defs, z, i).taken, d)
  {
  }

  lemma CountNext(defs: set<seq<char>>, z: seq<char>, i: nat, d: Directive, b: bool)
    requires i < |z| && d == DirectiveAt(z, i) != NoDirective && Nest(defs, z, i + 1).Open?
    requires Nest(defs, z, i).Open? && d.If? && Excluded(Nest(defs, z, i).taken) == 0 ==>
      Eval(defs, d.cond, 0, false, false, true) == Value(b)
    ensures Nest(defs, z, i).Open?
    ensures Excluded(Nest(defs, z, i + 1).taken) == Count(Excluded(Nest(defs, z, i).taken), d, b)
  {
    NestNext(defs, z, i, d);
    CounterFollows(defs, Nest(defs, z, i).taken, d, b);
  }

  datatype Verdict = Complete | BadCondition | Unterminated

  /** Blank the text from lo to hi, newlines excepted. */
  method BlankRegion(z: array<char>, lo: nat, hi: nat)
    requires lo <= hi <= z.Length
    modifies z
    ensures forall j :: 0 <= j < z.Length ==> z[j] == if lo <= j < hi then Blank(old(z[j])) else old(z[j])
  {
    for j := lo to hi
      invariant forall k :: 0 <= k < z.Length ==> z[k] == if lo <= k < j then Blank(old(z[k])) else old(z[k])
    {
      if z[j] != '\n' { z[j] := ' '; }
    }
  }

  method BlankLine(z: array<char>, i: nat)
    requires i <= z.Length
    modifies z
    ensures forall j :: 0 <= j < z.Length ==> z[j] == if i <= j < LineEnd(old(z[..]), i) then ' ' else old(z[j])
  {
    var j := i;
    while j < z.Length && z[j] != '\n'
      invariant i <= j <= LineEnd(old(z[..]), i)
      invariant forall k :: 0 <= k < z.Length ==> z[k] == if i <= k < j then ' ' else old(z[k])
    {
      assert old(z[..])[j] == z[j];
      z[j] := ' ';
      j := j + 1;
    }
  }

  /** One directive: the counter, the region and the line. */
  method Handle(defs: set<seq<char>>, z: array<char>, i: nat, d: Directive, exclude: nat, start: nat)
    returns (ok: bool, exclude': nat, start': nat, ghost b: bool)
    requires i < z.Length && start <= i && d != NoDirective
    modifies z
    ensures !ok ==>
      d.If? && exclude == 0 && Eval(defs, d.cond, 0, false, false, true).SyntaxError? && z[..] == old(z[..])
    ensures ok ==> exclude' == Count(exclude, d, b) && start' == (if exclude == 0 && exclude' > 0 then i else start)
    ensures ok && d.If? && exclude == 0 ==> Eval(defs, d.cond, 0, false, false, true) == Value(b)
    ensures ok ==> Blanked(old(z[..]), old(z[..]), z[..], i, exclude, exclude', start)
  {
    ok, exclude', start', b := true, exclude, start, false;
    match d {
      case EndIf =>
        if exclude > 0 { exclude' := exclude - 1; }
      case Else =>
        if exclude == 1 {
          exclude' := 0;
        } else if exclude == 0 {
          exclude', start' := 1, i;
        }
      case If(isNot, cond) =>
        if exclude > 0 {
          exclude' := exclude + 1;
        } else {
          var o := EvalBoolean(defs, cond);
          if o.SyntaxError? { return false, exclude, start, false; }
          b := o.b;
          exclude' := if o.b != isNot then 0 else 1;
          if exclude' > 0 { start' := i; }
        }
    }
    ghost var a := z[..];
    if exclude > 0 && exclude' == 0 { BlankRegion(z, start, i); }
    EndsSame(a, z[..], i);
    BlankLine(z, i);
  }

  /** The directive in the buffer is the one in the original text. */
  lemma StepDirective(defs: set<seq<char>>, z: seq<char>, a: seq<char>, i: nat, e: nat, exclude: nat, start: nat)
    requires Tracks(defs, z, a, i, e, exclude, start) && i < |z|
    ensures DirectiveAt(a, i) == DirectiveAt(z, i)
    ensures DirectiveAt(z, i) != NoDirective ==> e <= i && forall j :: i <= j < |z| ==> a[j] == z[j]
  {
    if e <= i {
      assert a[i..] == z[i..];
      DirectiveSame(z, a, i);
    } else {
      assert a[i] == ' ' && LineStart(z, i) < i;
    }
  }

  lemma BadMeansMalformed(defs: set<seq<char>>, z: seq<char>, i: nat)
    requires i <= |z| && Nest(defs, z, i).Malformed?
    ensures Nest(defs, z, |z|) == Malformed
  {
    if Nest(defs, z, |z|).Open? {
      NestPrefix(defs, z, i, |z|);
    }
  }

  /** The buffer follows the text up to i, and no condition has failed to parse, sealed. */
  ghost predicate Follows(defs: set<seq<char>>, z: seq<char>, a: seq<char>, i: nat, e: nat, exclude: nat, start: nat) {
    && i <= |z|
    && forall q {:trigger Seals.Open(q)} :: Seals.Open(q) && q == a ==>
         Tracks(defs, z, q, i, e, exclude, start) && Nest(defs, z, i).Open?
  }

  lemma StartFollows(defs: set<seq<char>>, z: seq<char>)
    ensures Follows(defs, z, z, 0, 0, 0, 0)
  {
  }

  /** One turn of the loop. */
  method OneCharacter(defs: set<seq<char>>, ghost orig: seq<char>, z: array<char>, i: nat, exclude: nat, start: nat,
          ghost e: nat)
    returns (ok: bool, exclude': nat, start': nat, ghost e': nat)
    requires i < z.Length == |orig| && Follows(defs, orig, z[..], i, e, exclude, start)
    modifies z
    ensures ok ==> Follows(defs, orig, z[..], i + 1, e', exclude', start')
    ensures !ok ==> Preprocessed(defs, orig, z[..], BadCondition)
  {
    ghost var a := z[..];
    assert Seals.Open(a);
    ok, exclude', start', e' := true, exclude, start, e;
    StepDirective(defs, orig, a, i, e, exclude, start);
    var d := DirectiveAt(z[..], i);
    if d == NoDirective {
      TracksSkip(defs, orig, a, i, e, exclude, start);
    } else {
      ghost var b;
      ok, exclude', start', b := Handle(defs, z, i, d, exclude, start);
      if !ok {
        GaveUp(defs, orig, z[..], i + 1);
        return;
      }
      EndsSame(orig, a, i);
      TracksDirective(defs, orig, a, z[..], i, e, exclude, start, d, b, exclude', start');
      e' := LineEnd(orig, i);
    }
  }

  /** What preprocess_input promises of the text z and what it makes of it, a. */
  ghost predicate Preprocessed(defs: set<seq<char>>, z: seq<char>, a: seq<char>, r: Verdict) {
    && |a| == |z| && (forall j :: 0 <= j < |z| ==> (a[j] == '\n' <==> z[j] == '\n'))
    && (r == BadCondition <==> Nest(defs, z, |z|).Malformed?)
    && (Nest(defs, z, |z|).Open? ==>
          && (r == Unterminated <==> Excluded(Nest(defs, z, |z|).taken) > 0)
          && (r == Complete ==> forall j :: 0 <= j < |z| ==> a[j] == Survivor(defs, z, j)))
  }

  lemma TracksEnd(defs: set<seq<char>>, z: seq<char>, a: seq<char>, e: nat, exclude: nat, start: nat)
    requires Follows(defs, z, a, |z|, e, exclude, start)
    ensures Preprocessed(defs, z, a, if exclude > 0 then Unterminated else Complete)
  {
    assert Seals.Open(a);
  }

  lemma GaveUp(defs: set<seq<char>>, z: seq<char>, a: seq<char>, i: nat)
    requires i <= |z| == |a| && Nest(defs, z, i).Malformed?
    requires forall j :: 0 <= j < |z| ==> (a[j] == '\n' <==> z[j] == '\n')
    ensures Preprocessed(defs, z, a, BadCondition)
  {
    BadMeansMalformed(defs, z, i);
  }

  /** preprocess_input. Newlines never move. It gives up exactly on a condition that does not parse; otherwise what is
      left of the text is what the stack of conditionals lets survive, and the run fails exactly when an excluded
      region is left open. */
  method PreprocessInput(defs: set<seq<char>>, z: array<char>) returns (r: Verdict)
    modifies z
    ensures Preprocessed(defs, old(z[..]), z[..], r)
  {
    ghost var orig, e := z[..], 0;
    var exclude, start, i := 0, 0, 0;
    StartFollows(defs, orig);
    while i < z.Length
      invariant i <= z.Length && Follows(defs, orig, z[..], i, e, exclude, start)
    {
      var ok;
      ok, exclude, start, e := OneCharacter(defs, orig, z, i, exclude, start, e);
      if !ok { return BadCondition; }
      i := i + 1;
    }
    TracksEnd(defs, orig, z[..], e, exclude, start);
    r := if exclude > 0 then Unterminated else Complete;
  }
}
