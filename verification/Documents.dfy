/** What preprocess_input makes of a text of conditionals: the meaning of the text is that of its parts, read off the
    lines as they are written. */
module Documents {
  import opened Conditions
  import opened Preprocess
  import Seals

  /** The words that open a conditional. */
  datatype Opening = OnIf | OnIfdef | OnIfndef

  function Word(k: Opening): seq<char> {
    match k case OnIf => "%if " case OnIfdef => "%ifdef " case OnIfndef => "%ifndef "
  }

  predicate White(c: char) {
    c == ' ' || c == '\t' || c == '\n' || c == '\r' || c == '\U{b}' || c == '\U{c}'
  }

  predicate OneLine(t: seq<char>) {
    forall k :: 0 <= k < |t| ==> t[k] != '\n'
  }

  /** A line that starts with the word w, which is followed by white space or ends the line. */
  predicate StartsWith(t: seq<char>, w: seq<char>) {
    |w| <= |t| && t[..|w|] == w && (|t| == |w| || White(t[|w|]))
  }

  predicate Prefix(w: seq<char>, t: seq<char>) {
    |w| <= |t| && t[..|w|] == w
  }

  /** A line of text that is no directive. */
  predicate Plain(t: seq<char>) {
    && OneLine(t) && !StartsWith(t, "%else") && !StartsWith(t, "%endif")
    && !Prefix("%if ", t) && !Prefix("%ifdef ", t) && !Prefix("%ifndef ", t)
  }

  // ---- lines ----

  /** The line t starts at i, and a newline ends it. */
  ghost predicate LineAt(z: seq<char>, i: nat, t: seq<char>) {
    && i + |t| < |z| && (i == 0 || z[i - 1] == '\n') && OneLine(t)
    && (forall k :: 0 <= k < |t| ==> z[i + k] == t[k]) && z[i + |t|] == '\n'
  }

  lemma HereLine(z: seq<char>, i: nat, t: seq<char>, w: seq<char>)
    requires LineAt(z, i, t)
    ensures OneLine(w) ==> (Here(z, i, w) <==> Prefix(w, t))
  {
    if OneLine(w) {
      if Prefix(w, t) {
        assert forall k :: 0 <= k < |w| ==> z[i + k] == t[k] == t[..|w|][k];
      }
      if Here(z, i, w) {
        assert forall k :: 0 <= k < |w| ==> z[i + k] == z[i..i + |w|][k] == w[k];
        assert |w| <= |t|;
        assert forall k :: 0 <= k < |w| ==> t[k] == w[k];
      }
    }
  }

  lemma {:induction false} LineEndAt(z: seq<char>, i: nat, n: nat)
    requires i + n < |z| && z[i + n] == '\n' && forall k :: i <= k < i + n ==> z[k] != '\n'
    ensures LineEnd(z, i) == i + n
    decreases n
  {
    if n > 0 { LineEndAt(z, i + 1, n - 1); }
  }

  lemma {:induction false} KeywordEndAt(z: seq<char>, i: nat, n: nat)
    requires i + n <= |z| && (i + n < |z| ==> White(z[i + n])) && forall k :: i <= k < i + n ==> !White(z[k])
    ensures KeywordEnd(z, i) == i + n
    decreases n
  {
    if n > 0 { KeywordEndAt(z, i + 1, n - 1); }
  }

  /** %else and %endif are recognised on any line that starts with them. */
  lemma ClosingLine(z: seq<char>, i: nat, t: seq<char>)
    requires LineAt(z, i, t)
    ensures StartsWith(t, "%endif") ==> DirectiveAt(z, i) == EndIf
    ensures StartsWith(t, "%else") ==> DirectiveAt(z, i) == Else
  {
    HereLine(z, i, t, "%endif");
    HereLine(z, i, t, "%else");
    if StartsWith(t, "%endif") || StartsWith(t, "%else") { assert z[i + 0] == t[0]; }
    if StartsWith(t, "%endif") {
      assert z[i + 6] == if |t| == 6 then '\n' else t[6];
    } else if StartsWith(t, "%else") {
      assert z[i + 5] == if |t| == 5 then '\n' else t[5];
    }
  }

  lemma PlainLine(z: seq<char>, i: nat, t: seq<char>)
    requires LineAt(z, i, t) && Plain(t)
    ensures DirectiveAt(z, i) == NoDirective
  {
    HereLine(z, i, t, "%endif");
    HereLine(z, i, t, "%else");
    HereLine(z, i, t, "%if ");
    HereLine(z, i, t, "%ifdef ");
    HereLine(z, i, t, "%ifndef ");
  }

  lemma WordEnds(z: seq<char>, i: nat, w: seq<char>, t: seq<char>)
    requires LineAt(z, i, t) && Prefix(w, t) && w != [] && White(w[|w| - 1])
    requires forall q :: 0 <= q < |w| - 1 ==> !White(w[q])
    ensures Here(z, i, w) && KeywordEnd(z, i) == i + |w| - 1 && LineEnd(z, i) == i + |t|
  {
    assert forall q :: 0 <= q < |w| ==> z[i + q] == t[q] == t[..|w|][q];
    HereLine(z, i, t, w);
    KeywordEndAt(z, i, |w| - 1);
    assert forall q :: i <= q < i + |t| ==> z[q] == t[q - i];
    LineEndAt(z, i, |t|);
  }

  lemma HereAt(z: seq<char>, i: nat, w: seq<char>, q: nat)
    requires i + q < |z| && q < |w|
    ensures Here(z, i, w) ==> z[i + q] == w[q]
  {
    if Here(z, i, w) { assert z[i + q] == z[i..i + |w|][q]; }
  }

  lemma NoClosing(z: seq<char>, i: nat)
    requires i + 1 < |z| && z[i + 1] == 'i'
    ensures !Here(z, i, "%endif") && !Here(z, i, "%else")
  {
    HereAt(z, i, "%endif", 1);
    HereAt(z, i, "%else", 1);
  }

  /** The condition that opens a conditional is the rest of the line, from the space on. */
  lemma OpeningLine(z: seq<char>, i: nat, k: Opening, c: seq<char>)
    requires LineAt(z, i, Word(k) + c)
    ensures DirectiveAt(z, i) == If(k == OnIfndef, " " + c)
  {
    var t, w := Word(k) + c, Word(k);
    assert t[..|w|] == w && z[i + 0] == t[0] && z[i + 1] == t[1];
    WordEnds(z, i, w, t);
    NoClosing(z, i);
    RestOfLine(z, i, k, c);
  }

  lemma RestOfLine(z: seq<char>, i: nat, k: Opening, c: seq<char>)
    requires LineAt(z, i, Word(k) + c)
    ensures z[i + |Word(k)| - 1..i + |Word(k) + c|] == " " + c
  {
    var t, n := Word(k) + c, |Word(k)| - 1;
    var r := z[i + n..i + |t|];
    forall q | 0 <= q < |r| ensures r[q] == (" " + c)[q] { assert r[q] == z[i + (n + q)] == t[n + q]; }
  }

  // ---- what a line does to the open conditionals, and what is left of it ----

  ghost predicate AllTaken(taken: seq<bool>) {
    forall k :: 0 <= k < |taken| ==> taken[k]
  }

  /** At i the branches are those in taken, up to j, and what is left of the text is t. */
  ghost predicate Leaves(defs: set<seq<char>>, z: seq<char>, i: nat, t: seq<char>, taken: seq<bool>) {
    && i + |t| <= |z| && (i + |t| == 0 || (i + |t| > 0 && z[i + |t| - 1] == '\n'))
    && Nest(defs, z, i + |t|) == Open(taken)
    && forall k :: 0 <= k < |t| ==> Survivor(defs, z, i + k) == t[k]
  }

  lemma NestSkips(defs: set<seq<char>>, z: seq<char>, i: nat)
    requires i < |z| && DirectiveAt(z, i) == NoDirective
    ensures Nest(defs, z, i + 1) == Nest(defs, z, i)
  {
  }

  lemma MidLine(z: seq<char>, i: nat, t: seq<char>, k: nat)
    requires LineAt(z, i, t) && 0 < k <= |t|
    ensures DirectiveAt(z, i + k) == NoDirective
  {
    assert z[i + (k - 1)] == t[k - 1];
  }

  /** Behind its first character, a line changes nothing. */
  lemma {:induction false} NestInLine(defs: set<seq<char>>, z: seq<char>, i: nat, t: seq<char>, k: nat)
    requires LineAt(z, i, t) && k <= |t|
    ensures Nest(defs, z, i + 1 + k) == Nest(defs, z, i + 1)
    decreases k
  {
    if k > 0 {
      NestInLine(defs, z, i, t, k - 1);
      MidLine(z, i, t, k);
      NestSkips(defs, z, i + k);
    }
  }

  lemma InLine(z: seq<char>, i: nat, t: seq<char>, k: nat)
    requires LineAt(z, i, t) && k <= |t|
    ensures LineStart(z, i + k) == i
  {
    assert forall q :: i <= q < i + k ==> z[q] == t[q - i];
    LineStartIs(z, i, i + k);
  }

  /** r is left of the line t, and behind it the branches are those in taken. */
  ghost predicate LeftAt(defs: set<seq<char>>, z: seq<char>, i: nat, t: seq<char>, r: seq<char>, taken: seq<bool>) {
    && i + |t| < |z| && |r| == |t| + 1 && Nest(defs, z, i + 1 + |t|) == Open(taken)
    && forall k :: 0 <= k <= |t| ==> Survivor(defs, z, i + k) == r[k]
  }

  /** LeftAt, sealed. */
  ghost predicate LeftOf(defs: set<seq<char>>, z: seq<char>, i: nat, t: seq<char>, r: seq<char>, taken: seq<bool>) {
    forall q: nat {:trigger Seals.Open(q)} :: Seals.Open(q) && q == i ==> LeftAt(defs, z, q, t, r, taken)
  }

  lemma LineLeaves(defs: set<seq<char>>, z: seq<char>, i: nat, t: seq<char>, r: seq<char>, taken: seq<bool>)
    requires LineAt(z, i, t) && LeftOf(defs, z, i, t, r, taken)
    ensures Leaves(defs, z, i, r, taken)
  {
    assert Seals.Open(i);
  }

  /** A line with a directive is blanked. */
  lemma DirectiveLeaves(defs: set<seq<char>>, z: seq<char>, i: nat, t: seq<char>, taken: seq<bool>)
    requires LineAt(z, i, t) && DirectiveAt(z, i) != NoDirective && Nest(defs, z, i + 1) == Open(taken)
    ensures Leaves(defs, z, i, Repeat(' ', |t|) + "\n", taken)
  {
    var r := Repeat(' ', |t|) + "\n";
    DirectiveBlanked(defs, z, i, t, r, taken);
    LineLeaves(defs, z, i, t, r, taken);
  }

  lemma DirectiveBlanked(defs: set<seq<char>>, z: seq<char>, i: nat, t: seq<char>, r: seq<char>, taken: seq<bool>)
    requires LineAt(z, i, t) && DirectiveAt(z, i) != NoDirective && Nest(defs, z, i + 1) == Open(taken)
    requires r == Repeat(' ', |t|) + "\n"
    ensures LeftOf(defs, z, i, t, r, taken)
  {
    NestInLine(defs, z, i, t, |t|);
    forall k | 0 <= k <= |t| ensures Survivor(defs, z, i + k) == r[k] {
      InLine(z, i, t, k);
      LineCharacter(z, i, t, k);
    }
  }

  /** Any other line stays where all enclosing branches are taken; otherwise it is blanked. */
  lemma PlainLeaves(defs: set<seq<char>>, z: seq<char>, i: nat, t: seq<char>, taken: seq<bool>)
    requires LineAt(z, i, t) && Plain(t) && Nest(defs, z, i) == Open(taken)
    ensures Leaves(defs, z, i, (if AllTaken(taken) then t else Repeat(' ', |t|)) + "\n", taken)
  {
    PlainLine(z, i, t);
    if AllTaken(taken) {
      PlainStays(defs, z, i, t, t + "\n", taken);
      LineLeaves(defs, z, i, t, t + "\n", taken);
    } else {
      PlainBlanked(defs, z, i, t, Repeat(' ', |t|) + "\n", taken);
      LineLeaves(defs, z, i, t, Repeat(' ', |t|) + "\n", taken);
    }
  }

  lemma PlainStays(defs: set<seq<char>>, z: seq<char>, i: nat, t: seq<char>, r: seq<char>, taken: seq<bool>)
    requires LineAt(z, i, t) && DirectiveAt(z, i) == NoDirective && Nest(defs, z, i) == Open(taken) && AllTaken(taken)
    requires r == t + "\n"
    ensures LeftOf(defs, z, i, t, r, taken)
  {
    PlainCharacter(defs, z, i, t, taken, |t|);
    StayingCharacters(defs, z, i, t, r, taken);
  }

  lemma StayingCharacters(defs: set<seq<char>>, z: seq<char>, i: nat, t: seq<char>, r: seq<char>, taken: seq<bool>)
    requires LineAt(z, i, t) && DirectiveAt(z, i) == NoDirective && Nest(defs, z, i) == Open(taken) && AllTaken(taken)
    requires r == t + "\n"
    ensures forall k :: 0 <= k <= |t| ==> Survivor(defs, z, i + k) == r[k]
  {
    forall k | 0 <= k <= |t| ensures Survivor(defs, z, i + k) == r[k] {
      PlainCharacter(defs, z, i, t, taken, k);
      LineCharacter(z, i, t, k);
    }
  }

  lemma PlainBlanked(defs: set<seq<char>>, z: seq<char>, i: nat, t: seq<char>, r: seq<char>, taken: seq<bool>)
    requires LineAt(z, i, t) && DirectiveAt(z, i) == NoDirective && Nest(defs, z, i) == Open(taken) && !AllTaken(taken)
    requires r == Repeat(' ', |t|) + "\n"
    ensures LeftOf(defs, z, i, t, r, taken)
  {
    PlainCharacter(defs, z, i, t, taken, |t|);
    BlankedCharacters(defs, z, i, t, r, taken);
  }

  lemma BlankedCharacters(defs: set<seq<char>>, z: seq<char>, i: nat, t: seq<char>, r: seq<char>, taken: seq<bool>)
    requires LineAt(z, i, t) && DirectiveAt(z, i) == NoDirective && Nest(defs, z, i) == Open(taken) && !AllTaken(taken)
    requires r == Repeat(' ', |t|) + "\n"
    ensures forall k :: 0 <= k <= |t| ==> Survivor(defs, z, i + k) == r[k]
  {
    forall k | 0 <= k <= |t| ensures Survivor(defs, z, i + k) == r[k] {
      PlainCharacter(defs, z, i, t, taken, k);
      LineCharacter(z, i, t, k);
    }
  }

  lemma LineCharacter(z: seq<char>, i: nat, t: seq<char>, k: nat)
    requires LineAt(z, i, t) && k <= |t|
    ensures z[i + k] == (t + "\n")[k] && Blank(z[i + k]) == (Repeat(' ', |t|) + "\n")[k]
  {
  }

  lemma PlainCharacter(defs: set<seq<char>>, z: seq<char>, i: nat, t: seq<char>, taken: seq<bool>, k: nat)
    requires LineAt(z, i, t) && DirectiveAt(z, i) == NoDirective && Nest(defs, z, i) == Open(taken) && k <= |t|
    ensures Survivor(defs, z, i + k) == if AllTaken(taken) then z[i + k] else Blank(z[i + k])
    ensures Nest(defs, z, i + k + 1) == Open(taken)
  {
    PlainNest(defs, z, i, t, taken);
    NestInLine(defs, z, i, t, k);
    if k > 0 { NestInLine(defs, z, i, t, k - 1); }
    InLine(z, i, t, k);
    ExcludedMeans(taken);
  }

  lemma PlainNest(defs: set<seq<char>>, z: seq<char>, i: nat, t: seq<char>, taken: seq<bool>)
    requires LineAt(z, i, t) && DirectiveAt(z, i) == NoDirective && Nest(defs, z, i) == Open(taken)
    ensures Nest(defs, z, i + 1) == Open(taken)
  {
  }

  lemma {:induction false} TextOneLine(e: Expr)
    requires WellNamed(e)
    ensures OneLine(Text(e))
    decreases e
  {
    match e.prim {
      case Name(id) =>
      case Group(g) => TextOneLine(g);
    }
    match e.rest {
      case Done =>
      case OrElse(r) => TextOneLine(r);
      case AndAlso(r) => TextOneLine(r);
    }
    assert OneLine(PrimText(e)) && OneLine(RestText(e));
  }

  lemma ConditionApplies(defs: set<seq<char>>, taken: seq<bool>, isNot: bool, c: seq<char>, b: bool)
    requires Eval(defs, c, 0, false, false, true) == Value(b)
    ensures Apply(defs, taken, If(isNot, c)) == Open(taken + [AllTaken(taken) ==> b == !isNot])
  {
    ExcludedMeans(taken);
  }

  /** The branch behind a condition is taken if and only if the condition holds, for %ifndef if and only if it does
      not; where an enclosing branch is not taken the condition is not looked at. */
  lemma ConditionLine(defs: set<seq<char>>, z: seq<char>, i: nat, k: Opening, e: Expr, taken: seq<bool>)
    requires LineAt(z, i, Word(k) + Text(e)) && WellNamed(e) && Nest(defs, z, i) == Open(taken)
    ensures Leaves(defs, z, i, Repeat(' ', |Word(k) + Text(e)|) + "\n",
      taken + [AllTaken(taken) ==> Meaning(defs, e) == (k != OnIfndef)])
  {
    SpacedCondition(defs, e);
    ConditionText(defs, z, i, k, Text(e), taken, Meaning(defs, e));
  }

  lemma SpacedCondition(defs: set<seq<char>>, e: Expr)
    requires WellNamed(e)
    ensures Eval(defs, " " + Text(e), 0, false, false, true) == Value(Meaning(defs, e))
  {
    var e' := e.(lead := e.lead + 1);
    assert Text(e') == " " + Text(e);
    ConditionsEvaluate(defs, e');
  }

  lemma ConditionText(defs: set<seq<char>>, z: seq<char>, i: nat, k: Opening, c: seq<char>, taken: seq<bool>, b: bool)
    requires LineAt(z, i, Word(k) + c) && Nest(defs, z, i) == Open(taken)
    requires Eval(defs, " " + c, 0, false, false, true) == Value(b)
    ensures Leaves(defs, z, i, Repeat(' ', |Word(k) + c|) + "\n", taken + [AllTaken(taken) ==> b == (k != OnIfndef)])
  {
    OpeningLine(z, i, k, c);
    ConditionApplies(defs, taken, k == OnIfndef, " " + c, b);
    NestStep(defs, z, i, taken);
    DirectiveLeaves(defs, z, i, Word(k) + c, taken + [AllTaken(taken) ==> b == (k != OnIfndef)]);
  }

  lemma NestStep(defs: set<seq<char>>, z: seq<char>, i: nat, taken: seq<bool>)
    requires i < |z| && Nest(defs, z, i) == Open(taken)
    ensures Nest(defs, z, i + 1) == Apply(defs, taken, DirectiveAt(z, i))
  {
  }

  /** %else turns to the other branch. */
  lemma ElseLine(defs: set<seq<char>>, z: seq<char>, i: nat, t: seq<char>, taken: seq<bool>, b: bool)
    requires LineAt(z, i, t) && StartsWith(t, "%else") && Nest(defs, z, i) == Open(taken + [b])
    ensures Leaves(defs, z, i, Repeat(' ', |t|) + "\n", taken + [!b])
  {
    ClosingLine(z, i, t);
    assert (taken + [b])[..|taken|] == taken;
    DirectiveLeaves(defs, z, i, t, taken + [!b]);
  }

  /** %endif closes the conditional. */
  lemma EndifLine(defs: set<seq<char>>, z: seq<char>, i: nat, t: seq<char>, taken: seq<bool>, b: bool)
    requires LineAt(z, i, t) && StartsWith(t, "%endif") && Nest(defs, z, i) == Open(taken + [b])
    ensures Leaves(defs, z, i, Repeat(' ', |t|) + "\n", taken)
  {
    ClosingLine(z, i, t);
    assert (taken + [b])[..|taken|] == taken;
    DirectiveLeaves(defs, z, i, t, taken);
  }

  /** A condition that does not parse ends it all, where all enclosing branches are taken. */
  lemma BadLine(defs: set<seq<char>>, z: seq<char>, i: nat, k: Opening, c: seq<char>, taken: seq<bool>)
    requires LineAt(z, i, Word(k) + c) && Nest(defs, z, i) == Open(taken) && AllTaken(taken)
    requires Eval(defs, " " + c, 0, false, false, true).SyntaxError?
    ensures Nest(defs, z, |z|) == Malformed
  {
    OpeningLine(z, i, k, c);
    ExcludedMeans(taken);
    NestStep(defs, z, i, taken);
    BadMeansMalformed(defs, z, i + 1);
  }

  /** An %endif that ends the text without a newline closes nothing. */
  lemma EndifAtEnd(z: seq<char>, i: nat)
    requires Here(z, i, "%endif") && |z| == i + 6
    ensures DirectiveAt(z, i) == NoDirective
  {
    HereAt(z, i, "%else", 2);
    HereAt(z, i, "%endif", 2);
  }

  // ---- whole texts ----

  /** Lines and conditionals, one after the other. */
  datatype Doc =
    | Nil
    | Line(text: seq<char>, rest: Doc)
    | Cond(k: Opening, e: Expr, yes: Doc, no: Branch, endif: seq<char>, rest: Doc)

  datatype Branch = NoElse | Otherwise(word: seq<char>, doc: Doc)

  predicate WellFormed(d: Doc) {
    match d
    case Nil => true
    case Line(text, rest) => Plain(text) && WellFormed(rest)
    case Cond(k, e, yes, no, endif, rest) =>
      && WellNamed(e) && WellFormed(yes) && StartsWith(endif, "%endif") && OneLine(endif) && WellFormed(rest)
      && (no.Otherwise? ==> StartsWith(no.word, "%else") && OneLine(no.word) && WellFormed(no.doc))
  }

  /** The text as it is written. */
  function Render(d: Doc): seq<char> {
    match d
    case Nil => ""
    case Line(text, rest) => (text + "\n") + Render(rest)
    case Cond(k, e, yes, no, endif, rest) =>
      (Word(k) + Text(e) + "\n") + (Render(yes) + (RenderBranch(no) + ((endif + "\n") + Render(rest))))
  }

  function RenderBranch(no: Branch): seq<char> {
    match no case NoElse => "" case Otherwise(word, doc) => (word + "\n") + Render(doc)
  }

  /** What it means: directives are blanked, and so is the text of every branch that is not chosen. */
  function Chosen(defs: set<seq<char>>, d: Doc, live: bool): seq<char> {
    match d
    case Nil => ""
    case Line(text, rest) => (Stays(text, live) + "\n") + Chosen(defs, rest, live)
    case Cond(k, e, yes, no, endif, rest) =>
      var b := Holds(defs, k, e);
      (Repeat(' ', |Word(k) + Text(e)|) + "\n") + (Chosen(defs, yes, live && b)
        + (ChosenBranch(defs, no, live && !b) + ((Repeat(' ', |endif|) + "\n") + Chosen(defs, rest, live))))
  }

  /** A line in a branch that is chosen, or not. */
  function Stays(t: seq<char>, live: bool): (r: seq<char>)
    ensures |r| == |t|
  {
    if live then t else Repeat(' ', |t|)
  }

  /** The condition of the conditional. */
  predicate Holds(defs: set<seq<char>>, k: Opening, e: Expr) {
    Meaning(defs, e) == (k != OnIfndef)
  }

  function ChosenBranch(defs: set<seq<char>>, no: Branch, live: bool): seq<char> {
    match no
    case NoElse => ""
    case Otherwise(word, doc) => (Repeat(' ', |word|) + "\n") + Chosen(defs, doc, live)
  }

  /** Here is text t, at the start of a line, where the branches in taken are open. */
  ghost predicate At0(defs: set<seq<char>>, z: seq<char>, i: nat, t: seq<char>, taken: seq<bool>) {
    Here(z, i, t) && (i == 0 || z[i - 1] == '\n') && Nest(defs, z, i) == Open(taken)
  }

  lemma LineHere(z: seq<char>, i: nat, t: seq<char>, rest: seq<char>)
    requires Here(z, i, (t + "\n") + rest) && (i == 0 || z[i - 1] == '\n') && OneLine(t)
    ensures LineAt(z, i, t) && Here(z, i + |t| + 1, rest) && z[i + |t|] == '\n'
  {
    HereSplit(z, i, t + "\n", rest);
    var u := z[i..i + |t + "\n"|];
    assert u == t + "\n" && u[|t|] == '\n' == z[i + |t|];
    forall k | 0 <= k < |t| ensures z[i + k] == t[k] { assert z[i + k] == u[k]; }
  }

  /** Both, sealed. */
  ghost predicate Left(defs: set<seq<char>>, z: seq<char>, i: nat, t: seq<char>, taken: seq<bool>) {
    forall q: nat {:trigger Seals.Open(q)} :: Seals.Open(q) && q == i ==> Leaves(defs, z, q, t, taken)
  }

  ghost predicate Stands(defs: set<seq<char>>, z: seq<char>, i: nat, t: seq<char>, taken: seq<bool>) {
    forall q: nat {:trigger Seals.Open(q)} :: Seals.Open(q) && q == i ==> At0(defs, z, q, t, taken)
  }

  /** One part after the other. */
  lemma LeavesMore(defs: set<seq<char>>, z: seq<char>, i: nat, a: seq<char>, b: seq<char>, mid: seq<bool>,
          taken: seq<bool>)
    requires Left(defs, z, i, a, mid) && Left(defs, z, i + |a|, b, taken)
    ensures Left(defs, z, i, a + b, taken)
  {
    var m: nat := i + |a|;
    assert Seals.Open(i) && Seals.Open(m);
    forall k | 0 <= k < |a + b| ensures Survivor(defs, z, i + k) == (a + b)[k] {
      if k >= |a| { assert Survivor(defs, z, i + |a| + (k - |a|)) == b[k - |a|]; }
    }
  }

  lemma Behind(defs: set<seq<char>>, z: seq<char>, i: nat, a: seq<char>, rest: seq<char>, r: seq<char>,
          taken: seq<bool>, mid: seq<bool>)
    requires Stands(defs, z, i, a + rest, taken) && Left(defs, z, i, r, mid) && |r| == |a|
    ensures Stands(defs, z, i + |a|, rest, mid)
  {
    assert Seals.Open(i);
    HereSplit(z, i, a, rest);
  }

  /** A line and what comes behind it. */
  lemma LinePart(defs: set<seq<char>>, z: seq<char>, i: nat, t: seq<char>, rest: seq<char>, taken: seq<bool>)
    requires Stands(defs, z, i, (t + "\n") + rest, taken) && Plain(t)
    ensures var r := Stays(t, AllTaken(taken)) + "\n"; Left(defs, z, i, r, taken) && |r| == |t + "\n"|
    ensures Stands(defs, z, i + |t + "\n"|, rest, taken)
  {
    assert Seals.Open(i);
    LineHere(z, i, t, rest);
    PlainLeaves(defs, z, i, t, taken);
    Behind(defs, z, i, t + "\n", rest, Stays(t, AllTaken(taken)) + "\n", taken, taken);
  }

  lemma OpeningPart(defs: set<seq<char>>, z: seq<char>, i: nat, k: Opening, e: Expr, rest: seq<char>, taken: seq<bool>)
    requires Stands(defs, z, i, (Word(k) + Text(e) + "\n") + rest, taken) && WellNamed(e)
    ensures var t := Word(k) + Text(e); var mid := taken + [AllTaken(taken) ==> Holds(defs, k, e)];
      Left(defs, z, i, Repeat(' ', |t|) + "\n", mid) && Stands(defs, z, i + |t + "\n"|, rest, mid)
  {
    var t := Word(k) + Text(e);
    assert Seals.Open(i);
    TextOneLine(e);
    LineHere(z, i, t, rest);
    ConditionLine(defs, z, i, k, e, taken);
    Behind(defs, z, i, t + "\n", rest, Repeat(' ', |t|) + "\n", taken, taken + [AllTaken(taken) ==> Holds(defs, k, e)]);
  }

  lemma EndifPart(defs: set<seq<char>>, z: seq<char>, i: nat, t: seq<char>, rest: seq<char>, taken: seq<bool>, b: bool)
    requires Stands(defs, z, i, (t + "\n") + rest, taken + [b]) && StartsWith(t, "%endif") && OneLine(t)
    ensures Left(defs, z, i, Repeat(' ', |t|) + "\n", taken) && Stands(defs, z, i + |t + "\n"|, rest, taken)
  {
    assert Seals.Open(i);
    LineHere(z, i, t, rest);
    EndifLine(defs, z, i, t, taken, b);
    Behind(defs, z, i, t + "\n", rest, Repeat(' ', |t|) + "\n", taken + [b], taken);
  }

  lemma ElsePart(defs: set<seq<char>>, z: seq<char>, i: nat, t: seq<char>, rest: seq<char>, taken: seq<bool>, b: bool)
    requires Stands(defs, z, i, (t + "\n") + rest, taken + [b]) && StartsWith(t, "%else") && OneLine(t)
    ensures Left(defs, z, i, Repeat(' ', |t|) + "\n", taken + [!b])
    ensures Stands(defs, z, i + |t + "\n"|, rest, taken + [!b])
  {
    assert Seals.Open(i);
    LineHere(z, i, t, rest);
    ElseLine(defs, z, i, t, taken, b);
    Behind(defs, z, i, t + "\n", rest, Repeat(' ', |t|) + "\n", taken + [b], taken + [!b]);
  }

  lemma {:induction false} ChosenLength(defs: set<seq<char>>, d: Doc, live: bool)
    ensures |Chosen(defs, d, live)| == |Render(d)|
    decreases d
  {
    match d {
      case Nil =>
      case Line(text, rest) => ChosenLength(defs, rest, live);
      case Cond(k, e, yes, no, endif, rest) =>
        ChosenLength(defs, yes, live && Holds(defs, k, e));
        if no.Otherwise? { ChosenLength(defs, no.doc, live && !Holds(defs, k, e)); }
        ChosenLength(defs, rest, live);
    }
  }

  /** What is left of a text of conditionals is what its meaning says, wherever it stands. */
  lemma {:induction false} DocLeaves(defs: set<seq<char>>, z: seq<char>, i: nat, d: Doc, taken: seq<bool>)
    requires Stands(defs, z, i, Render(d), taken) && WellFormed(d)
    ensures Left(defs, z, i, Chosen(defs, d, AllTaken(taken)), taken)
    decreases d, 3
  {
    match d {
      case Nil => assert Seals.Open(i);
      case Line(text, rest) => LinesLeave(defs, z, i, text, rest, taken);
      case Cond(k, e, yes, no, endif, rest) => CondLeaves(defs, z, i, d, taken);
    }
  }

  lemma {:induction false} LinesLeave(defs: set<seq<char>>, z: seq<char>, i: nat, text: seq<char>, rest: Doc,
          taken: seq<bool>)
    requires Stands(defs, z, i, (text + "\n") + Render(rest), taken) && Plain(text) && WellFormed(rest)
    ensures Left(defs, z, i, (Stays(text, AllTaken(taken)) + "\n") + Chosen(defs, rest, AllTaken(taken)), taken)
    decreases rest, 4
  {
    var a := Stays(text, AllTaken(taken)) + "\n";
    LinePart(defs, z, i, text, Render(rest), taken);
    DocLeaves(defs, z, i + |a|, rest, taken);
    LeavesMore(defs, z, i, a, Chosen(defs, rest, AllTaken(taken)), taken, taken);
  }

  /** ... and what comes behind it follows. */
  lemma {:induction false} DocPart(defs: set<seq<char>>, z: seq<char>, i: nat, d: Doc, tail: seq<char>,
          taken: seq<bool>)
    requires Stands(defs, z, i, Render(d) + tail, taken) && WellFormed(d)
    ensures Left(defs, z, i, Chosen(defs, d, AllTaken(taken)), taken)
    ensures Stands(defs, z, i + |Chosen(defs, d, AllTaken(taken))|, tail, taken)
    decreases d, 4
  {
    assert Seals.Open(i);
    HereSplit(z, i, Render(d), tail);
    DocLeaves(defs, z, i, d, taken);
    ChosenLength(defs, d, AllTaken(taken));
    Behind(defs, z, i, Render(d), tail, Chosen(defs, d, AllTaken(taken)), taken, taken);
  }

  lemma {:induction false} BranchPart(defs: set<seq<char>>, z: seq<char>, i: nat, no: Branch, tail: seq<char>,
          taken: seq<bool>, b: bool)
    returns (last: bool)
    requires Stands(defs, z, i, RenderBranch(no) + tail, taken + [b])
    requires no.Otherwise? ==> StartsWith(no.word, "%else") && OneLine(no.word) && WellFormed(no.doc)
    ensures var r := ChosenBranch(defs, no, AllTaken(taken) && !b);
      Left(defs, z, i, r, taken + [last]) && Stands(defs, z, i + |r|, tail, taken + [last])
    decreases no, 0
  {
    match no {
      case NoElse =>
        last := b;
        assert "" + tail == tail;
      case Otherwise(word, doc) =>
        last := !b;
        assert RenderBranch(no) + tail == (word + "\n") + (Render(doc) + tail);
        ElseLeaves(defs, z, i, word, doc, tail, taken, b);
    }
  }

  lemma {:induction false} ElseLeaves(defs: set<seq<char>>, z: seq<char>, i: nat, word: seq<char>, doc: Doc,
          tail: seq<char>, taken: seq<bool>, b: bool)
    requires Stands(defs, z, i, (word + "\n") + (Render(doc) + tail), taken + [b])
    requires StartsWith(word, "%else") && OneLine(word) && WellFormed(doc)
    ensures var r := (Repeat(' ', |word|) + "\n") + Chosen(defs, doc, AllTaken(taken) && !b);
      Left(defs, z, i, r, taken + [!b]) && Stands(defs, z, i + |r|, tail, taken + [!b])
    decreases doc, 5
  {
    var a := Repeat(' ', |word|) + "\n";
    ElsePart(defs, z, i, word, Render(doc) + tail, taken, b);
    AllTakenMore(taken, !b);
    DocPart(defs, z, i + |a|, doc, tail, taken + [!b]);
    LeavesMore(defs, z, i, a, Chosen(defs, doc, AllTaken(taken) && !b), taken + [!b], taken + [!b]);
  }

  lemma AllTakenMore(taken: seq<bool>, b: bool)
    ensures AllTaken(taken + [b]) <==> AllTaken(taken) && b
  {
    assert (taken + [b])[|taken|] == b;
    assert forall k :: 0 <= k < |taken| ==> (taken + [b])[k] == taken[k];
  }

  lemma {:induction false} CondLeaves(defs: set<seq<char>>, z: seq<char>, i: nat, d: Doc, taken: seq<bool>)
    requires Stands(defs, z, i, Render(d), taken) && WellFormed(d) && d.Cond?
    ensures Left(defs, z, i, Chosen(defs, d, AllTaken(taken)), taken)
    decreases d, 2
  {
    var live, b := AllTaken(taken), Holds(defs, d.k, d.e);
    var v := live ==> b;
    var tail := (d.endif + "\n") + Render(d.rest);
    var r0, r1, r2 := Repeat(' ', |Word(d.k) + Text(d.e)|) + "\n", Chosen(defs, d.yes, live && b),
      ChosenBranch(defs, d.no, live && !b);
    OpeningPart(defs, z, i, d.k, d.e, Render(d.yes) + (RenderBranch(d.no) + tail), taken);
    AllTakenMore(taken, v);
    DocPart(defs, z, i + |r0|, d.yes, RenderBranch(d.no) + tail, taken + [v]);
    assert (live && !v) == (live && !b);
    var last := BranchPart(defs, z, i + |r0| + |r1|, d.no, tail, taken, v);
    EndLeaves(defs, z, i + |r0| + |r1| + |r2|, d.endif, d.rest, taken, last);
    var r3 := (Repeat(' ', |d.endif|) + "\n") + Chosen(defs, d.rest, live);
    FourParts(defs, z, i, r0, r1, r2, r3, taken, v, last);
  }

  lemma {:induction false} EndLeaves(defs: set<seq<char>>, z: seq<char>, i: nat, endif: seq<char>, rest: Doc,
          taken: seq<bool>, b: bool)
    requires Stands(defs, z, i, (endif + "\n") + Render(rest), taken + [b])
    requires StartsWith(endif, "%endif") && OneLine(endif) && WellFormed(rest)
    ensures Left(defs, z, i, (Repeat(' ', |endif|) + "\n") + Chosen(defs, rest, AllTaken(taken)), taken)
    decreases rest, 4
  {
    var a := Repeat(' ', |endif|) + "\n";
    EndifPart(defs, z, i, endif, Render(rest), taken, b);
    DocLeaves(defs, z, i + |a|, rest, taken);
    LeavesMore(defs, z, i, a, Chosen(defs, rest, AllTaken(taken)), taken, taken);
  }

  lemma FourParts(defs: set<seq<char>>, z: seq<char>, i: nat, r0: seq<char>, r1: seq<char>, r2: seq<char>,
          r3: seq<char>, taken: seq<bool>, v: bool, last: bool)
    requires Left(defs, z, i, r0, taken + [v]) && Left(defs, z, i + |r0|, r1, taken + [v])
    requires Left(defs, z, i + |r0| + |r1|, r2, taken + [last])
    requires Left(defs, z, i + |r0| + |r1| + |r2|, r3, taken)
    ensures Left(defs, z, i, r0 + (r1 + (r2 + r3)), taken)
  {
    LeavesMore(defs, z, i + |r0| + |r1|, r2, r3, taken + [last], taken);
    LeavesMore(defs, z, i + |r0|, r1, r2 + r3, taken + [v], taken);
    LeavesMore(defs, z, i, r0, r1 + (r2 + r3), taken + [v], taken);
  }

  /** What preprocess_input leaves of a text of conditionals. */
  lemma DocumentMeans(defs: set<seq<char>>, d: Doc)
    requires WellFormed(d)
    ensures var z := Render(d); Nest(defs, z, |z|) == Open([]) && |Chosen(defs, d, true)| == |z|
    ensures forall j :: 0 <= j < |Render(d)| ==> Survivor(defs, Render(d), j) == Chosen(defs, d, true)[j]
  {
    var z := Render(d);
    assert z[0..|z|] == z;
    var i: nat := 0;
    assert Seals.Open(i);
    DocLeaves(defs, z, i, d, []);
    ChosenLength(defs, d, true);
    forall j | 0 <= j < |z| ensures Survivor(defs, z, j) == Chosen(defs, d, true)[j] {
      assert Survivor(defs, z, 0 + j) == Chosen(defs, d, true)[j];
    }
  }

  /** The text goes in, and its meaning comes out. */
  method PreprocessDocument(defs: set<seq<char>>, d: Doc, z: array<char>) returns (r: Preprocess.Verdict)
    requires WellFormed(d) && z[..] == Render(d)
    modifies z
    ensures r == Complete && z[..] == Chosen(defs, d, true)
  {
    DocumentMeans(defs, d);
    ExcludedMeans([]);
    r := PreprocessInput(defs, z);
  }
}
