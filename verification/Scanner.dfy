/** The sliding input window of a lexer, and the lexer (re2c/scanner/scanner.c). A file is a sequence of bytes, read
    in order; a position in the buffer stands
for an absolute position in the file. */
module Scanner {

  type Byte = x: int | 0 <= x < 256

  const YYMAXFILL := 6
  const BUFSIZE := 4096 - YYMAXFILL

  /** The byte at an absolute position; zero beyond the end. */
  function ByteAt(file: seq<Byte>, p: int): Byte {
    if 0 <= p < |file| then file[p] else 0
  }

  // ---- what the lexer has to recognise ----

  datatype Token = END | ANY | NL | PLAN | TESTPOINT | WS

  predicate IsBlank(c: Byte) { c == 9 || c == 11 || c == 32 }

  predicate IsDigit(c: Byte) { 48 <= c <= 57 }

  /** How many bytes from p on satisfy the predicate; the zero beyond the end does not. */
  function RunLength(file: seq<Byte>, p: nat, f: Byte -> bool): nat
    decreases |file| - p
  {
    if p < |file| && f(file[p]) then 1 + RunLength(file, p + 1, f) else 0
  }

  predicate Spells(file: seq<Byte>, p: nat, w: seq<Byte>) {
    forall k :: 0 <= k < |w| ==> ByteAt(file, p + k) == w[k]
  }

  /** The token at p and its length: the longest match of the rules. */
  function Match(file: seq<Byte>, p: nat): (Token, nat) {
    var c := ByteAt(file, p);
    if c == 0 then (END, 1)
    else if IsBlank(c) then (WS, 1 + RunLength(file, p + 1, IsBlank))
    else if c == 10 then (NL, 1)
    else if c == 13 then (NL, if ByteAt(file, p + 1) == 10 then 2 else 1)
    else if Spells(file, p, [49, 46, 46]) && 49 <= ByteAt(file, p + 3) <= 57
      then (PLAN, 4 + RunLength(file, p + 4, IsDigit))
    else if Spells(file, p, [110, 111, 116, 32, 111, 107]) then (TESTPOINT, 6)
    else if Spells(file, p, [111, 107]) then (TESTPOINT, 2)
    else (ANY, 1)
  }

  // ---- the rules ----

  /** The lexemes of each token. */
  predicate Belongs(t: Token, w: seq<Byte>) {
    match t
    case END => w == [0]
    case PLAN => IsPlan(w)
    case TESTPOINT => w == [111, 107] || w == [110, 111, 116, 32, 111, 107]
    case NL => w == [13, 10] || w == [13] || w == [10]
    case WS => |w| > 0 && forall k :: 0 <= k < |w| ==> w[k] == 9 || w[k] == 11 || w[k] == 32
    case ANY => |w| == 1
  }

  /** "1.." and a decimal number without leading zeros. */
  predicate IsPlan(w: seq<Byte>) {
    && |w| >= 4 && w[0] == 49 && w[1] == 46 && w[2] == 46 && 49 <= w[3] <= 57
    && forall k :: 4 <= k < |w| ==> 48 <= w[k] <= 57
  }

  /** The order of the rules; the default rule comes last. */
  function RuleOrder(t: Token): nat {
    match t case END => 0 case PLAN => 1 case TESTPOINT => 2 case NL => 3 case WS => 4 case ANY => 5
  }

  /** The n bytes from p on. */
  function Lexeme(file: seq<Byte>, p: nat, n: nat): (w: seq<Byte>)
    ensures |w| == n && forall k :: 0 <= k < n ==> w[k] == ByteAt(file, p + k)
  {
    if n == 0 then [] else Lexeme(file, p, n - 1) + [ByteAt(file, p + (n - 1))]
  }

  predicate Fits(file: seq<Byte>, p: nat, t: Token, n: nat) {
    Belongs(t, Lexeme(file, p, n))
  }

  /** The n bytes at p are a lexeme of t; no rule matches more, and no earlier rule as much. */
  ghost predicate IsLongest(file: seq<Byte>, p: nat, t: Token, n: nat) {
    && Fits(file, p, t, n)
    && forall u, m: nat :: Fits(file, p, u, m) ==> m < n || (m == n && RuleOrder(t) <= RuleOrder(u))
  }

  lemma LongestUnique(file: seq<Byte>, p: nat, t: Token, n: nat, t': Token, n': nat)
    requires IsLongest(file, p, t, n) && IsLongest(file, p, t', n')
    ensures t == t' && n == n'
  {
  }

  /** What is recognised is the longest match of all rules, and of the first of them among equals. */
  lemma MatchIsLongest(file: seq<Byte>, p: nat)
    ensures IsLongest(file, p, Match(file, p).0, Match(file, p).1)
  {
    MatchBelongs(file, p);
    var m := Match(file, p);
    forall t, n: nat | Fits(file, p, t, n) ensures n < m.1 || (n == m.1 && RuleOrder(m.0) <= RuleOrder(t)) {
      NoLonger(file, p, t, n);
    }
  }

  lemma MatchBelongs(file: seq<Byte>, p: nat)
    ensures Belongs(Match(file, p).0, Lexeme(file, p, Match(file, p).1))
  {
    var t, n := Match(file, p).0, Match(file, p).1;
    var w := Lexeme(file, p, n);
    if t == WS { RunAll(file, p + 1, IsBlank); }
    if t == PLAN {
      RunAll(file, p + 4, IsDigit);
      PlanLexeme(file, p, n);
    }
    if t == TESTPOINT {
      SpellsAll(file, p, if n == 2 then [111, 107] else [110, 111, 116, 32, 111, 107]);
    }
  }

  lemma PlanLexeme(file: seq<Byte>, p: nat, n: nat)
    requires n >= 4 && Spells(file, p, [49, 46, 46])
    requires 49 <= ByteAt(file, p + 3) <= 57 && forall q :: p + 4 <= q < p + n ==> IsDigit(ByteAt(file, q))
    ensures IsPlan(Lexeme(file, p, n))
  {
    var w := Lexeme(file, p, n);
    var one: seq<Byte> := [49, 46, 46];
    assert ByteAt(file, p + 0) == one[0] && ByteAt(file, p + 1) == one[1] && ByteAt(file, p + 2) == one[2];
    forall k | 4 <= k < n ensures 48 <= w[k] <= 57 { assert IsDigit(ByteAt(file, p + k)); }
  }

  lemma SpellsAll(file: seq<Byte>, p: nat, w: seq<Byte>)
    ensures Spells(file, p, w) <==> Lexeme(file, p, |w|) == w
  {
    var l := Lexeme(file, p, |w|);
    if Spells(file, p, w) {
      forall k | 0 <= k < |w| ensures l[k] == w[k] { assert ByteAt(file, p + k) == w[k]; }
    }
  }

  lemma {:induction false} RunAll(file: seq<Byte>, p: nat, f: Byte -> bool)
    ensures forall q :: p <= q < p + RunLength(file, p, f) ==> f(ByteAt(file, q))
    decreases |file| - p
  {
    if p < |file| && f(file[p]) { RunAll(file, p + 1, f); }
  }

  /** A run of the class is not longer. */
  lemma {:induction false} RunMost(file: seq<Byte>, p: nat, f: Byte -> bool, n: nat)
    requires !f(0) && forall q :: p <= q < p + n ==> f(ByteAt(file, q))
    ensures n <= RunLength(file, p, f)
    decreases n
  {
    if n > 0 {
      assert f(ByteAt(file, p));
      RunMost(file, p + 1, f, n - 1);
    }
  }

  lemma NoLonger(file: seq<Byte>, p: nat, t: Token, n: nat)
    requires Fits(file, p, t, n)
    ensures n < Match(file, p).1 || (n == Match(file, p).1 && RuleOrder(Match(file, p).0) <= RuleOrder(t))
  {
    var w := Lexeme(file, p, n);
    assert w[0] == ByteAt(file, p);
    match t {
      case END =>
      case PLAN => NoLongerPlan(file, p, n);
      case TESTPOINT =>
        SpellsAll(file, p, [111, 107]);
        SpellsAll(file, p, [110, 111, 116, 32, 111, 107]);
        NoLongerPoint(file, p, n);
      case NL => if n == 2 { assert w[1] == ByteAt(file, p + 1); }
      case WS =>
        forall q | p + 1 <= q < p + n ensures IsBlank(ByteAt(file, q)) { assert w[q - p] == ByteAt(file, q); }
        RunMost(file, p + 1, IsBlank, n - 1);
      case ANY =>
    }
  }

  lemma NoLongerPlan(file: seq<Byte>, p: nat, n: nat)
    requires IsPlan(Lexeme(file, p, n))
    ensures Match(file, p).0 == PLAN && n <= Match(file, p).1
  {
    var w := Lexeme(file, p, n);
    assert w[1] == ByteAt(file, p + 1) && w[2] == ByteAt(file, p + 2) && w[3] == ByteAt(file, p + 3);
    var dots: seq<Byte> := [49, 46, 46];
    assert Spells(file, p, dots);
    forall q | p + 4 <= q < p + n ensures IsDigit(ByteAt(file, q)) { assert w[q - p] == ByteAt(file, q); }
    RunMost(file, p + 4, IsDigit, n - 4);
  }

  lemma NoLongerPoint(file: seq<Byte>, p: nat, n: nat)
    requires Belongs(TESTPOINT, Lexeme(file, p, n))
    ensures Match(file, p) == (TESTPOINT, n)
  {
    var w := Lexeme(file, p, n);
    SpellsAll(file, p, w);
    assert w[0] == ByteAt(file, p);
    FirstByte(file, p, [49, 46, 46]);
    FirstByte(file, p, [110, 111, 116, 32, 111, 107]);
  }

  lemma FirstByte(file: seq<Byte>, p: nat, w: seq<Byte>)
    requires w != []
    ensures Spells(file, p, w) ==> ByteAt(file, p) == w[0]
  {
    if Spells(file, p, w) { assert ByteAt(file, p + 0) == w[0]; }
  }

  /** Only the first byte decides which words can match. */
  lemma MatchByFirst(file: seq<Byte>, p: nat)
    ensures var c := ByteAt(file, p);
      && (c == 49 ==>
            var plan := Spells(file, p + 1, [46, 46]) && 49 <= ByteAt(file, p + 3) <= 57;
            Match(file, p) == if plan then (PLAN, 4 + RunLength(file, p + 4, IsDigit)) else (ANY, 1))
      && (c == 110 ==>
            var point := Spells(file, p + 1, [111, 116, 32, 111, 107]);
            Match(file, p) == if point then (TESTPOINT, 6) else (ANY, 1))
      && (c == 111 ==> Match(file, p) == if Spells(file, p + 1, [107]) then (TESTPOINT, 2) else (ANY, 1))
      && (c != 0 && c != 10 && c != 13 && c != 49 && c != 110 && c != 111 && !IsBlank(c) ==> Match(file, p) == (ANY, 1))
  {
    SpellsCons(file, p, 49, [46, 46]);
    SpellsCons(file, p, 110, [111, 116, 32, 111, 107]);
    SpellsCons(file, p, 111, [107]);
    var a: seq<Byte>, b: seq<Byte>, c: seq<Byte> := [49, 46, 46], [110, 111, 116, 32, 111, 107], [111, 107];
    assert a == [49] + [46, 46] && b == [110] + [111, 116, 32, 111, 107] && c == [111] + [107];
  }

  lemma SpellsCons(file: seq<Byte>, p: nat, c: Byte, w: seq<Byte>)
    ensures Spells(file, p, [c] + w) <==> ByteAt(file, p) == c && Spells(file, p + 1, w)
  {
    var v := [c] + w;
    assert v[0] == c;
    if Spells(file, p, v) {
      forall k | 0 <= k < |w| ensures ByteAt(file, p + 1 + k) == w[k] {
        assert v[k + 1] == w[k] && ByteAt(file, p + (k + 1)) == v[k + 1];
      }
    }
    if ByteAt(file, p) == c && Spells(file, p + 1, w) {
      forall k | 0 <= k < |v| ensures ByteAt(file, p + k) == v[k] {
        if k > 0 { assert ByteAt(file, p + 1 + (k - 1)) == w[k - 1]; }
      }
    }
  }

  lemma RunStep(file: seq<Byte>, p: nat, f: Byte -> bool)
    requires f(ByteAt(file, p)) && !f(0)
    ensures p < |file| && RunLength(file, p, f) == 1 + RunLength(file, p + 1, f)
  {
  }

  /** A run of blanks can be skipped in one go. */
  lemma SkipRun(file: seq<Byte>, p: nat)
    requires p < |file| && IsBlank(file[p])
    ensures SkipBlanks(file, p + 1 + RunLength(file, p + 1, IsBlank)) == SkipBlanks(file, p)
  {
    RunEnds(file, p + 1, IsBlank);
  }

  lemma {:induction false} RunEnds(file: seq<Byte>, p: nat, f: Byte -> bool)
    ensures RunLength(file, p + RunLength(file, p, f), f) == 0
    decreases |file| - p
  {
    if p < |file| && f(file[p]) { RunEnds(file, p + 1, f); }
  }

  /** The first position from p on that is not in a run of blanks. */
  function SkipBlanks(file: seq<Byte>, p: nat): nat {
    p + RunLength(file, p, IsBlank)
  }

  predicate BlankAt(file: seq<Byte>, p: nat) {
    var c := ByteAt(file, p);
    c == 9 || c == 11 || c == 32
  }

  lemma BlanksSkipped(file: seq<Byte>, p: nat)
    ensures forall k :: p <= k < SkipBlanks(file, p) ==> BlankAt(file, k)
  {
    RunAll(file, p, IsBlank);
    forall k | p <= k < SkipBlanks(file, p) ensures BlankAt(file, k) { assert IsBlank(ByteAt(file, k)); }
  }

  datatype Result = Lexed(token: Token) | Failed(code: nat)

  /** buf[lo..hi] is the slice of the file at base + lo. */
  ghost predicate Slice(buf: seq<Byte>, file: seq<Byte>, base: int, lo: nat, hi: nat)
    requires hi <= |buf|
  {
    forall k :: lo <= k < hi ==> buf[k] == ByteAt(file, base + k)
  }

  /** memmove(buf, buf + shift, used): the window moves down to the start of the buffer. */
  method MoveDown(buf: array<Byte>, shift: nat, used: nat)
    requires shift + used <= buf.Length
    modifies buf
    ensures forall k :: 0 <= k < used ==> buf[k] == old(buf[shift + k])
  {
    for i := 0 to used
      invariant forall k :: 0 <= k < i ==> buf[k] == old(buf[shift + k])
      invariant forall k :: i <= k < buf.Length ==> buf[k] == old(buf[k])
    {
      buf[i] := buf[shift + i];
    }
  }

  /** fread at position p of the file: up to n bytes, fewer only at the end of the file. */
  method Read(file: seq<Byte>, p: nat, buf: array<Byte>, at: nat, n: nat) returns (k: nat)
    requires at + n <= buf.Length && p <= |file|
    modifies buf
    ensures k == if n <= |file| - p then n else |file| - p
    ensures forall j :: at <= j < at + k ==> buf[j] == file[p + (j - at)]
    ensures forall j :: 0 <= j < buf.Length && !(at <= j < at + k) ==> buf[j] == old(buf[j])
  {
    k := if n <= |file| - p then n else |file| - p;
    for i := 0 to k
      invariant forall j :: at <= j < at + i ==> buf[j] == file[p + (j - at)]
      invariant forall j :: 0 <= j < buf.Length && !(at <= j < at + i) ==> buf[j] == old(buf[j])
    {
      buf[at + i] := file[p + i];
    }
  }

  class Input {
    const file: seq<Byte>
    var pos: nat
    var buf: array<Byte>
    var lim: nat
    var cur: nat
    var tok: nat
    var mar: int
    var eof: bool
    /** The absolute position of buf[0]; before the first fill it is negative. */
    ghost var base: int

    /** Scanner_Init on a freshly opened file. */
    constructor (file: seq<Byte>)
      ensures Valid() && this.file == file && Here() == 0 && !eof && fresh(buf)
    {
      this.file, pos := file, 0;
      buf := new Byte[4096](_ => 0);
      lim, cur, tok, mar := BUFSIZE, BUFSIZE, BUFSIZE, 0;
      eof, base := false, -BUFSIZE;
    }

    /** The window from the token on is the slice of the file at its absolute position, followed by zeros
        once the end of the file has been read. */
    ghost predicate Valid()
      reads this, buf
    {
      && buf.Length == 4096 && tok <= cur <= lim <= 4096 && base + tok >= 0
      && Slice(buf[..], file, base, tok, lim)
      && (if eof then base + lim == |file| + YYMAXFILL && pos == |file|
            else lim == BUFSIZE && base + lim == pos <= |file|)
    }

    /** The absolute position of the cursor. */
    ghost function Here(): int
      reads this
    {
      base + cur
    }

    /** memset(lim, 0, YYMAXFILL). */
    method Pad(at: nat)
      requires at + YYMAXFILL <= buf.Length
      modifies buf
      ensures forall j :: 0 <= j < buf.Length ==> buf[j] == if at <= j < at + YYMAXFILL then 0 else old(buf[j])
    {
      for i := 0 to YYMAXFILL
        invariant forall j :: 0 <= j < buf.Length ==> buf[j] == if at <= j < at + i then 0 else old(buf[j])
      {
        buf[at + i] := 0;
      }
    }

    /** fill: no byte of the window is lost, no position moves in the file, and after success at least
        `need` bytes can be read. It fails only at the end of input, or when the token already takes up the
        whole buffer. */
    method Fill(need: nat) returns (r: nat)
      requires Valid() && need <= YYMAXFILL
      modifies this, buf
      ensures Valid() && buf == old(buf)
      ensures r == if old(eof) then 1 else if old(tok) < need then 2 else 0
      ensures r != 0 ==> unchanged(this) && unchanged(buf)
      ensures r == 0 ==>
        && tok == 0 && lim - cur >= need && base + tok == old(base + tok)
        && Here() == old(Here()) && base + mar == old(base + mar)
    {
      if eof { return 1; }
      if tok < need { return 2; }
      Slide();
      Refill();
      r := 0;
    }

    /** Shift the buffer contents: everything up to the token is discarded. */
    method Slide()
      requires Valid() && !eof
      modifies this, buf
      ensures buf == old(buf) && pos == old(pos) && !eof && buf.Length == 4096
      ensures tok == 0 && cur == old(cur - tok) && lim == old(lim - tok) && mar == old(mar - tok)
      ensures base == old(base + tok)
      ensures Slice(buf[..], file, base, 0, lim)
    {
      var shift, used := tok, lim - tok;
      MoveDown(buf, shift, used);
      lim, cur, tok, mar := lim - shift, cur - shift, 0, mar - shift;
      base := base + shift;
    }

    /** Fill the free space with new data, and pad with zeros at the end of the file. */
    method Refill()
      requires buf.Length == 4096 && !eof && tok == 0 <= cur <= lim <= BUFSIZE && base >= 0
      requires base + lim == pos <= |file|
      requires Slice(buf[..], file, base, 0, lim)
      modifies this, buf
      ensures Valid() && buf == old(buf) && tok == 0 && cur == old(cur) && mar == old(mar) && base == old(base)
      ensures eof ==> lim >= old(lim) + YYMAXFILL
    {
      ghost var lim0 := lim;
      var n := Read(file, pos, buf, lim, BUFSIZE - lim);
      lim, pos := lim + n, pos + n;
      assert Slice(buf[..], file, base, 0, lim);
      if lim < BUFSIZE {
        eof := true;
        Pad(lim);
        lim := lim + YYMAXFILL;
      }
    }

    // ---- lex ----

    /** Enough bytes for the states that do not check: fill(6) if fewer than 6 are left. */
    method Ensure(need: nat) returns (r: nat)
      requires Valid() && need <= YYMAXFILL
      modifies this, buf
      ensures Valid() && buf == old(buf) && base + tok == old(base + tok) && Here() == old(Here())
      ensures base + mar == old(base + mar)
      ensures r == 0 ==> lim - cur >= need
      ensures r == 1 ==> Here() + need > |file| + YYMAXFILL
      ensures r > 1 ==> r == 2 && cur + need > BUFSIZE && tok < need
    {
      r := 0;
      if lim - cur < need { r := Fill(need); }
    }

    /** The loops at yy4 and yy18: step over the current byte and all that follow in the class. */
    method StepRun(f: Byte -> bool) returns (r: nat)
      requires Valid() && cur < lim && Here() < |file| && !f(0)
      modifies this, buf
      ensures Valid() && buf == old(buf) && base + tok == old(base + tok)
      ensures r == 0 ==> Here() == old(Here()) + 1 + RunLength(file, old(Here()) + 1, f)
      ensures r != 0 ==>
        && r == 2 && tok == 0 && cur == BUFSIZE
        && old(Here()) < Here() <= old(Here()) + 1 + RunLength(file, old(Here()) + 1, f)
    {
      ghost var end := Here() + 1 + RunLength(file, Here() + 1, f);
      r := StepOver();
      while r == 0 && f(buf[cur])
        invariant Valid() && buf == old(buf) && base + tok == old(base + tok) && old(Here()) < Here()
        invariant Here() + RunLength(file, Here(), f) == end
        invariant if r == 0 then cur < lim else r == 2 && tok == 0 && cur == BUFSIZE
        decreases |file| - Here(), if r == 0 then 1 else 0
      {
        Peek(0);
        RunStep(file, Here(), f);
        r := StepOver();
      }
      if r == 0 { Peek(0); }
    }

    /** Step over one byte of the file and see that the next one can be read. */
    method StepOver() returns (r: nat)
      requires Valid() && cur < lim && Here() < |file|
      modifies this, buf
      ensures Valid() && buf == old(buf) && base + tok == old(base + tok) && Here() == old(Here()) + 1
      ensures if r == 0 then cur < lim else r == 2 && tok == 0 && cur == BUFSIZE
    {
      cur := cur + 1;
      r := Ensure(1);
    }

    /** What is read in the buffer is what the file has there. */
    lemma Peek(k: nat)
      requires Valid() && cur + k < lim
      ensures buf[cur + k] == ByteAt(file, Here() + k)
    {
      assert buf[..][cur + k] == buf[cur + k];
    }

    /** The states after the first byte of "not ok": one byte at a time, back to the marker on a mismatch. */
    method Follow(w: seq<Byte>) returns (all: bool)
      requires Valid() && lim - cur > |w|
      modifies this
      ensures Valid() && buf == old(buf) && base == old(base) && tok == old(tok) && lim == old(lim)
      ensures all <==> Spells(file, old(Here()) + 1, w)
      ensures Here() == old(Here()) + 1 + (if all then |w| else 0) && base + mar == old(Here()) + 1
    {
      cur := cur + 1;
      mar := cur;
      var i := 0;
      while i < |w| && buf[cur] == w[i]
        invariant Valid() && buf == old(buf) && base == old(base) && tok == old(tok) && lim == old(lim)
        invariant mar == old(cur) + 1
        invariant i <= |w| && cur == old(cur) + 1 + i && forall k ::
          0 <= k < i ==> ByteAt(file, old(Here()) + 1 + k) == w[k]
      {
        Peek(0);
        cur, i := cur + 1, i + 1;
      }
      all := i == |w|;
      if !all {
        Peek(0);
        assert ByteAt(file, old(Here()) + 1 + i) != w[i];
        cur := mar;
      }
    }

    /** The states yy9, yy12 and yy16, from the '1' up to the first digit after "1..". */
    method FollowPlan() returns (plan: bool)
      requires Valid() && lim - cur >= YYMAXFILL
      modifies this
      ensures Valid() && buf == old(buf) && base == old(base) && tok == old(tok) && lim == old(lim)
      ensures plan <==> Spells(file, old(Here()) + 1, [46, 46]) && 49 <= ByteAt(file, old(Here()) + 3) <= 57
      ensures Here() == old(Here()) + if plan then 3 else 1
    {
      plan := Follow([46, 46]);
      if plan {
        Peek(0);
        if !(49 <= buf[cur] <= 57) {
          plan, cur := false, mar;
        }
      }
    }

    /** The tokens other than blanks. */
    method LexOne() returns (r: Result)
      requires Valid() && lim - cur >= YYMAXFILL && tok == cur && !IsBlank(ByteAt(file, Here()))
      modifies this, buf
      ensures Valid() && buf == old(buf) && base + tok == old(Here())
      ensures r.Lexed? ==> r.token == Match(file, old(Here())).0 && Here() == old(Here()) + Match(file, old(Here())).1
      ensures r.Failed? ==> r.code == 2 && TooLong()
    {
      Peek(0);
      MatchByFirst(file, Here());
      var c := buf[cur];
      if c == 49 {
        r := LexPlan();
      } else if c == 110 {
        var all := Follow([111, 116, 32, 111, 107]);
        r := Lexed(if all then TESTPOINT else ANY);
      } else if c == 111 {
        r := LexOk();
      } else if c == 13 {
        r := LexCr();
      } else {
        cur := cur + 1;
        r := Lexed(if c == 0 then END else if c == 10 then NL else ANY);
      }
    }

    /** The state yy11, after an 'o'. */
    method LexOk() returns (r: Result)
      requires Valid() && lim - cur >= YYMAXFILL && tok == cur && ByteAt(file, Here()) == 111
      modifies this
      ensures Valid() && buf == old(buf) && base + tok == old(Here())
      ensures r == Lexed(Match(file, old(Here())).0) && Here() == old(Here()) + Match(file, old(Here())).1
    {
      MatchByFirst(file, Here());
      var k: seq<Byte> := [107];
      assert Spells(file, Here() + 1, k) <==> ByteAt(file, Here() + 1 + 0) == k[0];
      Peek(1);
      cur := cur + 1;
      if buf[cur] == 107 {
        cur := cur + 1;
        r := Lexed(TESTPOINT);
      } else {
        r := Lexed(ANY);
      }
    }

    /** The state yy8, after a carriage return. */
    method LexCr() returns (r: Result)
      requires Valid() && lim - cur >= YYMAXFILL && tok == cur && ByteAt(file, Here()) == 13
      modifies this
      ensures Valid() && buf == old(buf) && base + tok == old(Here())
      ensures r == Lexed(Match(file, old(Here())).0) && Here() == old(Here()) + Match(file, old(Here())).1
    {
      Peek(1);
      cur := cur + 1;
      if buf[cur] == 10 { cur := cur + 1; }
      r := Lexed(NL);
    }

    method LexPlan() returns (r: Result)
      requires Valid() && lim - cur >= YYMAXFILL && tok == cur && ByteAt(file, Here()) == 49
      modifies this, buf
      ensures Valid() && buf == old(buf) && base + tok == old(Here())
      ensures r.Lexed? ==> r.token == Match(file, old(Here())).0 && Here() == old(Here()) + Match(file, old(Here())).1
      ensures r.Failed? ==> r.code == 2 && TooLong()
    {
      MatchByFirst(file, Here());
      var plan := FollowPlan();
      if plan {
        var code := StepRun(IsDigit);
        r := if code == 0 then Lexed(PLAN) else Failed(code);
      } else {
        r := Lexed(ANY);
      }
    }

    /** The run of blanks at the token. */
    method StepBlanks() returns (r: nat)
      requires Valid() && tok == cur < lim && IsBlank(ByteAt(file, Here()))
      modifies this, buf
      ensures Valid() && buf == old(buf) && Here() > old(Here()) && old(Here()) < |file|
      ensures r == 0 ==> SkipBlanks(file, Here()) == SkipBlanks(file, old(Here()))
      ensures r != 0 ==> r == 2 && TooLong()
    {
      SkipRun(file, Here());
      r := StepRun(IsBlank);
    }

    /** The lexeme at the token takes up the whole buffer. */
    ghost predicate TooLong()
      reads this
    {
      tok == 0 && cur == BUFSIZE && base >= 0 && Match(file, base).1 >= BUFSIZE
    }

    /** lex: the next token that is not a run of blanks, by longest match. The token starts where the last
        one ended, apart from blanks, so no byte is lost or read twice. Only past the end marker, or on a lexeme that
        does not fit the buffer, does it fail. */
    method Lex() returns (r: Result)
      requires Valid()
      modifies this, buf
      ensures Valid() && buf == old(buf)
      ensures r.Lexed? ==>
        && base + tok == SkipBlanks(file, old(Here()))
        && (forall k :: old(Here()) <= k < base + tok ==> BlankAt(file, k))
        && IsLongest(file, base + tok, r.token, Here() - (base + tok))
        && r.token == Match(file, base + tok).0 != WS && Here() == base + tok + Match(file, base + tok).1
      ensures r.Failed? ==> (r.code == 1 && Here() > |file|) || (r.code == 2 && TooLong())
    {
      ghost var start := Here();
      ghost var q := SkipBlanks(file, start);
      while true
        invariant Valid() && buf == old(buf) && SkipBlanks(file, Here()) == q
        decreases |file| - Here()
      {
        var code, blank := Begin();
        if code != 0 { return Failed(code); }
        if !blank {
          MatchIsLongest(file, Here());
          BlanksSkipped(file, start);
          r := LexOne();
          return;
        }
        code := StepBlanks();
        if code != 0 { return Failed(code); }
      }
    }

    /** A token begins at the cursor: is it a run of blanks? */
    method Begin() returns (code: nat, blank: bool)
      requires Valid()
      modifies this, buf
      ensures Valid() && buf == old(buf) && Here() == old(Here())
      ensures code == 0 ==> tok == cur && lim - cur >= YYMAXFILL && blank == IsBlank(ByteAt(file, Here()))
      ensures code == 0 && !blank ==> SkipBlanks(file, Here()) == Here() && Match(file, Here()).0 != WS
      ensures code != 0 ==> code == 1 && Here() > |file|
    {
      tok := cur;
      code := Ensure(6);
      blank := false;
      if code == 0 {
        Peek(0);
        blank := IsBlank(buf[cur]);
      }
    }
  }
}
