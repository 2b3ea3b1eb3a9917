/** picocom's output path: character mapping, the growing output queue, and the write step. */
module TtyQueue {

  type Byte = x: int | 0 <= x < 256

  const CR: Byte := 13
  const LF: Byte := 10
  const TAB: Byte := 9
  const BS: Byte := 8
  const DEL: Byte := 127

  const M_MAXMAP := 4
  const TTY_Q_SZ_MIN := 256
  const TTY_Q_SZ := 32768

  /** The mapping flags. */
  datatype Maps = Maps(
    crlf: bool, crcrlf: bool, igncr: bool, lfcr: bool, lfcrlf: bool, ignlf: bool, delbs: bool, bsdel: bool,
    spchex: bool, tabhex: bool, crhex: bool, lfhex: bool, hex8bit: bool, nrmhex: bool)

  // ---- hexadecimal ----

  function HexDigit(v: nat): Byte
    requires v < 16
  {
    if v < 10 then 48 + v else 97 + (v - 10)
  }

  /** hex2byte: the value of a hexadecimal digit, or -1. */
  function Hex2Byte(c: Byte): int {
    if 48 <= c <= 57 then c - 48
    else if 65 <= c <= 70 then c - 65 + 10
    else if 97 <= c <= 102 then c - 97 + 10
    else -1
  }

  function Hex(c: Byte): (r: seq<Byte>)
    ensures |r| == 2 && Hex2Byte(r[0]) == c / 16 && Hex2Byte(r[1]) == c % 16
  {
    [HexDigit(c / 16), HexDigit(c % 16)]
  }

  /** map2hex. */
  function Bracketed(c: Byte): seq<Byte> {
    [91] + Hex(c) + [93]
  }

  // ---- do_map ----

  /** What each byte is to become; the empty sequence when it is to be ignored. */
  function Mapped(m: Maps, c: Byte): (r: seq<Byte>)
    ensures |r| <= M_MAXMAP
  {
    if c == DEL && m.delbs then [BS]
    else if c == BS && m.bsdel then [DEL]
    else if c == CR && m.crlf then [LF]
    else if c == CR && m.crcrlf then [CR, LF]
    else if c == CR && m.igncr then []
    else if c == LF && m.lfcr then [CR]
    else if c == LF && m.lfcrlf then [CR, LF]
    else if c == LF && m.ignlf then []
    else if ToHex(m, c) then Bracketed(c)
    else [c]
  }

  predicate ToHex(m: Maps, c: Byte) {
    || (c == CR && m.crhex) || (c == LF && m.lfhex) || (c == TAB && m.tabhex)
    || (m.spchex && (c == DEL || (c < 32 && c != TAB && c != LF && c != CR)))
    || (m.hex8bit && c >= 128)
    || (m.nrmhex && 32 <= c < 127)
  }

  // ---- the flags one by one ----

  /** The digits that map2hex writes, and those that hex2byte reads besides. */
  const LOWER: seq<Byte> := [48, 49, 50, 51, 52, 53, 54, 55, 56, 57, 97, 98, 99, 100, 101, 102]
  const UPPER: seq<Byte> := [48, 49, 50, 51, 52, 53, 54, 55, 56, 57, 65, 66, 67, 68, 69, 70]

  predicate IsHex(c: Byte, r: seq<Byte>) {
    r == [91, LOWER[c / 16], LOWER[c % 16], 93]
  }

  /** What r must be when c is mapped under the flags m: each flag on the bytes it is for, unless a flag before it
      takes effect on the same byte. */
  ghost predicate ObeysFlags(m: Maps, c: Byte, r: seq<Byte>) {
    && (c == 13 ==> ObeysCr(m, c, r)) && (c == 10 ==> ObeysLf(m, c, r)) && ObeysRest(m, c, r)
  }

  /** Carriage return: crlf before crcrlf before igncr before crhex. */
  ghost predicate ObeysCr(m: Maps, c: Byte, r: seq<Byte>) {
    && (m.crlf ==> r == [10])
    && (!m.crlf && m.crcrlf ==> r == [13, 10])
    && (!m.crlf && !m.crcrlf && m.igncr ==> r == [])
    && (!m.crlf && !m.crcrlf && !m.igncr && m.crhex ==> IsHex(c, r))
    && (!m.crlf && !m.crcrlf && !m.igncr && !m.crhex ==> r == [13])
  }

  /** Line feed: lfcr before lfcrlf before ignlf before lfhex. */
  ghost predicate ObeysLf(m: Maps, c: Byte, r: seq<Byte>) {
    && (m.lfcr ==> r == [13])
    && (!m.lfcr && m.lfcrlf ==> r == [13, 10])
    && (!m.lfcr && !m.lfcrlf && m.ignlf ==> r == [])
    && (!m.lfcr && !m.lfcrlf && !m.ignlf && m.lfhex ==> IsHex(c, r))
    && (!m.lfcr && !m.lfcrlf && !m.ignlf && !m.lfhex ==> r == [10])
  }

  /** All other bytes: delbs and bsdel before spchex, each of the hexadecimal flags on its own class. */
  ghost predicate ObeysRest(m: Maps, c: Byte, r: seq<Byte>) {
    && (c == 127 ==> if m.delbs then r == [8] else if m.spchex then IsHex(c, r) else r == [127])
    && (c == 8 ==> if m.bsdel then r == [127] else if m.spchex then IsHex(c, r) else r == [8])
    && (c == 9 ==> if m.tabhex then IsHex(c, r) else r == [9])
    && (c < 32 && c != 8 && c != 9 && c != 10 && c != 13 ==> if m.spchex then IsHex(c, r) else r == [c])
    && (32 <= c < 127 ==> if m.nrmhex then IsHex(c, r) else r == [c])
    && (128 <= c ==> if m.hex8bit then IsHex(c, r) else r == [c])
  }

  /** The flags leave one result for every byte, and it is the mapping. */
  lemma MappedObeys(m: Maps, c: Byte, r: seq<Byte>)
    ensures ObeysFlags(m, c, r) <==> r == Mapped(m, c)
  {
    BracketedHex(c);
    if c == 13 {
      ObeysCrOnce(m, c, r);
    } else if c == 10 {
      ObeysLfOnce(m, c, r);
    } else {
      ObeysRestOnce(m, c, r);
    }
  }

  lemma BracketedHex(c: Byte)
    ensures IsHex(c, Bracketed(c)) && forall r :: IsHex(c, r) ==> r == Bracketed(c)
  {
    DigitLower(c / 16);
    DigitLower(c % 16);
  }

  lemma DigitLower(v: nat)
    requires v < 16
    ensures HexDigit(v) == LOWER[v]
  {
  }

  lemma ObeysCrOnce(m: Maps, c: Byte, r: seq<Byte>)
    requires c == 13 && IsHex(c, Bracketed(c)) && forall r :: IsHex(c, r) ==> r == Bracketed(c)
    ensures ObeysCr(m, c, r) <==> r == Mapped(m, c)
  {
  }

  lemma ObeysLfOnce(m: Maps, c: Byte, r: seq<Byte>)
    requires c == 10 && IsHex(c, Bracketed(c)) && forall r :: IsHex(c, r) ==> r == Bracketed(c)
    ensures ObeysLf(m, c, r) <==> r == Mapped(m, c)
  {
  }

  lemma ObeysRestOnce(m: Maps, c: Byte, r: seq<Byte>)
    requires c != 13 && c != 10 && IsHex(c, Bracketed(c)) && forall r :: IsHex(c, r) ==> r == Bracketed(c)
    ensures ObeysRest(m, c, r) <==> r == Mapped(m, c)
  {
  }

  /** do_map writes at b[at..] and returns the number of bytes written; ok says whether its final assertion
      holds. */
  method DoMap(b: array<Byte>, at: nat, m: Maps, c: Byte) returns (n: int, ok: bool)
    requires at + M_MAXMAP <= b.Length
    modifies b
    ensures 0 <= n <= M_MAXMAP && b[at..at + n] == Mapped(m, c) && ObeysFlags(m, c, b[at..at + n])
    ensures forall k :: 0 <= k < b.Length && !(at <= k < at + n) ==> b[k] == old(b[k])
    ensures ok <==> !((c == CR && m.igncr && !m.crlf && !m.crcrlf) || (c == LF && m.ignlf && !m.lfcr && !m.lfcrlf))
  {
    n := -1;
    if c == DEL {
      if m.delbs { b[at] := BS; n := 1; }
    } else if c == BS {
      if m.bsdel { b[at] := DEL; n := 1; }
    } else if c == CR {
      if m.crlf { b[at] := LF; n := 1; }
      else if m.crcrlf { b[at], b[at + 1] := CR, LF; n := 2; }
      else if m.igncr { n := 0; }
      else if m.crhex { n := Map2Hex(b, at, c); }
    } else if c == LF {
      if m.lfcr { b[at] := CR; n := 1; }
      else if m.lfcrlf { b[at], b[at + 1] := CR, LF; n := 2; }
      else if m.ignlf { n := 0; }
      else if m.lfhex { n := Map2Hex(b, at, c); }
    } else if c == TAB {
      if m.tabhex { n := Map2Hex(b, at, c); }
    }
    if n < 0 && m.spchex {
      if c == DEL || (c < 32 && c != TAB && c != LF && c != CR) { n := Map2Hex(b, at, c); }
    }
    if n < 0 && m.hex8bit {
      if c >= 128 { n := Map2Hex(b, at, c); }
    }
    if n < 0 && m.nrmhex {
      if 32 <= c < 127 { n := Map2Hex(b, at, c); }
    }
    if n < 0 { b[at] := c; n := 1; }
    ok := 0 < n <= M_MAXMAP;
    MappedObeys(m, c, b[at..at + n]);
  }

  method Map2Hex(b: array<Byte>, at: nat, c: Byte) returns (n: int)
    requires at + M_MAXMAP <= b.Length
    modifies b
    ensures n == 4 && b[at..at + 4] == Bracketed(c)
    ensures forall k :: 0 <= k < b.Length && !(at <= k < at + 4) ==> b[k] == old(b[k])
  {
    b[at], b[at + 1], b[at + 2], b[at + 3] := 91, HexDigit(c / 16), HexDigit(c % 16), 93;
    n := 4;
  }

  /** The assertion of do_map fails exactly on the bytes that are to be ignored, so that igncr and ignlf
      abort the program instead of dropping a byte. */
  lemma IgnoredIsFatal(m: Maps, c: Byte)
    ensures Mapped(m, c) == [] <==>
      (c == CR && m.igncr && !m.crlf && !m.crcrlf) || (c == LF && m.ignlf && !m.lfcr && !m.lfcrlf)
  {
  }

  lemma IgnoredWitness()
    ensures Mapped(
      Maps(false, false, true, false, false, false, false, false, false, false, false, false, false, false), CR) == []
  {
  }

  /** The mappings of all bytes, one after the other. */
  function MappedAll(m: Maps, s: seq<Byte>): seq<Byte> {
    if s == [] then [] else MappedAll(m, s[..|s| - 1]) + Mapped(m, s[|s| - 1])
  }

  lemma MappedMore(m: Maps, s: seq<Byte>, c: Byte)
    ensures MappedAll(m, s + [c]) == MappedAll(m, s) + Mapped(m, c)
  {
    assert (s + [c])[..|s|] == s;
  }

  lemma QueueMore(m: Maps, taken: seq<Byte>, sent: seq<Byte>, queue: seq<Byte>, c: Byte)
    requires sent + queue == MappedAll(m, taken)
    ensures sent + (queue + Mapped(m, c)) == MappedAll(m, taken + [c])
  {
    MappedMore(m, taken, c);
    Associative(sent, queue, Mapped(m, c));
  }

  lemma PrefixMore(a: seq<Byte>, s: seq<Byte>, i: nat)
    requires i < |s|
    ensures a + s[..i + 1] == a + s[..i] + [s[i]]
  {
  }

  lemma Associative<T>(a: seq<T>, b: seq<T>, c: seq<T>)
    ensures a + (b + c) == (a + b) + c
  {
  }

  /** memmove(b, b + n, used). */
  method MoveDown(b: array<Byte>, n: nat, used: nat)
    requires n + used <= b.Length
    modifies b
    ensures b[..used] == old(b[n..n + used])
  {
    for k := 0 to used
      invariant forall j :: 0 <= j < k ==> b[j] == old(b[n + j])
      invariant forall j :: k <= j < b.Length ==> b[j] == old(b[j])
    {
      b[k] := b[k + n];
    }
  }

  // ---- the queue ----

  datatype Stop = All | Full | NoMemory | Aborted

  predicate IsSize(n: nat) {
    n == 256 || n == 512 || n == 1024 || n == 2048 || n == 4096 || n == 8192 || n == 16384 || n == 32768
  }

  class Queue {
    const omap: Maps
    var sz: nat
    var len: nat
    var buff: array<Byte>
    /** Since the last flush: the bytes accepted, and the bytes written to the port. */
    ghost var taken: seq<Byte>
    ghost var sent: seq<Byte>

    constructor (omap: Maps)
      ensures Valid() && this.omap == omap && len == 0 && taken == [] && sent == [] && fresh(buff)
    {
      this.omap, sz, len := omap, TTY_Q_SZ_MIN, 0;
      buff := new Byte[TTY_Q_SZ_MIN](_ => 0);
      taken, sent := [], [];
    }

    /** Conservation: what was written followed by what is queued is the mapping of what was accepted. */
    ghost predicate Valid()
      reads this, buff
    {
      && buff.Length == sz && len <= sz && IsSize(sz)
      && sent + buff[..len] == MappedAll(omap, taken)
    }

    /** Make room for one more byte: the size is doubled until it suffices. `grants` says which
        allocations succeed. */
    method MakeRoom(grants: nat -> bool) returns (stop: Stop)
      requires Valid()
      modifies this
      ensures Valid() && (buff == old(buff) || fresh(buff)) && buff[..len] == old(buff[..len])
      ensures len == old(len) && taken == old(taken) && sent == old(sent)
      ensures stop == All ==> len + M_MAXMAP <= sz
      ensures stop == Full ==> sz == TTY_Q_SZ && TTY_Q_SZ - len < M_MAXMAP
      ensures stop == NoMemory ==> !grants(2 * sz) && sz - len < M_MAXMAP
      ensures stop != Aborted
    {
      stop := All;
      while len + M_MAXMAP > sz
        invariant Valid() && (buff == old(buff) || fresh(buff)) && buff[..len] == old(buff[..len])
        invariant len == old(len) && taken == old(taken) && sent == old(sent)
        decreases TTY_Q_SZ - sz
      {
        var newSz := sz * 2;
        if newSz > TTY_Q_SZ { return Full; }
        if !grants(newSz) { return NoMemory; }
        var was := buff;
        var b := new Byte[newSz](k reads was => if 0 <= k < was.Length then was[k] else 0);
        assert b[..len] == was[..len];
        buff, sz := b, newSz;
      }
    }

    /** tty_q_push: accepts a prefix of the bytes; it stops early only when fewer than M_MAXMAP of the
        TTY_Q_SZ bytes are free, when an allocation fails, or on a byte that is mapped to nothing. */
    method Push(s: seq<Byte>, grants: nat -> bool) returns (i: nat, stop: Stop)
      requires Valid()
      modifies this, buff
      ensures Valid() && (buff == old(buff) || fresh(buff))
      ensures i <= |s| && taken == old(taken) + s[..i] && sent == old(sent)
      ensures stop == All ==> i == |s|
      ensures stop == Full ==> i < |s| && sz == TTY_Q_SZ && TTY_Q_SZ - len < M_MAXMAP
      ensures stop == NoMemory ==> i < |s| && !grants(2 * sz) && sz - len < M_MAXMAP
      ensures stop == Aborted <==> i < |s| && stop != Full && stop != NoMemory && Mapped(omap, s[i]) == []
    {
      i := 0;
      while i < |s|
        invariant Valid() && (buff == old(buff) || fresh(buff))
        invariant i <= |s| && taken == old(taken) + s[..i] && sent == old(sent)
      {
        stop := MakeRoom(grants);
        if stop != All { return; }
        var ok := Accept(s[i]);
        if !ok { return i, Aborted; }
        PrefixMore(old(taken), s, i);
        i := i + 1;
      }
      stop := All;
    }

    /** One byte, for which there is room. */
    method Accept(c: Byte) returns (ok: bool)
      requires Valid() && len + M_MAXMAP <= sz
      modifies this, buff
      ensures Valid() && buff == old(buff) && sent == old(sent)
      ensures ok <==> Mapped(omap, c) != []
      ensures taken == if ok then old(taken) + [c] else old(taken)
    {
      ghost var before := buff[..len];
      var n;
      n, ok := DoMap(buff, len, omap, c);
      assert buff[..len] == before;
      IgnoredIsFatal(omap, c);
      if ok {
        assert buff[..len + n] == before + Mapped(omap, c);
        QueueMore(omap, taken, sent, before, c);
        len := len + n;
        taken := taken + [c];
      }
    }

    /** The write step of the main loop: write() takes n bytes, at least one and at most tty_write_sz. */
    method WriteStep(writeSz: nat, n: nat)
      requires Valid() && len > 0 && 1 <= n <= (if len < writeSz then len else writeSz)
      modifies this, buff
      ensures Valid() && buff == old(buff) && taken == old(taken)
      ensures len == old(len) - n && sent == old(sent) + old(buff[..n]) && buff[..len] == old(buff[n..len])
    {
      ghost var queue := buff[..len];
      MoveDown(buff, n, len - n);
      sent := sent + queue[..n];
      len := len - n;
      assert buff[..len] == queue[n..];
      assert queue == queue[..n] + queue[n..];
      assert sent + buff[..len] == old(sent) + queue;
    }

    /** A flush drops the queue. */
    method Flush()
      requires Valid()
      modifies this
      ensures Valid() && len == 0 && taken == [] && sent == []
    {
      len, taken, sent := 0, [], [];
    }
  }

  // ---- hex2bin ----

  datatype Decoded = Bytes(b: seq<Byte>) | Invalid

  predicate IsDelim(c: Byte) {
    c in [32, 13, 59, 58, 45, 95, 46, 44, 47]
  }

  /** At most sz bytes from pairs of hexadecimal digits with delimiters between them. */
  function Decode(sz: nat, s: seq<Byte>): Decoded {
    if sz == 0 || s == [] then Bytes([])
    else if IsDelim(s[0]) then Decode(sz, s[1..])
    else if Hex2Byte(s[0]) < 0 || |s| < 2 || Hex2Byte(s[1]) < 0 then Invalid
    else
      match Decode(sz - 1, s[2..])
      case Invalid => Invalid
      case Bytes(b) => Bytes([Hex2Byte(s[0]) * 16 + Hex2Byte(s[1])] + b)
  }

  function Prepend(a: seq<Byte>, d: Decoded): Decoded {
    match d
    case Invalid => Invalid
    case Bytes(b) => Bytes(a + b)
  }

  lemma DecodeDelim(sz: nat, s: seq<Byte>, i: nat)
    requires sz > 0 && i < |s| && IsDelim(s[i])
    ensures Decode(sz, s[i..]) == Decode(sz, s[i + 1..])
  {
    assert s[i..][1..] == s[i + 1..];
  }

  lemma DecodePair(sz: nat, s: seq<Byte>, i: nat)
    requires sz > 0 && i < |s| && !IsDelim(s[i])
    ensures Hex2Byte(s[i]) < 0 || i + 1 == |s| || Hex2Byte(s[i + 1]) < 0 ==> Decode(sz, s[i..]) == Invalid
    ensures Hex2Byte(s[i]) >= 0 && i + 1 < |s| && Hex2Byte(s[i + 1]) >= 0 ==>
      Decode(sz, s[i..]) == Prepend([Hex2Byte(s[i]) * 16 + Hex2Byte(s[i + 1])], Decode(sz - 1, s[i + 2..]))
  {
    if i + 1 < |s| { assert s[i..][2..] == s[i + 2..]; }
  }

  method Hex2Bin(sz: nat, s: seq<Byte>) returns (r: Decoded)
    ensures r == Decode(sz, s)
  {
    var buf: seq<Byte>, i := [], 0;
    assert s[0..] == s;
    ghost var goal := Decode(sz, s);
    while |buf| < sz && i < |s|
      invariant |buf| <= sz && i <= |s| && goal == Prepend(buf, Decode(sz - |buf|, s[i..]))
      decreases |s| - i
    {
      var c := s[i];
      if IsDelim(c) {
        DecodeDelim(sz - |buf|, s, i);
        i := i + 1;
        continue;
      }
      DecodePair(sz - |buf|, s, i);
      var b0 := Hex2Byte(c);
      if b0 < 0 { return Invalid; }
      if i + 1 == |s| { return Invalid; }
      var b1 := Hex2Byte(s[i + 1]);
      if b1 < 0 { return Invalid; }
      PrependAssoc(buf, [b0 * 16 + b1], Decode(sz - |buf| - 1, s[i + 2..]));
      buf, i := buf + [b0 * 16 + b1], i + 2;
    }
    r := Bytes(buf);
  }

  lemma PrependAssoc(a: seq<Byte>, b: seq<Byte>, d: Decoded)
    ensures Prepend(a, Prepend(b, d)) == Prepend(a + b, d)
  {
    if d.Bytes? { assert a + (b + d.b) == a + b + d.b; }
  }

  /** Pairs of digits, each after delimiters of its own. */
  function HexText(digits: seq<(Byte, Byte)>, delims: seq<seq<Byte>>): seq<Byte>
    requires |delims| == |digits|
  {
    if digits == [] then []
    else delims[0] + [digits[0].0, digits[0].1] + HexText(digits[1..], delims[1..])
  }

  /** A hexadecimal digit of this value, in either case. */
  predicate Denotes(c: Byte, v: nat) {
    v < 16 && (c == LOWER[v] || c == UPPER[v])
  }

  ghost predicate Writes(digits: seq<(Byte, Byte)>, b: seq<Byte>) {
    && |digits| == |b|
    && forall k :: 0 <= k < |b| ==> Denotes(digits[k].0, b[k] / 16) && Denotes(digits[k].1, b[k] % 16)
  }

  ghost predicate AllDelims(d: seq<Byte>) {
    forall k :: 0 <= k < |d| ==> IsDelim(d[k])
  }

  /** s is the hexadecimal text of b, with delimiters anywhere between the pairs of digits; behind sz bytes anything may
      follow, otherwise only delimiters. */
  ghost predicate Spelled(sz: nat, s: seq<Byte>, b: seq<Byte>) {
    exists digits, delims, tail :: SpelledAs(sz, s, b, digits, delims, tail)
  }

  ghost predicate SpelledAs(sz: nat, s: seq<Byte>, b: seq<Byte>, digits: seq<(Byte, Byte)>, delims: seq<seq<Byte>>,
          tail: seq<Byte>) {
    |delims| == |digits| && s == HexText(digits, delims) + tail && HexParts(sz, b, digits, delims, tail)
  }

  ghost predicate HexParts(sz: nat, b: seq<Byte>, digits: seq<(Byte, Byte)>, delims: seq<seq<Byte>>, tail: seq<Byte>) {
    && |b| <= sz && |delims| == |digits| && Writes(digits, b)
    && (forall i :: 0 <= i < |delims| ==> AllDelims(delims[i])) && (|b| == sz || AllDelims(tail))
  }

  lemma DenotesValue(c: Byte)
    ensures Hex2Byte(c) >= 0 ==> Denotes(c, Hex2Byte(c))
    ensures forall v: nat :: Denotes(c, v) ==> Hex2Byte(c) == v && !IsDelim(c)
  {
  }

  lemma {:induction false} SkipDelims(sz: nat, d: seq<Byte>, s: seq<Byte>)
    requires AllDelims(d)
    ensures Decode(sz, d + s) == Decode(sz, s)
  {
    if d == [] {
      assert d + s == s;
    } else {
      assert (d + s)[1..] == d[1..] + s;
      SkipDelims(sz, d[1..], s);
    }
  }

  /** hex2bin reads exactly what is written as hexadecimal digits, in either case and with any delimiters. */
  lemma HexExact(sz: nat, s: seq<Byte>, b: seq<Byte>)
    ensures Decode(sz, s) == Bytes(b) <==> Spelled(sz, s, b)
  {
    if Decode(sz, s) == Bytes(b) {
      var digits, delims, tail := HexDecoded(sz, s, b);
    }
    if digits, delims, tail :| SpelledAs(sz, s, b, digits, delims, tail) {
      HexRoundTrip(sz, b, digits, delims, tail);
    }
  }

  lemma {:induction false} HexRoundTrip(sz: nat, b: seq<Byte>, digits: seq<(Byte, Byte)>, delims: seq<seq<Byte>>,
          tail: seq<Byte>)
    requires HexParts(sz, b, digits, delims, tail)
    ensures Decode(sz, HexText(digits, delims) + tail) == Bytes(b)
  {
    if b == [] {
      DecodeTail(sz, digits, delims, tail);
    } else {
      SpelledRest(sz, b, digits, delims, tail);
      HexRoundTrip(sz - 1, b[1..], digits[1..], delims[1..], tail);
      HexMore(sz, b, digits, delims, tail);
    }
  }

  lemma HexMore(sz: nat, b: seq<Byte>, digits: seq<(Byte, Byte)>, delims: seq<seq<Byte>>, tail: seq<Byte>)
    requires b != [] && HexParts(sz, b, digits, delims, tail)
    requires Decode(sz - 1, HexText(digits[1..], delims[1..]) + tail) == Bytes(b[1..])
    ensures Decode(sz, HexText(digits, delims) + tail) == Bytes(b)
  {
    SpelledRest(sz, b, digits, delims, tail);
    DecodeFirst(sz, b[0], digits, delims, tail);
    assert b == [b[0]] + b[1..];
  }

  lemma DecodeTail(sz: nat, digits: seq<(Byte, Byte)>, delims: seq<seq<Byte>>, tail: seq<Byte>)
    requires digits == [] && delims == [] && (sz == 0 || AllDelims(tail))
    ensures Decode(sz, HexText(digits, delims) + tail) == Bytes([])
  {
    assert HexText(digits, delims) + tail == tail + [];
    if sz > 0 { SkipDelims(sz, tail, []); }
  }

  lemma FirstText(digits: seq<(Byte, Byte)>, delims: seq<seq<Byte>>, tail: seq<Byte>)
    requires digits != [] && |delims| == |digits|
    ensures HexText(digits, delims) + tail ==
      delims[0] + ([digits[0].0, digits[0].1] + (HexText(digits[1..], delims[1..]) + tail))
  {
  }

  lemma DecodeFirst(sz: nat, c: Byte, digits: seq<(Byte, Byte)>, delims: seq<seq<Byte>>, tail: seq<Byte>)
    requires sz > 0 && digits != [] && |delims| == |digits| && AllDelims(delims[0])
    requires Denotes(digits[0].0, c / 16) && Denotes(digits[0].1, c % 16)
    ensures Decode(sz, HexText(digits, delims) + tail) ==
      Prepend([c], Decode(sz - 1, HexText(digits[1..], delims[1..]) + tail))
  {
    var h, t := [digits[0].0, digits[0].1], HexText(digits[1..], delims[1..]) + tail;
    FirstText(digits, delims, tail);
    SkipDelims(sz, delims[0], h + t);
    DecodeHex(sz, c, h, t);
  }

  lemma SpelledRest(sz: nat, b: seq<Byte>, digits: seq<(Byte, Byte)>, delims: seq<seq<Byte>>, tail: seq<Byte>)
    requires b != [] && HexParts(sz, b, digits, delims, tail)
    ensures sz > 0 && Denotes(digits[0].0, b[0] / 16) && Denotes(digits[0].1, b[0] % 16)
    ensures AllDelims(delims[0])
    ensures HexParts(sz - 1, b[1..], digits[1..], delims[1..], tail)
  {
  }

  lemma DecodeHex(sz: nat, c: Byte, h: seq<Byte>, t: seq<Byte>)
    requires sz > 0 && |h| == 2 && Denotes(h[0], c / 16) && Denotes(h[1], c % 16)
    ensures Decode(sz, h + t) == Prepend([c], Decode(sz - 1, t))
  {
    var s := h + t;
    assert s[0..] == s && s[2..] == t;
    DenotesValue(h[0]);
    DenotesValue(h[1]);
    DecodePair(sz, s, 0);
  }

  /** What was read, taken apart again. */
  lemma {:induction false} HexDecoded(sz: nat, s: seq<Byte>, b: seq<Byte>)
    returns (digits: seq<(Byte, Byte)>, delims: seq<seq<Byte>>, tail: seq<Byte>)
    requires Decode(sz, s) == Bytes(b)
    ensures SpelledAs(sz, s, b, digits, delims, tail)
    decreases |s|
  {
    if sz == 0 || s == [] {
      digits, delims, tail := [], [], s;
    } else if IsDelim(s[0]) {
      digits, delims, tail := HexDecoded(sz, s[1..], b);
      digits, delims, tail := OneDelim(sz, s, b, digits, delims, tail);
    } else {
      digits, delims, tail := HexDecoded(sz - 1, s[2..], b[1..]);
      digits, delims := OnePair(sz, s, b, digits, delims, tail);
    }
  }

  lemma OneDelim(sz: nat, s: seq<Byte>, b: seq<Byte>, digits: seq<(Byte, Byte)>, delims: seq<seq<Byte>>,
          tail: seq<Byte>)
    returns (digits': seq<(Byte, Byte)>, delims': seq<seq<Byte>>, tail': seq<Byte>)
    requires s != [] && IsDelim(s[0]) && SpelledAs(sz, s[1..], b, digits, delims, tail)
    ensures SpelledAs(sz, s, b, digits', delims', tail')
  {
    digits', delims', tail' := digits, delims, tail;
    assert s == [s[0]] + s[1..];
    if digits == [] {
      tail' := [s[0]] + tail;
    } else {
      delims' := [[s[0]] + delims[0]] + delims[1..];
      assert s == HexText(digits', delims') + tail';
    }
  }

  lemma WritesMore(c0: Byte, c1: Byte, digits: seq<(Byte, Byte)>, b: seq<Byte>)
    requires Hex2Byte(c0) >= 0 && Hex2Byte(c1) >= 0
    requires b != [] && b[0] == Hex2Byte(c0) * 16 + Hex2Byte(c1) && Writes(digits, b[1..])
    ensures Writes([(c0, c1)] + digits, b)
  {
    DenotesValue(c0);
    DenotesValue(c1);
    var all := [(c0, c1)] + digits;
    assert b[0] / 16 == Hex2Byte(c0) && b[0] % 16 == Hex2Byte(c1);
    forall k | 0 <= k < |b| ensures Denotes(all[k].0, b[k] / 16) && Denotes(all[k].1, b[k] % 16) {
      if k > 0 { assert all[k] == digits[k - 1] && b[k] == b[1..][k - 1]; }
    }
  }

  lemma OnePair(sz: nat, s: seq<Byte>, b: seq<Byte>, digits: seq<(Byte, Byte)>, delims: seq<seq<Byte>>,
          tail: seq<Byte>)
    returns (digits': seq<(Byte, Byte)>, delims': seq<seq<Byte>>)
    requires sz > 0 && |s| >= 2 && Hex2Byte(s[0]) >= 0 && Hex2Byte(s[1]) >= 0
    requires b != [] && b[0] == Hex2Byte(s[0]) * 16 + Hex2Byte(s[1])
    requires SpelledAs(sz - 1, s[2..], b[1..], digits, delims, tail)
    ensures SpelledAs(sz, s, b, digits', delims', tail)
  {
    digits', delims' := [(s[0], s[1])] + digits, [[]] + delims;
    WritesMore(s[0], s[1], digits, b);
    assert digits'[1..] == digits && delims'[1..] == delims;
    assert s == [s[0], s[1]] + s[2..];
    assert s == HexText(digits', delims') + tail;
  }
}
