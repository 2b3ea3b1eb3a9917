/** The sliding window of the tokenizer (tokenizer/scanner/input.c), which ends in a sentinel byte
instead of padding. */
module TokenizerInput {
  import opened Scanner

  const SIZE := 4096

  class Stream {
    const file: seq<Byte>
    var pos: nat
    var buf: array<Byte>
    var lim: nat
    var cur: nat
    var mar: nat
    var tok: nat
    var eof: bool
    /** The absolute position of buf[0]. */
    ghost var base: int

    /** Input_Init. */
    constructor (file: seq<Byte>)
      ensures Valid() && this.file == file && base + tok == 0 && cur == tok == mar && !eof && fresh(buf)
    {
      this.file, pos := file, 0;
      buf := new Byte[SIZE + 1](_ => 0);
      lim, cur, mar, tok, eof := SIZE, SIZE, SIZE, SIZE, false;
      base := -SIZE;
    }

    /** The window is a slice of the file, closed by the sentinel; at the end of the file it reaches
        exactly to the last byte. */
    ghost predicate Valid()
      reads this, buf
    {
      && buf.Length == SIZE + 1 && tok <= cur <= lim <= SIZE && tok <= mar <= lim && base + tok >= 0
      && Slice(buf[..], file, base, tok, lim) && buf[lim] == 0
      && base + lim == pos <= |file| && (if eof then pos == |file| else lim == SIZE)
    }

    /** fill: no byte of the window is lost and no position moves in the file; unless the end has been
        reached, there is a byte to read. */
    method Fill() returns (r: nat)
      requires Valid()
      modifies this, buf
      ensures Valid() && buf == old(buf)
      ensures r == if old(eof) then 1 else if old(tok) < 1 then 2 else 0
      ensures r != 0 ==> unchanged(this) && unchanged(buf)
      ensures r == 0 ==>
        tok == 0 && base + tok == old(base + tok) && base + cur == old(base + cur) && base + mar == old(base + mar)
      ensures r == 0 && !eof ==> cur < lim
      ensures pos >= old(pos)
    {
      if eof { return 1; }
      if tok < 1 { return 2; }
      Slide();
      var n := Read(file, pos, buf, lim, SIZE - lim);
      lim, pos := lim + n, pos + n;
      assert Slice(buf[..], file, base, 0, lim);
      buf[lim] := 0;
      if lim < SIZE { eof := true; }
      r := 0;
    }

    method Slide()
      requires Valid()
      modifies this, buf
      ensures buf == old(buf) && pos == old(pos) && eof == old(eof) && buf.Length == SIZE + 1
      ensures tok == 0 && cur == old(cur - tok) && lim == old(lim - tok) && mar == old(mar - tok)
      ensures base == old(base + tok)
      ensures Slice(buf[..], file, base, 0, lim)
    {
      var shift, used := tok, lim - tok;
      MoveDown(buf, shift, used);
      lim, cur, mar, tok := lim - shift, cur - shift, mar - shift, 0;
      base := base + shift;
    }
  }
}
