/** Export data written into assembly text: each chunk becomes one .ascii line, with the bytes that would
    upset the assembler escaped. */
module ExportData {
  import opened Wrappers
  import opened Uleb128
  import opened Assembler

  const QUOTE: Byte := 34
  const BACKSLASH: Byte := 92
  const NEWLINE: Byte := 10
  const NUL: Byte := 0
  const ZERO: Byte := 48
  const LETTER_N: Byte := 110

  // A tab, ".ascii", a space and a quote.
  const OPENING: seq<Byte> := [9, 46, 97, 115, 99, 105, 105, 32, 34]
  const CLOSING: seq<Byte> := [QUOTE, NEWLINE]

  function EscapeByte(b: Byte): seq<Byte> {
    if b == BACKSLASH then [BACKSLASH, BACKSLASH]
    else if b == NUL then [BACKSLASH, ZERO, ZERO, ZERO]
    else if b == NEWLINE then [BACKSLASH, LETTER_N]
    else if b == QUOTE then [BACKSLASH, QUOTE]
    else [b]
  }

  function Escape(bs: seq<Byte>): seq<Byte> {
    if bs == [] then [] else EscapeByte(bs[0]) + Escape(bs[1..])
  }

  function Line(bs: seq<Byte>): seq<Byte> {
    OPENING + Escape(bs) + CLOSING
  }

  function Lines(chunks: seq<seq<Byte>>): seq<Byte> {
    if chunks == [] then [] else Line(chunks[0]) + Lines(chunks[1..])
  }

  function Concat(chunks: seq<seq<Byte>>): seq<Byte> {
    if chunks == [] then [] else chunks[0] + Concat(chunks[1..])
  }

  // ----- what is read is what was written -----

  lemma ReadEscapedByte(b: Byte, t: seq<Byte>)
    ensures ReadString(EscapeByte(b) + t) == Put(b, ReadString(t))
  {
    var e := EscapeByte(b);
    var u := e + t;
    assert u[|e|..] == t;
    if b == NUL {
      ThreeZeros(u[1..]);
      assert u[1 + 3..] == t;
    }
  }

  lemma ThreeZeros(t: seq<Byte>)
    requires |t| >= 3 && t[0] == t[1] == t[2] == ZERO
    ensures Digits(t) == 3 && OctalValue(t, 3) == 0
  {
    assert OctalValue(t, 0) == 0;
    assert OctalValue(t, 1) == 0;
    assert OctalValue(t, 2) == 0;
  }

  lemma {:induction false} ReadEscaped(bs: seq<Byte>, t: seq<Byte>)
    ensures ReadString(Escape(bs) + [QUOTE] + t) == Str(bs, t)
    decreases bs
  {
    var rest := Escape(bs) + [QUOTE] + t;
    if bs == [] {
      assert rest[1..] == t;
    } else {
      var more := Escape(bs[1..]) + [QUOTE] + t;
      assert rest == EscapeByte(bs[0]) + more;
      ReadEscapedByte(bs[0], more);
      ReadEscaped(bs[1..], t);
      assert [bs[0]] + bs[1..] == bs;
    }
  }

  // A line puts the chunk it was written for into the section.
  lemma LineReadsBack(bs: seq<Byte>, more: seq<Byte>)
    ensures ReadLine(Line(bs) + more) == Str(bs, more)
  {
    hide ReadString, Escape;
    var str := Escape(bs) + [QUOTE] + ([NEWLINE] + more);
    var t := Line(bs) + more;
    assert t == OPENING + str;
    assert t[1..] == OPENING[1..] + str;
    var u := OPENING[1..] + str;
    assert SkipBlanks(u) == u;
    assert SkipBlanks(t) == u;
    assert Directive() <= u;
    var v := [QUOTE] + str;
    assert u[6..] == [32] + v && ([32] + v)[1..] == v;
    assert SkipBlanks(v) == v;
    assert SkipBlanks([32] + v) == v;
    assert v[1..] == str;
    ReadEscaped(bs, [NEWLINE] + more);
    assert ([NEWLINE] + more)[1..] == more;
  }

  // However the data comes in chunks, the assembler puts into the section just the data.
  lemma {:induction false} LinesReadBack(chunks: seq<seq<Byte>>)
    ensures ReadLines(Lines(chunks)) == Some(Concat(chunks))
    decreases chunks
  {
    if chunks != [] {
      LineReadsBack(chunks[0], Lines(chunks[1..]));
      LinesReadBack(chunks[1..]);
    }
  }

  // The number of backslashes just before place i.
  function Slashes(t: seq<Byte>, i: nat): (n: nat)
    requires i <= |t|
    ensures n <= i
  {
    if i == 0 || t[i - 1] != BACKSLASH then 0 else 1 + Slashes(t, i - 1)
  }

  predicate Tame(t: seq<Byte>) {
    forall i | 0 <= i < |t| :: TameAt(t, i)
  }

  // Backslashes escape each other in pairs: a quote is escaped by the last of an odd number.
  predicate TameAt(t: seq<Byte>, i: nat)
    requires i < |t|
  {
    t[i] != NEWLINE && t[i] != NUL && (t[i] == QUOTE ==> Slashes(t, i) % 2 == 1)
  }

  // The escaped text has no newline and no NUL, every quote in it is escaped, and the quote that
  // closes it is not.
  lemma {:induction false} EscapedIsTame(bs: seq<Byte>)
    ensures Tame(Escape(bs)) && Slashes(Escape(bs), |Escape(bs)|) % 2 == 0
    decreases |bs|
  {
    if bs != [] {
      var front, b := bs[..|bs| - 1], bs[|bs| - 1];
      assert bs == front + [b];
      EscapedIsTame(front);
      EscapeMore(front, b);
      TameMore(Escape(front), b);
    }
  }

  lemma {:induction false} SlashesPrefix(t: seq<Byte>, u: seq<Byte>, i: nat)
    requires i <= |t|
    ensures Slashes(t + u, i) == Slashes(t, i)
    decreases i
  {
    if i > 0 { SlashesPrefix(t, u, i - 1); }
  }

  // One more byte, escaped.
  lemma TameMore(t: seq<Byte>, b: Byte)
    requires Tame(t) && Slashes(t, |t|) % 2 == 0
    ensures var u := t + EscapeByte(b); Tame(u) && Slashes(u, |u|) % 2 == 0
  {
    var e := EscapeByte(b);
    var u := t + e;
    SlashesPrefix(t, e, |t|);
    if b == BACKSLASH {
      assert Slashes(u, |t| + 2) == 1 + Slashes(u, |t| + 1) == 2 + Slashes(u, |t|);
    } else if b == QUOTE {
      assert Slashes(u, |t| + 1) == 1 + Slashes(u, |t|);
    }
    forall i | 0 <= i < |u|
      ensures TameAt(u, i)
    {
      if i < |t| {
        SlashesPrefix(t, e, i);
        assert TameAt(t, i);
      }
    }
  }

  lemma {:induction false} EscapeMore(bs: seq<Byte>, b: Byte)
    ensures Escape(bs + [b]) == Escape(bs) + EscapeByte(b)
    decreases bs
  {
    if bs == [] {
      assert (bs + [b])[1..] == [];
    } else {
      EscapeMore(bs[1..], b);
      assert (bs + [b])[1..] == bs[1..] + [b];
    }
  }

  lemma {:induction false} LinesMore(chunks: seq<seq<Byte>>, c: seq<Byte>)
    ensures Lines(chunks + [c]) == Lines(chunks) + Line(c)
    decreases chunks
  {
    if chunks == [] {
      assert (chunks + [c])[1..] == [];
    } else {
      LinesMore(chunks[1..], c);
      assert (chunks + [c])[1..] == chunks[1..] + [c];
    }
  }

  // ----- the writer -----

  method PostProcessExportDataChunk(bytes: seq<Byte>) returns (t: seq<Byte>)
    ensures t == Escape(bytes)
  {
    var rewrites: map<Byte, seq<Byte>> := map[
      BACKSLASH := [BACKSLASH, BACKSLASH],
      NUL := [BACKSLASH, ZERO, ZERO, ZERO],
      NEWLINE := [BACKSLASH, LETTER_N],
      QUOTE := [BACKSLASH, QUOTE]];
    t := [];
    for idx := 0 to |bytes|
      invariant t == Escape(bytes[..idx])
    {
      var byte := bytes[idx];
      assert bytes[..idx + 1] == bytes[..idx] + [byte];
      EscapeMore(bytes[..idx], byte);
      if byte in rewrites {
        t := t + rewrites[byte];
      } else {
        t := t + [byte];
      }
    }
    assert bytes[..|bytes|] == bytes;
  }

  class Writer {
    var started: bool
    var finalized: bool
    var data: seq<Byte>            // the lines after the directive that opens the section
    ghost var chunks: seq<seq<Byte>>

    ghost predicate Valid()
      reads this
    {
      data == Lines(chunks) && (chunks != [] ==> started)
    }

    constructor ()
      ensures Valid() && chunks == [] && !started && !finalized
    {
      started, finalized, data, chunks := false, false, [], [];
    }

    // What the assembler would put into the section is all that has been written.
    method WriteExportData(bytes: seq<Byte>)
      requires Valid() && !finalized
      modifies this
      ensures Valid() && started && !finalized && chunks == old(chunks) + [bytes]
      ensures ReadLines(data) == Some(Concat(old(chunks) + [bytes]))
    {
      started := true;
      var t := PostProcessExportDataChunk(bytes);
      LinesMore(chunks, bytes);
      data := data + (OPENING + t + CLOSING);
      chunks := chunks + [bytes];
      LinesReadBack(chunks);
    }
  }
}
