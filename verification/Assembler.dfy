/** How an assembler reads the .ascii directive. */
module Assembler {
  import opened Wrappers
  import opened Uleb128

  function Code(c: char): int {
    c as int
  }

  predicate Octal(b: Byte) {
    Code('0') <= b <= Code('7')
  }

  // The number of octal digits at the start, three at most.
  function Digits(bs: seq<Byte>): (n: nat)
    ensures n <= 3 && n <= |bs|
  {
    if |bs| == 0 || !Octal(bs[0]) then 0
    else if |bs| == 1 || !Octal(bs[1]) then 1
    else if |bs| == 2 || !Octal(bs[2]) then 2
    else 3
  }

  function OctalValue(bs: seq<Byte>, n: nat): (v: Byte)
    requires n <= |bs| && forall i | 0 <= i < n :: Octal(bs[i])
  {
    if n == 0 then 0 else (OctalValue(bs, n - 1) * 8 + bs[n - 1] - Code('0')) % 256
  }

  // What a letter stands for after a backslash.
  function Letter(b: Byte): Option<Byte> {
    if b == Code('b') then Some(8)
    else if b == Code('t') then Some(9)
    else if b == Code('n') then Some(10)
    else if b == Code('f') then Some(12)
    else if b == Code('r') then Some(13)
    else if b == Code('\\') || b == Code('\"') then Some(b)
    else None
  }

  datatype Str = Bad | Str(bytes: seq<Byte>, rest: seq<Byte>)

  function Put(b: Byte, s: Str): Str {
    if s.Bad? then Bad else Str([b] + s.bytes, s.rest)
  }

  // Reads a string up to its closing quote. It does not go on over the end of a line.
  function ReadString(t: seq<Byte>): (s: Str)
    ensures s.Str? ==> |s.rest| < |t|
    decreases |t|
  {
    if t == [] || t[0] == Code('\n') || t[0] == 0 then Bad
    else if t[0] == Code('\"') then Str([], t[1..])
    else if t[0] != Code('\\') then Put(t[0], ReadString(t[1..]))
    else if |t| == 1 then Bad
    else if Octal(t[1]) then
      var n := Digits(t[1..]);
      Put(OctalValue(t[1..], n), ReadString(t[1 + n..]))
    else
      match Letter(t[1])
      case Some(b) => Put(b, ReadString(t[2..]))
      case None => Bad
  }

  // What is left after blanks.
  function SkipBlanks(t: seq<Byte>): (r: seq<Byte>)
    ensures |r| <= |t|
  {
    if t != [] && (t[0] == Code(' ') || t[0] == Code('\t')) then SkipBlanks(t[1..]) else t
  }

  function Directive(): seq<Byte> {
    [Code('.'), Code('a'), Code('s'), Code('c'), Code('i'), Code('i')]
  }

  // Reads one .ascii line: the directive, a blank at least, a string, and the end of the line.
  function ReadLine(t: seq<Byte>): (s: Str)
    ensures s.Str? ==> |s.rest| < |t|
  {
    var u := SkipBlanks(t);
    if !(Directive() <= u) then Bad
    else
      var v := SkipBlanks(u[6..]);
      if |v| == |u| - 6 || v == [] || v[0] != Code('\"') then Bad
      else
        var s := ReadString(v[1..]);
        if s.Bad? then Bad
        else
          var w := SkipBlanks(s.rest);
          if w == [] || w[0] != Code('\n') then Bad else Str(s.bytes, w[1..])
  }

  // Reads .ascii lines to the end of the text, and gives the bytes they put into the section.
  function ReadLines(t: seq<Byte>): Option<seq<Byte>>
    decreases |t|
  {
    if t == [] then Some([])
    else
      var s := ReadLine(t);
      if s.Bad? then None
      else
        var more := ReadLines(s.rest);
        if more.None? then None else Some(s.bytes + more.value)
  }
}
