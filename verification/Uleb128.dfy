/** Unsigned LEB128 numbers (section 7.6 of DWARF version 4): seven bits to a byte, least significant
    first, the top bit set in all bytes but the last. */
module Uleb128 {
  type Byte = x: int | 0 <= x < 256
  type U32 = x: int | 0 <= x < 0x1_0000_0000

  datatype Read = Truncated | Number(value: nat, len: nat)

  function Uleb(v: nat): (bs: seq<Byte>)
    ensures bs != []
  {
    if v < 128 then [v] else [v % 128 + 128] + Uleb(v / 128)
  }

  function Read128(bs: seq<Byte>): (r: Read)
    ensures r.Number? ==> 0 < r.len <= |bs|
  {
    if bs == [] then Truncated
    else if bs[0] < 128 then Number(bs[0], 1)
    else
      match Read128(bs[1..])
      case Truncated => Truncated
      case Number(v, n) => Number(bs[0] - 128 + 128 * v, n + 1)
  }

  // Reading takes back just what was written, whatever follows.
  lemma {:induction false} RoundTrip(v: nat, rest: seq<Byte>)
    ensures Read128(Uleb(v) + rest) == Number(v, |Uleb(v)|)
    decreases v
  {
    if v >= 128 {
      RoundTrip(v / 128, rest);
      assert (Uleb(v) + rest)[1..] == Uleb(v / 128) + rest;
    } else {
      assert (Uleb(v) + rest)[0] == v;
    }
  }

  // The number that bytes stand for, seven bits to a byte.
  function Weighted(bs: seq<Byte>): nat
    decreases |bs|
  {
    if bs == [] then 0 else (if bs[0] >= 128 then bs[0] - 128 else bs[0]) + 128 * Weighted(bs[1..])
  }

  lemma WeightedIs(bs: seq<Byte>)
    ensures Weighted(bs) ==
            if bs == [] then 0 else (if bs[0] >= 128 then bs[0] - 128 else bs[0]) + 128 * Weighted(bs[1..])
  {
  }

  // The format: the top bit is set in all bytes but the last, and the other bits make up the number.
  lemma {:induction false} UlebFormat(v: nat)
    ensures var bs := Uleb(v);
      && bs[|bs| - 1] < 128 && (forall i | 0 <= i < |bs| - 1 :: bs[i] >= 128)
      && Weighted(bs) == v && (v > 0 ==> bs[|bs| - 1] != 0)
    decreases v
  {
    hide Weighted;
    var bs := Uleb(v);
    WeightedIs(bs);
    if v < 128 {
      assert bs[1..] == [];
      WeightedIs(bs[1..]);
    } else {
      UlebFormat(v / 128);
      assert bs[1..] == Uleb(v / 128) && bs[0] == v % 128 + 128;
      forall i | 0 <= i < |bs| - 1
        ensures bs[i] >= 128
      {
        if i > 0 { assert bs[i] == bs[1..][i - 1]; }
      }
    }
  }

  ghost function Pow128(n: nat): nat {
    if n == 0 then 1 else 128 * Pow128(n - 1)
  }

  // n bytes hold every number below 128^n.
  lemma {:induction false} UlebIsShort(v: nat, n: nat)
    requires v < Pow128(n) && n > 0
    ensures |Uleb(v)| <= n
    decreases n
  {
    if v >= 128 { UlebIsShort(v / 128, n - 1); }
  }

  lemma U32IsShort(v: U32)
    ensures |Uleb(v)| <= 5
  {
    assert Pow128(5) == 128 * 128 * 128 * 128 * 128 by {
      assert Pow128(3) == 128 * 128 * 128;
      assert Pow128(4) == 128 * Pow128(3);
    }
    UlebIsShort(v, 5);
  }

  method EncodeULEB128(value: nat, buf: array<Byte>, off: nat) returns (len: nat)
    requires off + |Uleb(value)| <= buf.Length
    modifies buf
    ensures len == |Uleb(value)| && buf[off..off + len] == Uleb(value)
    ensures buf[..off] == old(buf[..off])
  {
    var v := value;
    len := 0;
    while v >= 128
      invariant off + len + |Uleb(v)| <= buf.Length && buf[..off] == old(buf[..off])
      invariant buf[off..off + len] + Uleb(v) == Uleb(value)
      decreases v
    {
      ghost var before := buf[off..off + len];
      buf[off + len] := v % 128 + 128;
      assert buf[off..off + len + 1] == before + [v % 128 + 128];
      v := v / 128;
      len := len + 1;
    }
    ghost var before := buf[off..off + len];
    buf[off + len] := v;
    len := len + 1;
    assert buf[off..off + len] == before + [v];
  }

  function Shifted(m: nat, r: Read, base: nat, n: nat): Read {
    if r.Truncated? then Truncated else Number(base + m * r.value, n + r.len)
  }

  method DecodeULEB128(bs: seq<Byte>, at: nat) returns (value: nat, len: nat)
    requires at <= |bs| && Read128(bs[at..]).Number?
    ensures Read128(bs[at..]) == Number(value, len)
  {
    value, len := 0, 0;
    var weight: nat := 1;
    while bs[at + len] >= 128
      invariant at + len < |bs| && Read128(bs[at + len..]).Number?
      invariant Read128(bs[at..]) == Shifted(weight, Read128(bs[at + len..]), value, len)
      decreases |bs| - len
    {
      var b := bs[at + len];
      assert bs[at + len..][1..] == bs[at + len + 1..];
      ShiftMore(weight, b - 128, Read128(bs[at + len + 1..]).value);
      value := value + weight * (b - 128);
      weight := weight * 128;
      len := len + 1;
    }
    value := value + weight * bs[at + len];
    len := len + 1;
  }

  lemma ShiftMore(weight: nat, b: nat, v: nat)
    ensures weight * (b + 128 * v) == weight * b + weight * 128 * v
  {
    assert weight * (b + 128 * v) == weight * b + weight * (128 * v);
  }
}
