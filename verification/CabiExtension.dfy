/** The numbers that small integers stand for, and that they still do when they have been widened. */
module CabiExtension {
  import opened Wrappers
  import opened CabiTypes
  import opened CabiRegions
  import opened CabiOracle
  import opened CabiSignature
  import opened CabiCall

  // The bytes least significant first, as a number.
  function Unsigned(bs: seq<Byte>): (n: nat)
    decreases |bs|
  {
    if bs == [] then 0 else bs[0] as nat + 256 * Unsigned(bs[1..])
  }

  function Pow256(n: nat): (p: nat)
    ensures p >= 1
  {
    if n == 0 then 1 else 256 * Pow256(n - 1)
  }

  // Two's complement: the upper half of the numbers that so many bytes can hold are the negative ones.
  function Signed(bs: seq<Byte>): int {
    var n := Unsigned(bs);
    if bs != [] && bs[|bs| - 1] >= 128 then n - Pow256(|bs|) else n
  }

  // The number an integer of the type stands for.
  function Number(unsigned: bool, bs: seq<Byte>): int {
    if unsigned then Unsigned(bs) else Signed(bs)
  }

  // The register of four bytes that the attribute makes of fewer: filled up with zeros, or with copies
  // of the sign bit. Without an attribute nothing is known of the bytes above.
  predicate Widened(a: Attr, bs: seq<Byte>, reg: seq<Byte>) {
    && |reg| == 4 && |bs| <= 4 && bs <= reg
    && (a == Zext ==> forall i :: |bs| <= i < 4 ==> reg[i] == 0)
    && (a == Sext ==> forall i :: |bs| <= i < 4 ==> reg[i] == if bs != [] && bs[|bs| - 1] >= 128 then 255 else 0)
  }

  predicate SmallInteger(t: Ty) {
    t.Scalar? && t.kind.Integer? && (t.size == 1 || t.size == 2)
  }

  // The register stands for the number the bytes stand for, whatever bytes, by the type's own sign.
  ghost predicate KeepsNumber(t: Ty, a: Attr)
    requires SmallInteger(t)
  {
    forall bs: seq<Byte>, reg: seq<Byte> :: |bs| == t.size && Widened(a, bs, reg) ==>
      Number(t.kind.unsigned, reg) == Number(t.kind.unsigned, bs)
  }

  lemma FourBytes(r: seq<Byte>)
    requires |r| == 4
    ensures Unsigned(r) == r[0] as nat + 256 * r[1] as nat + 65536 * r[2] as nat + 16777216 * r[3] as nat
    ensures Pow256(4) == 4294967296 && Pow256(1) == 256 && Pow256(2) == 65536
  {
    assert r[3..][1..] == [] && r[2..][1..] == r[3..] && r[1..][1..] == r[2..];
    assert Unsigned(r[3..]) == r[3] as nat;
    assert Unsigned(r[2..]) == r[2] as nat + 256 * r[3] as nat;
    assert Unsigned(r[1..]) == r[1] as nat + 256 * Unsigned(r[2..]);
    assert Pow256(1) == 256 * Pow256(0);
    assert Pow256(2) == 256 * Pow256(1);
    assert Pow256(3) == 256 * Pow256(2);
  }

  lemma FewBytes(bs: seq<Byte>)
    requires |bs| == 1 || |bs| == 2
    ensures Unsigned(bs) == bs[0] as nat + if |bs| == 2 then 256 * bs[1] as nat else 0
  {
    if |bs| == 1 {
      assert bs[1..] == [];
    } else {
      assert bs[1..][1..] == [];
      assert Unsigned(bs[1..]) == bs[1] as nat;
    }
  }

  // Zeros keep the unsigned number, copies of the sign bit the signed one.
  lemma WidenedKeeps(unsigned: bool, bs: seq<Byte>, reg: seq<Byte>)
    requires |bs| == 1 || |bs| == 2
    requires Widened(if unsigned then Zext else Sext, bs, reg)
    ensures Number(unsigned, reg) == Number(unsigned, bs)
  {
    FewBytes(bs);
    FourBytes(reg);
    assert reg[0] == bs[0] && (|bs| == 2 ==> reg[1] == bs[1]);
  }

  // A byte, or two, all bits set: minus one, or the largest number.
  function AllOnes(n: nat): (bs: seq<Byte>)
    ensures |bs| == n
  {
    seq(n, _ => 255 as Byte)
  }

  function FilledUp(n: nat, b: Byte): (reg: seq<Byte>)
    requires n <= 4
    ensures |reg| == 4
  {
    AllOnes(n) + seq(4 - n, _ => b)
  }

  // Which attribute keeps the number, exactly.
  lemma KeepsNumberExactly(t: Ty, a: Attr)
    requires SmallInteger(t) && a in {NoAttr, Zext, Sext}
    ensures KeepsNumber(t, a) <==> a == (if t.kind.unsigned then Zext else Sext)
  {
    if a == (if t.kind.unsigned then Zext else Sext) {
      forall bs: seq<Byte>, reg: seq<Byte> | |bs| == t.size && Widened(a, bs, reg)
        ensures Number(t.kind.unsigned, reg) == Number(t.kind.unsigned, bs)
      {
        WidenedKeeps(t.kind.unsigned, bs, reg);
      }
    } else {
      var bs := AllOnes(t.size);
      var reg := FilledUp(t.size, if t.kind.unsigned then 255 else 0);
      assert bs <= reg && Widened(a, bs, reg);
      FewBytes(bs);
      FourBytes(reg);
      assert Number(t.kind.unsigned, reg) != Number(t.kind.unsigned, bs);
    }
  }

  // An integer of one or two bytes is passed by itself in one slot, whose attribute says how to widen
  // it so that it stands for the same number.
  lemma ParameterExtends(ts: seq<Ty>, res: Option<Ty>, k: nat)
    requires Signature(ts, res) && k < |ts| && SmallInteger(ts[k])
    ensures var ss := SlotsAt(Infos(ts, res), k + 2);
      |ss| == 1 && ss[0].ty == LInt(ts[k].size) && KeepsNumber(ts[k], ss[0].attr)
  {
    hide KeepsNumber;
    ScalarSlot(ts, res, k);
    KeepsNumberExactly(ts[k], if ts[k].kind.unsigned then Zext else Sext);
  }

  // All other scalars carry no attribute.
  lemma WiderUnmarked(ts: seq<Ty>, res: Option<Ty>, k: nat)
    requires Signature(ts, res) && k < |ts| && ts[k].Scalar? && !SmallInteger(ts[k])
    ensures var ss := SlotsAt(Infos(ts, res), k + 2); |ss| == 1 && ss[0].attr == NoAttr
  {
    ScalarSlot(ts, res, k);
  }

  lemma ScalarSlot(ts: seq<Ty>, res: Option<Ty>, k: nat)
    requires Signature(ts, res) && k < |ts| && ts[k].Scalar?
    ensures var ss := SlotsAt(Infos(ts, res), k + 2);
      ss == [Slot(match ts[k].kind
                  case Integer(_) => LInt(ts[k].size)
                  case Float => if ts[k].size == 4 then LFloat else LDouble
                  case Pointer => LPtr,
                  if !SmallInteger(ts[k]) then NoAttr else if ts[k].kind.unsigned then Zext else Sext)]
  {
    hide Infos, Pieces;
    InfosTake(ts, res, k);
    ScalarPieces(ts[k]);
  }

  // The same of results.
  lemma ResultExtends(t: Ty)
    requires Passable(t) && t.Scalar?
    ensures var i := ReturnInfo(Some(t));
      && i.disp == ParmDirect && i.types == [LlvmScalar(t)]
      && if SmallInteger(t) then KeepsNumber(t, i.attr) else i.attr == NoAttr
  {
    hide KeepsNumber, Pieces;
    ScalarPieces(t);
    if SmallInteger(t) { KeepsNumberExactly(t, if t.kind.unsigned then Zext else Sext); }
  }
}
