/** Types that the parameter passing gets wrong. */
module CabiLimits {
  import opened CabiTypes
  import opened CabiRegions
  import opened CabiOracle
  import opened CabiCall

  // An array of more than eight bytes whose elements are one or two bytes wide, such as [16]uint8 or
  // [5]int16: it is not divided in two, and the choice of a type for its only region fails.
  lemma ByteArraysFail(unsigned: bool, size: nat, n: nat)
    requires size == 1 || size == 2
    requires 8 < n * size <= 16
    ensures !Passable(Array(Scalar(Integer(unsigned), size), n))
  {
    PassableExactly(Array(Scalar(Integer(unsigned), size), n));
  }

  // An array of three 32-bit integers is returned as a struct that with its padding has sixteen bytes,
  // four more than the array.
  lemma ThreeIntsAggregate(unsigned: bool)
    ensures var t := Array(Scalar(Integer(unsigned), 4), 3);
      && Carried(t) && SizeOf(t) == 12 && |Pieces(t).value| == 2
      && AggregateSize(Pieces(t).value[0], Pieces(t).value[1]) == 16
  {
    var t := Array(Scalar(Integer(unsigned), 4), 3);
    hide Pieces, StoreSize, SecondOffset, AlignOfL;
    PassableExactly(t);
    ArrayExactly(t.elem, 3);
    MeetAt8Exactly(t);
    PieceIsNoPair(t);
    WideAggregate(Pieces(t).value[0], Pieces(t).value[1]);
  }

  // struct { struct { [0]int64; int8 }; int8 }
  function PaddedByEmpty(): Ty {
    Struct([Inner(), Int8()])
  }

  function Inner(): Ty {
    Struct([Array(Scalar(Integer(false), 8), 0), Int8()])
  }

  // The empty array pads the inner struct to eight bytes, yet the second piece is passed from byte 1:
  // there are values of which the second field does not arrive.
  lemma PaddedByEmptyLoses() returns (m: Mem, slot: Mem)
    ensures var t := PaddedByEmpty();
      && Passable(t) && !Plain(t) && SizeOf(t) == 16 && !MeetAt8(t)
      && |m| == |slot| == 16 && InSlot(16, Pieces(t).value)
      && !SameLeaves(t, PutBack(slot, Pieces(t).value, TakeApart(m, Pieces(t).value)), m)
  {
    hide Pieces, MeetAt8, SameLeaves, PutBack, TakeApart, InSlot;
    var t := PaddedByEmpty();
    PaddedByEmptyLayout();
    PassableExactly(t);
    PaddedByEmptyRegions();
    MeetAt8Exactly(t);
    m, slot := RoundTripLoses(t);
  }

  function Int8(): Ty {
    Scalar(Integer(false), 1)
  }

  lemma Int8Layout(off: nat)
    ensures Valid(Int8()) && Align(Int8()) == 1 && SizeOf(Int8()) == 1 && Widest(Int8()) == 1
    ensures Leaves(Int8(), off) == [Leaf(Int8(), off)]
  {
  }

  lemma OneField(y: Ty, pos: nat, off: nat)
    ensures var p := Up(pos, Align(y));
      && ValidSeq([y]) == Valid(y) && AlignSeq([y]) == Max(Align(y), 1) && WidestSeq([y]) == Max(Widest(y), 1)
      && EndOf([y], pos) == p + SizeOf(y) && LeavesSeq([y], pos, off) == Leaves(y, off + p)
  {
    assert [y][1..] == [] && [y][0] == y;
    assert ValidSeq([]) && AlignSeq([]) == 1 && WidestSeq([]) == 1;
  }

  // A struct of two fields.
  lemma TwoFields(x: Ty, y: Ty, off: nat)
    ensures var t := Struct([x, y]); var o := Up(0, Align(x)); var p := Up(o + SizeOf(x), Align(y));
      && (Valid(t) <==> Valid(x) && Valid(y))
      && Align(t) == Max(Align(x), Max(Align(y), 1)) && Widest(t) == Max(Widest(x), Max(Widest(y), 1))
      && SizeOf(t) == Up(p + SizeOf(y), Align(t))
      && Leaves(t, off) == Leaves(x, off + o) + Leaves(y, off + p)
  {
    hide Up;
    var fs := [x, y];
    assert fs[1..] == [y] && [y][1..] == [];
    var o := Up(0, Align(x));
    var p := Up(o + SizeOf(x), Align(y));
    OneField(y, o + SizeOf(x), off);
    assert fs[0] == x;
  }

  lemma PaddedByEmptyLayout()
    ensures var t := PaddedByEmpty(); Valid(t) && SizeOf(t) == 16 && !Plain(t)
    ensures Leaves(PaddedByEmpty(), 0) == [Leaf(Int8(), 0), Leaf(Int8(), 8)]
  {
    hide Leaves, SizeOf, Align, Widest, Valid;
    var e := Array(Scalar(Integer(false), 8), 0);
    Int8Layout(0);
    Int8Layout(8);
    EmptyLayout(Scalar(Integer(false), 8));
    assert Inner() == Struct([e, Int8()]) && PaddedByEmpty() == Struct([Inner(), Int8()]);
    TwoFields(e, Int8(), 0);
    TwoFields(Inner(), Int8(), 0);
  }

  lemma EmptyLayout(t: Ty)
    requires t == Scalar(Integer(false), 8)
    ensures var e := Array(t, 0); Valid(e) && SizeOf(e) == 0 && Align(e) == 8 && Widest(e) == 1 && Leaves(e, 0) == []
  {
  }

  lemma PaddedByEmptyRegions()
    ensures var rs := Split(PaddedByEmpty());
      |rs| == 2 && WfRegion(rs[0]) && WfRegion(rs[1]) && Span(rs[0]) == 1 && Span(rs[1]) == 1
  {
    hide Leaves;
    PaddedByEmptyLayout();
    var b := Int8();
    var ls := Leaves(PaddedByEmpty(), 0);
    assert ls[1..] == [Leaf(b, 8)];
    assert First8(ls) == 1;
    assert ls[..1] == [Leaf(b, 0)];
    SpanEnd(ls[..1]);
    SpanEnd(ls[1..]);
  }
}
