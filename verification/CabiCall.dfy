/** A call from end to end: what the caller takes apart, the callee puts back. */
module CabiCall {
  import opened Wrappers
  import opened CabiTypes
  import opened CabiRegions
  import opened CabiEightByte
  import opened CabiOracle
  import opened CabiSignature

  newtype Byte = x: int | 0 <= x < 256

  type Mem = seq<Byte>

  // What is passed for a slot: the bytes loaded, the address of a value in memory (which the callee
  // gets a copy of), the address for the result, or the static chain.
  datatype Value = Chunk(bytes: seq<Byte>) | Address(mem: Mem) | ResultAddress | ChainValue

  function Load(m: Mem, off: nat, l: LTy): seq<Byte>
    requires off + StoreSize(l) <= |m|
  {
    m[off..off + StoreSize(l)]
  }

  function Poke(m: Mem, off: nat, bytes: seq<Byte>): (r: Mem)
    requires off + |bytes| <= |m|
    ensures |r| == |m|
  {
    m[..off] + bytes + m[off + |bytes|..]
  }

  // ----- what the pieces of a type cover -----

  // No access outside the value.
  predicate InSlot(size: nat, ps: seq<LTy>) {
    && 1 <= |ps| <= 2 && StoreSize(ps[0]) <= size
    && (|ps| == 2 ==> SecondOffset(ps[0], ps[1]) + StoreSize(ps[1]) <= size)
  }

  // Each scalar of the type lies within one of the pieces.
  predicate Covers(t: Ty, ps: seq<LTy>) {
    forall i :: 0 <= i < |Leaves(t, 0)| ==> Covered(Leaves(t, 0)[i], ps)
  }

  predicate Covered(l: Leaf, ps: seq<LTy>) {
    && l.ty.Scalar? && |ps| >= 1
    && (l.off + l.ty.size <= StoreSize(ps[0])
        || (|ps| == 2 && SecondOffset(ps[0], ps[1]) <= l.off
          && l.off + l.ty.size <= SecondOffset(ps[0], ps[1]) + StoreSize(ps[1])))
  }

  // The two pieces of the type, if it has two, meet at byte 8.
  predicate MeetAt8(t: Ty) {
    Pieces(t).Some? && (|Pieces(t).value| == 2 ==> SecondOffset(Pieces(t).value[0], Pieces(t).value[1]) == 8)
  }

  // For a struct, this is when one of its regions is more than four bytes wide; for the other types
  // that are passed in pieces, always.
  lemma MeetAt8Exactly(t: Ty)
    requires Passable(t) && 1 <= SizeOf(t) <= 16
    ensures forall i :: 0 <= i < |Split(t)| ==> WfRegion(Split(t)[i])
    ensures MeetAt8(t) <==> (t.Struct? && |Split(t)| == 2 ==> Span(Split(t)[0]) > 4 || Span(Split(t)[1]) > 4)
    ensures Plain(t) ==> MeetAt8(t)
  {
    hide SizeOf, Pieces, Split, Span, SecondOffset, ArrayFits, Plain;
    SplitWf(t);
    match t
    case Struct(_) =>
      if |Split(t)| == 2 {
        SecondFieldAtEight(t);
        if Plain(t) { PlainIsWide(t); }
      }
    case Array(e, n) =>
      PassableExactly(t);
      ArrayIsNotEmpty(e, n);
      ArrayExactly(e, n);
    case Scalar(_, _) => ScalarPieces(t);
  }

  lemma StructPieces(t: Ty)
    requires Valid(t) && t.Struct? && 1 <= SizeOf(t) <= 16
    ensures Pieces(t).Some? && InSlot(SizeOf(t), Pieces(t).value)
    ensures MeetAt8(t) ==> Covers(t, Pieces(t).value)
  {
    hide SizeOf, Leaves, Split, Chosen, Span, RegionOf, SecondOffset, StoreSize;
    StructSplits(t);
    SplitInEight(t);
    LeavesSplit(t);
    var ls := Leaves(t, 0);
    var k := First8(ls);
    var ps := Pieces(t).value;
    RegionFits(ls[..k], 0);
    SpanEnd(ls[..k]);
    assert ls[..k][k - 1] == ls[k - 1];
    if k < |ls| {
      RegionFits(ls[k..], 8);
      SpanEnd(ls[k..]);
      SecondFieldAtEight(t);
      assert ls[k..][|ls| - k - 1] == ls[|ls| - 1];
    }
    if MeetAt8(t) {
      forall i | 0 <= i < |ls|
        ensures Covered(ls[i], ps)
      {
        if i < k { assert ls[..k][i] == ls[i]; } else { assert ls[k..][i - k] == ls[i]; }
      }
    }
  }

  lemma SpanEnd(ls: seq<Leaf>)
    requires ls != [] && WfRegion(RegionOf(ls)) && ls[|ls| - 1].ty.Scalar?
    ensures Span(RegionOf(ls)) == ls[|ls| - 1].off + ls[|ls| - 1].ty.size - ls[0].off
  {
    var r := RegionOf(ls);
    assert r.offsets[|ls| - 1] == ls[|ls| - 1].off && r.types[|ls| - 1] == ls[|ls| - 1].ty && r.offsets[0] == ls[0].off;
  }

  lemma ArrayPiecesCover(t: Ty)
    requires Passable(t) && t.Array? && 1 <= SizeOf(t) <= 16
    ensures InSlot(SizeOf(t), Pieces(t).value) && Covers(t, Pieces(t).value)
  {
    hide SizeOf, Leaves, Pieces, SecondOffset, StoreSize, ArrayFits, Align;
    PassableExactly(t);
    ArrayIsNotEmpty(t.elem, t.count);
    ArrayExactly(t.elem, t.count);
    LeavesSplit(t);
  }

  lemma ScalarPiecesCover(t: Ty)
    requires t.Scalar? && Valid(t)
    ensures Pieces(t).Some? && InSlot(SizeOf(t), Pieces(t).value) && Covers(t, Pieces(t).value)
  {
    ScalarPieces(t);
  }

  // Every access is within the value; and when the pieces meet at byte 8 no scalar is missed.
  lemma PiecesCover(t: Ty)
    requires Passable(t) && 1 <= SizeOf(t) <= 16
    ensures InSlot(SizeOf(t), Pieces(t).value)
    ensures MeetAt8(t) ==> Covers(t, Pieces(t).value)
  {
    hide SizeOf, Pieces, InSlot, Covers;
    match t
    case Struct(_) => StructPieces(t);
    case Array(_, _) => ArrayPiecesCover(t);
    case Scalar(_, _) => ScalarPiecesCover(t);
  }

  // ----- one value, out and back -----

  // Chunks of the sizes of the pieces.
  predicate Chunks(vs: seq<Value>, ps: seq<LTy>) {
    |vs| == |ps| && forall i :: 0 <= i < |vs| ==> vs[i].Chunk? && |vs[i].bytes| == StoreSize(ps[i])
  }

  // The bytes of the pieces of m.
  function TakeApart(m: Mem, ps: seq<LTy>): (r: seq<Value>)
    requires InSlot(|m|, ps)
    ensures Chunks(r, ps)
  {
    [Chunk(Load(m, 0, ps[0]))] + (if |ps| == 2 then [Chunk(Load(m, SecondOffset(ps[0], ps[1]), ps[1]))] else [])
  }

  // The slot, with the pieces stored into it.
  function PutBack(slot: Mem, ps: seq<LTy>, vs: seq<Value>): (r: Mem)
    requires InSlot(|slot|, ps) && Chunks(vs, ps)
    ensures |r| == |slot|
  {
    var s := Poke(slot, 0, vs[0].bytes);
    if |ps| == 2 then Poke(s, SecondOffset(ps[0], ps[1]), vs[1].bytes) else s
  }

  predicate SameAt(a: Mem, b: Mem, l: Leaf) {
    l.ty.Scalar? && l.off + l.ty.size <= |a| == |b| && a[l.off..l.off + l.ty.size] == b[l.off..l.off + l.ty.size]
  }

  // The two values agree on every scalar of the type; padding does not matter.
  predicate SameLeaves(t: Ty, a: Mem, b: Mem) {
    forall i :: 0 <= i < |Leaves(t, 0)| ==> SameAt(a, b, Leaves(t, 0)[i])
  }

  lemma OutAndBack(m: Mem, slot: Mem, ps: seq<LTy>, i: nat)
    requires InSlot(|m|, ps) && |slot| == |m| && i < |m|
    ensures PutBack(slot, ps, TakeApart(m, ps))[i] ==
      if i < StoreSize(ps[0])
         || (|ps| == 2 && SecondOffset(ps[0], ps[1]) <= i < SecondOffset(ps[0], ps[1]) + StoreSize(ps[1]))
      then m[i] else slot[i]
  {
    hide StoreSize, SecondOffset;
  }

  // Taken apart and put back into a slot of its size, a value keeps all its scalars.
  lemma RoundTrip(t: Ty, m: Mem, slot: Mem)
    requires Passable(t) && 1 <= SizeOf(t) <= 16 && |m| == |slot| == SizeOf(t) && MeetAt8(t)
    ensures InSlot(|m|, Pieces(t).value)
    ensures SameLeaves(t, PutBack(slot, Pieces(t).value, TakeApart(m, Pieces(t).value)), m)
  {
    hide SizeOf, Pieces, Leaves, PutBack, TakeApart, MeetAt8;
    PiecesCover(t);
    LeavesSplit(t);
    var ps := Pieces(t).value;
    var r := PutBack(slot, ps, TakeApart(m, ps));
    forall k | 0 <= k < |Leaves(t, 0)|
      ensures SameAt(r, m, Leaves(t, 0)[k])
    {
      var l := Leaves(t, 0)[k];
      assert Covered(l, ps);
      forall i | l.off <= i < l.off + l.ty.size
        ensures r[i] == m[i]
      {
        OutAndBack(m, slot, ps, i);
      }
    }
  }

  // Not so, when the pieces do not meet at byte 8: the scalar stored there is lost.
  lemma RoundTripLoses(t: Ty) returns (m: Mem, slot: Mem)
    requires Passable(t) && 1 <= SizeOf(t) <= 16 && !MeetAt8(t)
    ensures |m| == |slot| == SizeOf(t) && InSlot(|m|, Pieces(t).value)
    ensures !SameLeaves(t, PutBack(slot, Pieces(t).value, TakeApart(m, Pieces(t).value)), m)
  {
    hide SizeOf, Pieces, Leaves, PutBack, TakeApart, Split, Span, StoreSize, SecondOffset, Chosen;
    PiecesCover(t);
    MeetAt8Exactly(t);
    StructSplits(t);
    LeavesSplit(t);
    SecondFieldAtEight(t);
    var ps := Pieces(t).value;
    m := seq(SizeOf(t), _ => 1 as Byte);
    slot := seq(SizeOf(t), _ => 0 as Byte);
    var r := PutBack(slot, ps, TakeApart(m, ps));
    var l := Leaves(t, 0)[First8(Leaves(t, 0))];
    NarrowPieces(t);
    OutAndBack(m, slot, ps, 8);
    assert r[8] == 0 && m[8] == 1;
    DifferAt(r, m, l);
  }

  lemma DifferAt(a: Mem, b: Mem, l: Leaf)
    requires l.ty.Scalar? && l.ty.size >= 1 && l.off + l.ty.size <= |a| == |b| && a[l.off] != b[l.off]
    ensures !SameAt(a, b, l)
  {
    assert a[l.off..l.off + l.ty.size][0] == a[l.off] && b[l.off..l.off + l.ty.size][0] == b[l.off];
  }

  // Then both pieces end before byte 8.
  lemma NarrowPieces(t: Ty)
    requires Valid(t) && t.Struct? && 1 <= SizeOf(t) <= 16 && |Split(t)| == 2 && !MeetAt8(t)
    ensures Pieces(t).Some?
    ensures var ps := Pieces(t).value;
      |ps| == 2 && StoreSize(ps[0]) <= 4 && SecondOffset(ps[0], ps[1]) + StoreSize(ps[1]) <= 8
  {
    hide SizeOf, Pieces, Split, Span, Chosen, StoreSize;
    StructSplits(t);
    SplitDirect(t);
    SecondFieldAtEight(t);
    var rs := Split(t);
    WideAligned(rs[0]);
    WideAligned(rs[1]);
    NarrowUp(Span(rs[0]), AlignOfL(Chosen(rs[0]).value), AlignOfL(Chosen(rs[1]).value));
  }

  lemma NarrowUp(s: nat, a: nat, b: nat)
    requires PowerTo8(a) && PowerTo8(b) && Up(s, a) <= 4 && b != 8
    ensures Up(Up(s, a), b) <= 4
  {
  }

  // The exact condition: a type of at most 16 bytes survives being passed in pieces, whatever the
  // value and whatever was in the slot, just when its pieces meet at byte 8.
  lemma RoundTripExactly(t: Ty)
    requires Passable(t) && 1 <= SizeOf(t) <= 16
    ensures InSlot(SizeOf(t), Pieces(t).value)
    ensures MeetAt8(t) <==>
      forall m: Mem, slot: Mem :: |m| == |slot| == SizeOf(t) ==>
        SameLeaves(t, PutBack(slot, Pieces(t).value, TakeApart(m, Pieces(t).value)), m)
  {
    hide SizeOf, Pieces, SameLeaves, MeetAt8, InSlot, PutBack, TakeApart;
    PiecesCover(t);
    if MeetAt8(t) {
      forall m: Mem, slot: Mem | |m| == |slot| == SizeOf(t)
        ensures SameLeaves(t, PutBack(slot, Pieces(t).value, TakeApart(m, Pieces(t).value)), m)
      {
        RoundTrip(t, m, slot);
      }
    } else {
      var m, slot := RoundTripLoses(t);
    }
  }

  // ----- the whole call -----

  // The arguments of a call: values of the parameter types.
  predicate Args(ts: seq<Ty>, args: seq<Mem>) {
    |args| == |ts| && forall i :: 0 <= i < |ts| ==> |args[i]| == SizeOf(ts[i])
  }

  // What the caller passes for one parameter.
  function Marshalled(i: ParamInfo, m: Mem): seq<Value>
    requires i.disp == ParmDirect ==> InSlot(|m|, i.types)
  {
    match i.disp
    case ParmIgnore => []
    case ParmIndirect => [Address(m)]
    case ParmDirect => TakeApart(m, i.types)
  }

  lemma InfoFits(t: Ty, s: Regs)
    requires Passable(t)
    ensures InfoOf(t, s).disp == ParmDirect ==>
      InSlot(SizeOf(t), InfoOf(t, s).types) && InfoOf(t, s).types == Pieces(t).value
    ensures InfoOf(t, s).disp == ParmDirect ==> 1 <= SizeOf(t) <= 16
    ensures InfoOf(t, s).disp == ParmIgnore <==> SizeOf(t) == 0
  {
    hide SizeOf, Pieces, InSlot, Direct, Valid;
    if Classify(t) == ParmDirect { PiecesCover(t); }
  }

  // The entry of a parameter suits its argument.
  predicate FitsArg(i: ParamInfo, m: Mem) {
    (i.disp == ParmDirect ==> InSlot(|m|, i.types)) && (i.disp == ParmIndirect ==> |i.types| == 1)
  }

  predicate InfosFit(ts: seq<Ty>, infos: seq<ParamInfo>, args: seq<Mem>) {
    |infos| == |ts| + 2 && |args| == |ts| && forall k :: 0 <= k < |args| ==> FitsArg(infos[k + 2], args[k])
  }

  lemma CallFits(ts: seq<Ty>, res: Option<Ty>, args: seq<Mem>)
    requires Signature(ts, res) && Args(ts, args)
    ensures InfosFit(ts, Infos(ts, res), args)
  {
    hide Passable, InfoOf, Infos, SizeOf, InSlot;
    forall k | 0 <= k < |args|
      ensures FitsArg(Infos(ts, res)[k + 2], args[k])
    {
      InfosTake(ts, res, k);
      InfoFits(ts[k], Seen(ts[..k], Chained(Begin(res))));
      IndirectOne(ts[k], Seen(ts[..k], Chained(Begin(res))));
    }
  }

  lemma IndirectOne(t: Ty, s: Regs)
    requires Passable(t)
    ensures InfoOf(t, s).disp == ParmIndirect ==> |InfoOf(t, s).types| == 1
  {
  }

  // The values passed for entry k, and for the first k entries.
  function ValuesAt(infos: seq<ParamInfo>, args: seq<Mem>, k: nat): seq<Value>
    requires k < |infos| == |args| + 2
    requires k >= 2 && infos[k].disp == ParmDirect ==> InSlot(|args[k - 2]|, infos[k].types)
  {
    if k == 0 then (if infos[0].disp == ParmIndirect then [ResultAddress] else [])
    else if k == 1 then [ChainValue]
    else Marshalled(infos[k], args[k - 2])
  }

  function ValuesUpTo(ts: seq<Ty>, infos: seq<ParamInfo>, args: seq<Mem>, k: nat): seq<Value>
    requires k <= |infos| && InfosFit(ts, infos, args)
  {
    if k == 0 then [] else ValuesUpTo(ts, infos, args, k - 1) + ValuesAt(infos, args, k - 1)
  }

  // One value for each slot.
  lemma {:induction false} ValuesMatchSlots(ts: seq<Ty>, res: Option<Ty>, args: seq<Mem>, k: nat)
    requires Signature(ts, res) && Args(ts, args) && k <= |ts| + 2 && InfosFit(ts, Infos(ts, res), args)
    ensures |ValuesUpTo(ts, Infos(ts, res), args, k)| == |SlotsUpTo(Infos(ts, res), k)|
    decreases k
  {
    hide Passable, Infos, InSlot, SizeOf, ValuesAt, SlotsAt;
    if k > 0 {
      ValuesMatchSlots(ts, res, args, k - 1);
      ValueForSlot(ts, res, args, k - 1);
    }
  }

  lemma ValueForSlot(ts: seq<Ty>, res: Option<Ty>, args: seq<Mem>, k: nat)
    requires Signature(ts, res) && Args(ts, args) && k < |ts| + 2 && InfosFit(ts, Infos(ts, res), args)
    ensures |ValuesAt(Infos(ts, res), args, k)| == |SlotsAt(Infos(ts, res), k)|
  {
    hide Passable, Infos, InSlot, SizeOf;
    HeadSlots(ts, res);
    if k >= 2 {
      assert FitsArg(Infos(ts, res)[k], args[k - 2]);
    }
  }

  // The callee's copy of parameter k: nothing, the copy made of a value in memory, or its stack slot
  // with the pieces that arrived stored into it.
  function Received(i: ParamInfo, llargs: seq<Value>, slot: Mem): (r: Mem)
  {
    match i.disp
    case ParmIgnore => []
    case ParmIndirect =>
      if 0 <= i.sigOffset < |llargs| && llargs[i.sigOffset].Address? then llargs[i.sigOffset].mem else []
    case ParmDirect =>
      if ArrivesAt(i, llargs) && InSlot(|slot|, i.types)
        then PutBack(slot, i.types, llargs[i.sigOffset..i.sigOffset + |i.types|]) else []
  }

  // The arguments found at the entry's offset are the chunks it expects.
  predicate ArrivesAt(i: ParamInfo, llargs: seq<Value>) {
    && 0 <= i.sigOffset && i.sigOffset + |i.types| <= |llargs|
    && Chunks(llargs[i.sigOffset..i.sigOffset + |i.types|], i.types)
  }

  lemma {:induction false} ValuesGrow(ts: seq<Ty>, infos: seq<ParamInfo>, args: seq<Mem>, j: nat, k: nat)
    requires j <= k <= |infos| && InfosFit(ts, infos, args)
    ensures ValuesUpTo(ts, infos, args, j) <= ValuesUpTo(ts, infos, args, k)
    decreases k - j
  {
    hide ValuesAt, InfosFit;
    if j < k { ValuesGrow(ts, infos, args, j + 1, k); }
  }

  // The values passed for entry k are found from its offset on.
  lemma FoundAtOffset(ts: seq<Ty>, res: Option<Ty>, args: seq<Mem>, k: nat)
    requires Signature(ts, res) && Args(ts, args) && k < |ts| + 2 && InfosFit(ts, Infos(ts, res), args)
    ensures var ps := Infos(ts, res); var vs := ValuesAt(ps, args, k); var all := ValuesUpTo(ts, ps, args, |ps|);
      vs != [] ==>
        (0 <= ps[k].sigOffset && ps[k].sigOffset + |vs| <= |all|
         && all[ps[k].sigOffset..ps[k].sigOffset + |vs|] == vs && |vs| == |ps[k].types|)
  {
    hide Passable, Infos, ValuesAt, SlotsAt, SlotsUpTo, InfosFit, Args;
    var ps := Infos(ts, res);
    ValuesMatchSlots(ts, res, args, k);
    ValueForSlot(ts, res, args, k);
    SlotsNext(ps, k);
    OffsetIsCount(ts, res, k);
    ValuesGrow(ts, ps, args, k + 1, |ps|);
  }

  // What the callee finds in parameter k, whatever the signature and the contents of the fresh stack
  // slot: the caller's value, or what is left of it when it went in pieces.
  lemma ParameterArrives(ts: seq<Ty>, res: Option<Ty>, args: seq<Mem>, slot: Mem, k: nat)
    requires Signature(ts, res) && Args(ts, args) && k < |ts| && |slot| == SizeOf(ts[k])
    ensures InfosFit(ts, Infos(ts, res), args)
    ensures var ps := Infos(ts, res); var i := ps[k + 2];
      && (i.disp == ParmDirect ==> 1 <= SizeOf(ts[k]) <= 16 && InSlot(|slot|, Pieces(ts[k]).value))
      && Received(i, ValuesUpTo(ts, ps, args, |ps|), slot) ==
           if i.disp == ParmDirect then PutBack(slot, Pieces(ts[k]).value, TakeApart(args[k], Pieces(ts[k]).value))
             else args[k]
  {
    hide Infos, InfoOf, SizeOf, InSlot, ValuesUpTo, PutBack, TakeApart, Valid;
    CallFits(ts, res, args);
    var ps := Infos(ts, res);
    var t := ts[k];
    var s := Seen(ts[..k], Chained(Begin(res)));
    InfosTake(ts, res, k);
    InfoFits(t, s);
    FoundAtOffset(ts, res, args, k + 2);
    var all := ValuesUpTo(ts, ps, args, |ps|);
    var i := ps[k + 2];
    assert FitsArg(i, args[k]);
    match i.disp
    case ParmIgnore => assert args[k] == [];
    case ParmIndirect =>
      assert all[i.sigOffset..i.sigOffset + 1] == [Address(args[k])];
      assert all[i.sigOffset] == all[i.sigOffset..i.sigOffset + 1][0];
    case ParmDirect =>
      InSlotSome(|args[k]|, i.types);
      var vs := TakeApart(args[k], i.types);
      assert vs != [] && ValuesAt(ps, args, k + 2) == vs;
      assert all[i.sigOffset..i.sigOffset + |i.types|] == vs;
  }

  // The scalars the callee finds in parameter k are those the caller had.
  predicate ArrivesWhole(ts: seq<Ty>, res: Option<Ty>, args: seq<Mem>, slot: Mem, k: nat)
    requires Signature(ts, res) && k < |ts|
  {
    var ps := Infos(ts, res);
    InfosFit(ts, ps, args) &&
    var got := Received(ps[k + 2], ValuesUpTo(ts, ps, args, |ps|), slot);
    |got| == |args[k]| && SameLeaves(ts[k], got, args[k])
  }

  // Passing is lossless, for a parameter that is ignored, that is passed in memory, or whose pieces
  // meet at byte 8.
  lemma CallIsLossless(ts: seq<Ty>, res: Option<Ty>, args: seq<Mem>, slot: Mem, k: nat)
    requires Signature(ts, res) && Args(ts, args) && k < |ts| && |slot| == SizeOf(ts[k])
    requires Infos(ts, res)[k + 2].disp == ParmDirect ==> MeetAt8(ts[k])
    ensures ArrivesWhole(ts, res, args, slot, k)
  {
    hide Infos, SizeOf, InSlot, SameLeaves, ValuesUpTo, PutBack, TakeApart, MeetAt8, Valid, Received, Pieces;
    ParameterArrives(ts, res, args, slot, k);
    var t := ts[k];
    assert Valid(t);
    SameSelf(t, args[k]);
    if Infos(ts, res)[k + 2].disp == ParmDirect { RoundTrip(t, args[k], slot); }
  }

  // The exact condition: a parameter is carried over, whatever the arguments and whatever was in its
  // slot, if and only if it is not passed in registers or its pieces meet at byte 8.
  lemma CallIsLosslessExactly(ts: seq<Ty>, res: Option<Ty>, k: nat)
    requires Signature(ts, res) && k < |ts|
    ensures (forall args, slot: Mem | Args(ts, args) && |slot| == SizeOf(ts[k]) :: ArrivesWhole(ts, res, args, slot, k))
      <==> (Infos(ts, res)[k + 2].disp == ParmDirect ==> MeetAt8(ts[k]))
  {
    hide Infos, SizeOf, ArrivesWhole, MeetAt8, Args, Passable;
    if Infos(ts, res)[k + 2].disp == ParmDirect ==> MeetAt8(ts[k]) {
      forall args, slot: Mem | Args(ts, args) && |slot| == SizeOf(ts[k])
        ensures ArrivesWhole(ts, res, args, slot, k)
      {
        CallIsLossless(ts, res, args, slot, k);
      }
    } else {
      var args, slot := CallLoses(ts, res, k);
    }
  }

  lemma CallLoses(ts: seq<Ty>, res: Option<Ty>, k: nat) returns (args: seq<Mem>, slot: Mem)
    requires Signature(ts, res) && k < |ts| && Infos(ts, res)[k + 2].disp == ParmDirect && !MeetAt8(ts[k])
    ensures Args(ts, args) && |slot| == SizeOf(ts[k]) && !ArrivesWhole(ts, res, args, slot, k)
  {
    hide Infos, SizeOf, InSlot, SameLeaves, ValuesUpTo, PutBack, TakeApart, MeetAt8, Received, Pieces;
    ParameterArrives(ts, res, ZeroArgs(ts), ZeroArgs(ts)[k], k);
    var m;
    m, slot := RoundTripLoses(ts[k]);
    args := ZeroArgs(ts)[k := m];
    ParameterArrives(ts, res, args, slot, k);
  }

  function ZeroArgs(ts: seq<Ty>): (args: seq<Mem>)
    ensures Args(ts, args)
  {
    seq(|ts|, k requires 0 <= k < |ts| => seq(SizeOf(ts[k]), _ => 0 as Byte))
  }

  lemma InSlotSome(size: nat, ps: seq<LTy>)
    requires InSlot(size, ps)
    ensures 1 <= |ps| <= 2
  {
  }

  lemma SameSelf(t: Ty, m: Mem)
    requires Valid(t) && |m| == SizeOf(t)
    ensures SameLeaves(t, m, m)
  {
    AlignSmall(t);
    TypeTight(t, 0, 8);
    forall i | 0 <= i < |Leaves(t, 0)|
      ensures SameAt(m, m, Leaves(t, 0)[i])
    {
      TightBounds(0, Leaves(t, 0), SizeOf(t), 8, i);
    }
  }

  // ----- the return -----

  // What the callee returns: nothing, or the bytes of the pieces of the result; a result in memory
  // is copied to where the caller asked for it.
  datatype Returned = Nothing | Copied(mem: Mem) | Loaded(vs: seq<Value>)

  function PiecesOfReturn(i: ParamInfo): seq<LTy> {
    if |i.types| == 1 && i.types[0].LPair? then [i.types[0].first, i.types[0].second] else i.types
  }

  function ReturnValue(i: ParamInfo, m: Mem): Returned
    requires i.disp == ParmDirect ==> InSlot(|m|, PiecesOfReturn(i))
  {
    match i.disp
    case ParmIgnore => Nothing
    case ParmIndirect => Copied(m)
    case ParmDirect => Loaded(TakeApart(m, PiecesOfReturn(i)))
  }

  // What the caller finds in its temporary.
  function TakenBack(i: ParamInfo, r: Returned, temp: Mem): Mem
    requires r.Loaded? ==> InSlot(|temp|, PiecesOfReturn(i)) && Chunks(r.vs, PiecesOfReturn(i))
  {
    match r
    case Nothing => temp
    case Copied(m) => m
    case Loaded(vs) => PutBack(temp, PiecesOfReturn(i), vs)
  }

  lemma ReturnPieces(t: Ty)
    requires Passable(t)
    ensures var i := ReturnInfo(Some(t));
      && (i.disp == ParmDirect ==>
            1 <= SizeOf(t) <= 16 && PiecesOfReturn(i) == Pieces(t).value && InSlot(SizeOf(t), PiecesOfReturn(i)))
      && (i.disp == ParmIgnore ==> SizeOf(t) == 0)
  {
    hide SizeOf, Pieces, InSlot, Valid, StoreSize, SecondOffset;
    if Classify(t) == ParmDirect {
      PiecesCover(t);
      PieceIsNoPair(t);
      OnePieceOrTwo(t);
    }
  }

  lemma OnePieceOrTwo(t: Ty)
    requires Passable(t) && 1 <= SizeOf(t) <= 16
    ensures 1 <= |Pieces(t).value| <= 2
  {
    hide SizeOf, Split;
    SplitWf(t);
  }

  lemma PieceIsNoPair(t: Ty)
    requires Passable(t) && 1 <= SizeOf(t) <= 16
    ensures forall j :: 0 <= j < |Pieces(t).value| ==> !Pieces(t).value[j].LPair?
  {
    hide SizeOf, Leaves, Span, ChosenAll, Split, RegionDisp, WfRegion, Chosen;
    SplitWf(t);
    ChosenAt(Split(t));
    DirectIsScalar(t);
    forall j | 0 <= j < |Pieces(t).value|
      ensures !Pieces(t).value[j].LPair?
    {
      ChosenNoPair(Split(t)[j]);
    }
  }

  lemma ChosenNoPair(r: Region)
    requires WfRegion(r) && Chosen(r).Some? && (r.direct.Some? ==> !r.direct.value.LPair?)
    ensures !Chosen(r).value.LPair?
  {
  }

  // Results that survive being returned.
  predicate Carried(t: Ty) {
    Passable(t) && (1 <= SizeOf(t) <= 16 ==> MeetAt8(t))
  }

  // Returning is lossless too.
  lemma ReturnIsLossless(t: Ty, m: Mem, temp: Mem)
    requires Carried(t) && |m| == |temp| == SizeOf(t)
    ensures var i := ReturnInfo(Some(t)); i.disp == ParmDirect ==> InSlot(|m|, PiecesOfReturn(i))
    ensures var i := ReturnInfo(Some(t)); SameLeaves(t, TakenBack(i, ReturnValue(i, m), temp), m)
  {
    hide SizeOf, Pieces, InSlot, SameLeaves, ReturnInfo, TakeApart, PutBack, MeetAt8, PiecesOfReturn, Valid;
    ReturnPieces(t);
    var i := ReturnInfo(Some(t));
    match i.disp
    case ParmIgnore =>
      assert temp == m == [];
      SameSelf(t, m);
    case ParmIndirect => SameSelf(t, m);
    case ParmDirect => RoundTrip(t, m, temp);
  }

  // The scalars the caller finds in its temporary are those the callee returned.
  predicate ComesBack(t: Ty, m: Mem, temp: Mem)
    requires Passable(t) && |m| == |temp| == SizeOf(t)
  {
    ReturnPieces(t);
    var i := ReturnInfo(Some(t));
    SameLeaves(t, TakenBack(i, ReturnValue(i, m), temp), m)
  }

  // The exact condition: a result comes back, whatever its value and whatever was in the temporary, if
  // and only if it is not returned in pieces or its pieces meet at byte 8.
  lemma ReturnIsLosslessExactly(t: Ty)
    requires Passable(t)
    ensures (forall m, temp: Mem | |m| == |temp| == SizeOf(t) :: ComesBack(t, m, temp)) <==> Carried(t)
  {
    hide SizeOf, Pieces, SameLeaves, MeetAt8, InSlot, PutBack, TakeApart, ReturnInfo, PiecesOfReturn, Valid;
    if Carried(t) {
      forall m, temp: Mem | |m| == |temp| == SizeOf(t)
        ensures ComesBack(t, m, temp)
      {
        ReturnIsLossless(t, m, temp);
      }
    } else {
      var m, temp := RoundTripLoses(t);
      ReturnPieces(t);
      ReturnedDirectly(t);
      assert !ComesBack(t, m, temp);
    }
  }

  lemma ReturnedDirectly(t: Ty)
    requires Passable(t) && 1 <= SizeOf(t) <= 16
    ensures ReturnInfo(Some(t)).disp == ParmDirect
  {
    hide SizeOf, Pieces;
  }

  // A result in two pieces is loaded and stored as a struct of two fields; its size takes in padding
  // after the second.
  function AggregateSize(a: LTy, b: LTy): nat {
    Up(SecondOffset(a, b) + StoreSize(b), Max(AlignOfL(a), AlignOfL(b)))
  }

  // That struct is no larger than the result if and only if the result has all sixteen bytes (or
  // its pieces do not meet at byte 8).
  lemma AggregateFitsExactly(t: Ty)
    requires Passable(t) && 1 <= SizeOf(t) <= 16 && |Pieces(t).value| == 2
    ensures var ps := Pieces(t).value; AggregateSize(ps[0], ps[1]) <= SizeOf(t) <==> SizeOf(t) == 16 || !MeetAt8(t)
  {
    hide SizeOf, Pieces, Split, Span, Chosen, StoreSize, SecondOffset, AlignOfL, Up;
    var ps := Pieces(t).value;
    PiecesCover(t);
    PieceIsNoPair(t);
    TwoPieceSizes(t);
    if MeetAt8(t) {
      WideAggregate(ps[0], ps[1]);
    } else {
      MeetAt8Exactly(t);
      NarrowPieces(t);
      NarrowAggregate(ps[0], ps[1]);
    }
  }

  lemma PieceAlign(l: LTy)
    requires !l.LPair?
    ensures AlignOfL(l) in {1, 2, 4, 8} && (StoreSize(l) <= 8 ==> (AlignOfL(l) == 8 <==> StoreSize(l) > 4))
  {
  }

  lemma SmallUps(x: nat)
    ensures x <= 4 ==> Up(x, 1) <= 4 && Up(x, 2) <= 4 && Up(x, 4) <= 4
    ensures x <= 8 ==> Up(x, 1) <= 8 && Up(x, 2) <= 8 && Up(x, 4) <= 8 && Up(x, 8) <= 8
    ensures 8 < x <= 16 ==> Up(x, 8) == 16
  {
  }

  lemma WideAggregate(a: LTy, b: LTy)
    requires !a.LPair? && !b.LPair? && SecondOffset(a, b) == 8 && StoreSize(a) <= 8 && 1 <= StoreSize(b) <= 8
    ensures AggregateSize(a, b) == 16
  {
    hide Up, StoreSize, AlignOfL;
    PieceAlign(a);
    PieceAlign(b);
    SmallUps(StoreSize(a));
    SmallUps(Up(StoreSize(a), AlignOfL(a)));
    SmallUps(8 + StoreSize(b));
  }

  lemma NarrowAggregate(a: LTy, b: LTy)
    requires !a.LPair? && !b.LPair? && SecondOffset(a, b) + StoreSize(b) <= 8
    ensures AggregateSize(a, b) <= 8
  {
    hide Up, StoreSize, AlignOfL, SecondOffset;
    PieceAlign(a);
    PieceAlign(b);
    SmallUps(SecondOffset(a, b) + StoreSize(b));
  }

  // Two pieces: the value goes past byte 8.
  lemma TwoPieceSizes(t: Ty)
    requires Passable(t) && 1 <= SizeOf(t) <= 16 && |Pieces(t).value| == 2
    ensures var ps := Pieces(t).value; SizeOf(t) > 8 && 1 <= StoreSize(ps[0]) <= 8 && 1 <= StoreSize(ps[1]) <= 8
  {
    hide SizeOf, Pieces, Split, Span, Chosen, StoreSize;
    match t
    case Struct(_) => StructSplits(t); SplitDirect(t); LeavesSplit(t);
    case Array(e, n) => PassableExactly(t); ArrayIsNotEmpty(e, n); ArrayExactly(e, n);
    case Scalar(_, _) => ScalarPieces(t);
  }
}
