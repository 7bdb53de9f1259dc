/** Which pieces of a value go in SSE registers: those that hold nothing but floating-point numbers. */
module CabiClasses {
  import opened Wrappers
  import opened CabiTypes
  import opened CabiRegions
  import opened CabiEightByte
  import opened CabiOracle
  import opened CabiSignature

  predicate IsFloat(t: Ty) {
    t.Scalar? && t.kind == Float
  }

  ghost predicate AllFloats(ts: seq<Ty>) {
    forall i | 0 <= i < |ts| :: IsFloat(ts[i])
  }

  // The scalars a type is made of, those of an array's element once, however many elements it has.
  function Scalars(t: Ty): (ts: seq<Ty>)
    decreases t, 0
  {
    match t
    case Scalar(_, _) => [t]
    case Struct(fs) => ScalarsSeq(fs)
    case Array(e, _) => Scalars(e)
  }

  function ScalarsSeq(fs: seq<Ty>): (ts: seq<Ty>)
    decreases fs, 1
  {
    if fs == [] then [] else Scalars(fs[0]) + ScalarsSeq(fs[1..])
  }

  lemma FloatsJoin(a: seq<Ty>, b: seq<Ty>)
    ensures AllFloats(a + b) <==> AllFloats(a) && AllFloats(b)
  {
    if AllFloats(a + b) {
      assert forall i | 0 <= i < |a| :: a[i] == (a + b)[i];
      assert forall i | 0 <= i < |b| :: b[i] == (a + b)[|a| + i];
    }
  }

  // A type is of class SSE just when it has scalars and all of them are floats.
  lemma {:induction false} SseExactly(t: Ty)
    ensures DispOf(t) == Empty <==> Scalars(t) == []
    ensures DispOf(t) == SSE <==> Scalars(t) != [] && AllFloats(Scalars(t))
    decreases t, 0
  {
    match t
    case Scalar(_, _) => assert Scalars(t)[0] == t;
    case Struct(fs) => SseExactlySeq(fs, Empty);
    case Array(e, _) => SseExactly(e);
  }

  lemma {:induction false} SseExactlySeq(fs: seq<Ty>, d: Disp)
    ensures DispOfAll(fs, d) == Empty <==> d == Empty && ScalarsSeq(fs) == []
    ensures DispOfAll(fs, d) == SSE <==>
              d != Int && AllFloats(ScalarsSeq(fs)) && (d == SSE || ScalarsSeq(fs) != [])
    decreases fs, 1
  {
    if fs != [] {
      SseExactly(fs[0]);
      SseExactlySeq(fs[1..], Meet(DispOf(fs[0]), d));
      FloatsJoin(Scalars(fs[0]), ScalarsSeq(fs[1..]));
    }
  }

  // The scalars of a list of scalars.
  lemma {:induction false} ScalarsAlone(ts: seq<Ty>)
    requires forall i | 0 <= i < |ts| :: ts[i].Scalar?
    ensures ScalarsSeq(ts) == ts
    decreases ts
  {
    if ts != [] { ScalarsAlone(ts[1..]); }
  }

  // A region of scalars.
  lemma LeafRegion(ls: seq<Leaf>)
    requires ls != [] && forall i | 0 <= i < |ls| :: ls[i].ty.Scalar?
    ensures RegionDisp(RegionOf(ls)) == SSE <==> forall i | 0 <= i < |ls| :: IsFloat(ls[i].ty)
  {
    var ts := RegionOf(ls).types;
    assert |ts| == |ls| && forall i | 0 <= i < |ls| :: ts[i] == ls[i].ty;
    ScalarsAlone(ts);
    SseExactlySeq(ts, Empty);
  }

  // The scalars of a value that its piece j carries: of a struct those before byte 8, or those from
  // there on; of an array each half has its share of every kind of scalar there is.
  ghost predicate HoldsFloats(t: Ty, j: nat) {
    match t
    case Scalar(_, _) => IsFloat(t)
    case Struct(_) => forall i | 0 <= i < |Leaves(t, 0)| && (Leaves(t, 0)[i].off < 8 <==> j == 0) ::
      IsFloat(Leaves(t, 0)[i].ty)
    case Array(e, _) => AllFloats(Scalars(e))
  }

  lemma RegionClass(t: Ty, j: nat)
    requires Passable(t) && 1 <= SizeOf(t) <= 16 && j < |Split(t)|
    ensures RegionDisp(Split(t)[j]) == SSE <==> HoldsFloats(t, j)
  {
    hide SizeOf, HoldsFloats, RegionDisp, Pieces, Scalars, Split;
    match t
    case Scalar(_, _) => ScalarClass(t);
    case Struct(_) => StructClass(t, j);
    case Array(e, n) => ArrayClass(e, n, j);
  }

  lemma ScalarClass(t: Ty)
    requires t.Scalar?
    ensures Split(t) == [Split(t)[0]] && (RegionDisp(Split(t)[0]) == SSE <==> HoldsFloats(t, 0))
  {
    DirectIsScalar(t);
    SseExactly(t);
    ScalarOnly(t);
  }

  // The leaves before byte 8, and the others.
  lemma SideFloats(ls: seq<Leaf>, k: nat, j: nat)
    requires k <= |ls| && (forall i | 0 <= i < k :: ls[i].off < 8) && (forall i | k <= i < |ls| :: ls[i].off >= 8)
    ensures var part := if j == 0 then ls[..k] else ls[k..];
      (forall i | 0 <= i < |part| :: IsFloat(part[i].ty)) <==>
      (forall i | 0 <= i < |ls| && (ls[i].off < 8 <==> j == 0) :: IsFloat(ls[i].ty))
  {
    hide IsFloat;
    if j == 0 {
      assert forall i | 0 <= i < k :: ls[..k][i] == ls[i];
    } else {
      assert forall i | 0 <= i < |ls| - k :: ls[k..][i] == ls[i + k];
      assert forall i | k <= i < |ls| :: ls[i] == ls[k..][i - k];
    }
  }

  lemma StructClass(t: Ty, j: nat)
    requires Valid(t) && t.Struct? && 1 <= SizeOf(t) <= 16 && j < |Split(t)|
    ensures RegionDisp(Split(t)[j]) == SSE <==> HoldsFloats(t, j)
  {
    hide SizeOf, Leaves, RegionOf, RegionDisp, Split, Fits, Chosen, IsFloat, First8, Pieces;
    StructSplits(t);
    LeavesSplit(t);
    var ls := Leaves(t, 0);
    var k := First8(ls);
    LeafRegion(if j == 0 then ls[..k] else ls[k..]);
    SideFloats(ls, k, j);
  }

  lemma ArrayClass(e: Ty, n: nat, j: nat)
    requires 1 <= SizeOf(Array(e, n)) <= 16 && j < |Split(Array(e, n))|
    ensures RegionDisp(Split(Array(e, n))[j]) == SSE <==> HoldsFloats(Array(e, n), j)
  {
    hide SizeOf, RegionOf, RegionDisp, Elems, Split, Scalars;
    ArrayIsNotEmpty(e, n);
    ArraySplits(e, n);
    var k := ArraySplit(n, SizeOf(e), 0);
    ElemsRegion(e, 0, k);
    if k < n { ElemsRegion(e, k, n); }
    SseExactly(e);
    if Scalars(e) == [] { SomeScalar(e); }
  }

  lemma ScalarOnly(t: Ty)
    requires t.Scalar?
    ensures Scalars(t) != [] && (AllFloats(Scalars(t)) <==> IsFloat(t))
  {
    assert Scalars(t) == [t];
    assert Scalars(t)[0] == t;
  }

  // What takes up room has scalars.
  lemma {:induction false} SomeScalar(t: Ty)
    requires Scalars(t) == []
    ensures SizeOf(t) == 0
    decreases t, 0
  {
    match t
    case Scalar(_, _) =>
    case Struct(fs) => SomeScalarSeq(fs);
    case Array(e, n) => SomeScalar(e);
  }

  lemma {:induction false} SomeScalarSeq(fs: seq<Ty>)
    requires ScalarsSeq(fs) == []
    ensures EndOf(fs, 0) == 0
    decreases fs, 1
  {
    if fs != [] {
      SomeScalar(fs[0]);
      SomeScalarSeq(fs[1..]);
    }
  }

  // A slot of a parameter passed directly asks for an SSE register just when its bytes hold floats only.
  lemma SseSlotsExactly(ts: seq<Ty>, res: Option<Ty>, k: nat, j: nat)
    requires Signature(ts, res) && k < |ts| && Infos(ts, res)[k + 2].disp == ParmDirect
    requires j < |SlotsAt(Infos(ts, res), k + 2)|
    ensures NeedOf(SlotsAt(Infos(ts, res), k + 2)[j]) == SseReg <==> HoldsFloats(ts[k], j)
  {
    hide SizeOf, Pieces, Split, Infos, Seen, RegionDisp, NeedOf, HoldsFloats;
    var s := Seen(ts[..k], Chained(Begin(res)));
    InfosTake(ts, res, k);
    DirectSlots(ts[k], s);
    RegionClass(ts[k], j);
  }
}
