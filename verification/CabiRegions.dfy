/** Dividing a value of at most 16 bytes into eightbyte regions, and choosing the type each is passed as. */
module CabiRegions {
  import opened Wrappers
  import opened CabiTypes

  datatype Disp = SSE | Int | Empty

  function Meet(d1: Disp, d2: Disp): Disp {
    if d1 == d2 then d1
    else if d1 == Empty then d2
    else if d2 == Empty then d1
    else if d1 == SSE && d2 == SSE then SSE
    else Int
  }

  function DispOf(t: Ty): Disp
    decreases t, 0
  {
    match t
    case Scalar(k, _) => if k == Float then SSE else Int
    case Array(e, _) => DispOf(e)
    case Struct(fs) => DispOfAll(fs, Empty)
  }

  // The types met one after the other into d.
  function DispOfAll(ts: seq<Ty>, d: Disp): Disp
    decreases ts, 1
  {
    if ts == [] then d else DispOfAll(ts[1..], Meet(DispOf(ts[0]), d))
  }

  // ----- machine types -----

  datatype LTy = LVoid | LInt(bytes: nat) | LFloat | LDouble | LTwoFloats | LPtr | LPtrTo(to: Ty)
    | LPair(first: LTy, second: LTy)

  function LlvmScalar(t: Ty): LTy
    requires t.Scalar?
  {
    match t.kind
    case Integer(_) => LInt(t.size)
    case Float => if t.size == 4 then LFloat else LDouble
    case Pointer => LPtr
  }

  // The alignment of an integer of an odd width is that of the next wider integer.
  function AlignOfL(l: LTy): nat {
    match l
    case LVoid => 1
    case LInt(n) => if n <= 1 then 1 else if n <= 2 then 2 else if n <= 4 then 4 else 8
    case LFloat => 4
    case LDouble => 8
    case LTwoFloats => 8
    case LPtr => 8
    case LPtrTo(_) => 8
    case LPair(a, b) => Max(AlignOfL(a), AlignOfL(b))
  }

  // The bytes a load or a store of the type touches (for a pair: of the field at the end).
  function StoreSize(l: LTy): nat {
    match l
    case LVoid => 0
    case LInt(n) => n
    case LFloat => 4
    case LDouble => 8
    case LTwoFloats => 8
    case LPtr => 8
    case LPtrTo(_) => 8
    case LPair(a, b) => Up(Up(StoreSize(a), AlignOfL(a)), AlignOfL(b)) + StoreSize(b)
  }

  // Where the second field of a two-element struct lies.
  function SecondOffset(a: LTy, b: LTy): nat {
    Up(Up(StoreSize(a), AlignOfL(a)), AlignOfL(b))
  }

  // ----- regions -----

  datatype Attr = NoAttr | StructReturn | ByVal | Nest | Zext | Sext

  datatype Region = Region(types: seq<Ty>, offsets: seq<nat>, direct: Option<LTy>, attr: Attr)

  predicate WfRegion(r: Region) {
    r.types != [] && |r.offsets| == |r.types| && r.offsets[0] <= r.offsets[|r.offsets| - 1]
  }

  function RegionDisp(r: Region): Disp {
    DispOfAll(r.types, Empty)
  }

  // From the first byte of the region to the last.
  function Span(r: Region): nat
    requires WfRegion(r)
  {
    r.offsets[|r.offsets| - 1] - r.offsets[0] + SizeOf(r.types[|r.types| - 1])
  }

  // The type a region is passed as; none, where an assertion of the original fails.
  function Chosen(r: Region): Option<LTy>
    requires WfRegion(r)
  {
    if r.direct.Some? then r.direct
    else if RegionDisp(r) == SSE then
      if |r.types| == 2 then Some(LTwoFloats)
      else if |r.types| == 1 && r.types[0].Scalar? then Some(LlvmScalar(r.types[0]))
      else None
    else if 1 <= Span(r) <= 8 then Some(LInt(Span(r)))
    else None
  }

  function RegionOf(ls: seq<Leaf>): Region {
    Region(seq(|ls|, i requires 0 <= i < |ls| => ls[i].ty), seq(|ls|, i requires 0 <= i < |ls| => ls[i].off), None,
      NoAttr)
  }

  // How many leaves come before the first one at byte 8 or beyond.
  function First8(ls: seq<Leaf>): (k: nat)
    ensures k <= |ls|
    ensures forall i :: 0 <= i < k ==> ls[i].off < 8
    ensures k < |ls| ==> ls[k].off >= 8
  {
    if ls == [] || ls[0].off >= 8 then 0 else 1 + First8(ls[1..])
  }

  // The leaves of a struct, split at byte 8.
  function SplitLeaves(ls: seq<Leaf>): seq<Region> {
    var k := First8(ls);
    (if k == 0 then [] else [RegionOf(ls[..k])]) + (if k == |ls| then [] else [RegionOf(ls[k..])])
  }

  // The elements lo to hi of an array, as leaves.
  function Elems(e: Ty, lo: nat, hi: nat): (r: seq<Leaf>)
    requires lo <= hi
    ensures |r| == hi - lo && forall i :: 0 <= i < |r| ==> r[i] == Leaf(e, (lo + i) * SizeOf(e))
  {
    seq(hi - lo, i requires 0 <= i < hi - lo => Leaf(e, (lo + i) * SizeOf(e)))
  }

  // The sum of the offsets of the first k elements of size s.
  function OffsetSum(k: nat, s: nat): nat {
    if k == 0 then 0 else OffsetSum(k - 1, s) + (k - 1) * s
  }

  // Where an array is split: at the first element at byte 8 or beyond, provided the offsets of the
  // elements before it add up to less than 8.
  function ArraySplit(n: nat, s: nat, k: nat): (r: nat)
    requires k <= n
    ensures k <= r <= n
    decreases n - k
  {
    if k == n || (k > 0 && k * s >= 8 && OffsetSum(k, s) < 8) then k else ArraySplit(n, s, k + 1)
  }

  function SplitElems(e: Ty, n: nat): seq<Region> {
    var k := ArraySplit(n, SizeOf(e), 0);
    (if k == 0 then [] else [RegionOf(Elems(e, 0, k))]) + (if k == n then [] else [RegionOf(Elems(e, k, n))])
  }

  function ScalarRegion(t: Ty): Region
    requires t.Scalar?
  {
    Region([t], [0], Some(LlvmScalar(t)),
           if t.kind.Integer? && t.size < 4 then (if t.kind.unsigned then Zext else Sext) else NoAttr)
  }

  // The regions of a type, before their types are chosen.
  function Split(t: Ty): seq<Region> {
    match t
    case Struct(_) => SplitLeaves(Leaves(t, 0))
    case Array(e, n) => SplitElems(e, n)
    case Scalar(_, _) => [ScalarRegion(t)]
  }

  // The types its regions are passed as.
  function ChosenAll(rs: seq<Region>): (r: Option<seq<LTy>>)
    ensures r.Some? ==> |r.value| == |rs|
  {
    if rs == [] then Some([])
    else if !WfRegion(rs[0]) || Chosen(rs[0]).None? then None
    else
      var rest := ChosenAll(rs[1..]);
      if rest.None? then None else Some([Chosen(rs[0]).value] + rest.value)
  }

  function Pieces(t: Ty): (r: Option<seq<LTy>>)
    ensures r.Some? ==> |r.value| == |Split(t)|
  {
    ChosenAll(Split(t))
  }

  // Regions with the types chosen for them.
  function WithTypes(rs: seq<Region>, ps: seq<LTy>): seq<Region>
    requires |rs| == |ps|
  {
    seq(|rs|, i requires 0 <= i < |rs| => rs[i].(direct := Some(ps[i])))
  }

  // ----- structs -----

  // Leaves do not cross byte 8.
  lemma NoCross(l: Leaf)
    requires Placed(l) && l.off < 8
    ensures l.off + l.ty.size <= 8
  {
    var o, s := l.off, l.ty.size;
    if s == 2 {
      assert o % 2 == 0;
    } else if s == 4 {
      assert o % 4 == 0;
    }
  }

  lemma {:induction false} TightBounds(lo: nat, ls: seq<Leaf>, hi: nat, a: nat, k: nat)
    requires Tight(lo, ls, hi, a) && k < |ls|
    ensures Placed(ls[k]) && lo <= ls[k].off && ls[k].off + ls[k].ty.size <= hi
    decreases ls
  {
    TightOrder(ls[0].off + ls[0].ty.size, ls[1..], hi, a);
    if k > 0 { TightBounds(ls[0].off + ls[0].ty.size, ls[1..], hi, a, k - 1); }
  }

  // Each leaf begins after the one before it ends, with no more padding than alignment allows.
  lemma {:induction false} TightNext(lo: nat, ls: seq<Leaf>, hi: nat, a: nat, k: nat)
    requires Tight(lo, ls, hi, a) && 0 < k < |ls|
    ensures Placed(ls[k - 1])
    ensures ls[k - 1].off + ls[k - 1].ty.size <= ls[k].off <= Up(ls[k - 1].off + ls[k - 1].ty.size, a)
    decreases ls
  {
    if k > 1 { TightNext(ls[0].off + ls[0].ty.size, ls[1..], hi, a, k - 1); }
  }

  lemma {:induction false} TightSorted(lo: nat, ls: seq<Leaf>, hi: nat, a: nat, i: nat, j: nat)
    requires Tight(lo, ls, hi, a) && i < j < |ls|
    ensures Placed(ls[i]) && ls[i].off + ls[i].ty.size <= ls[j].off
    decreases j
  {
    TightNext(lo, ls, hi, a, j);
    TightBounds(lo, ls, hi, a, i);
    if i < j - 1 { TightSorted(lo, ls, hi, a, i, j - 1); }
  }

  // The leaves of a struct of at most 16 bytes: none crosses byte 8, and the first one beyond it,
  // if any, lies exactly there.
  lemma LeavesSplit(t: Ty)
    requires Valid(t) && 1 <= SizeOf(t)
    ensures var ls := Leaves(t, 0); var k := First8(ls);
      && k > 0 && ls[0].off == 0
      && (forall i :: 0 <= i < |ls| ==> Placed(ls[i]) && ls[i].off + ls[i].ty.size <= SizeOf(t))
      && (forall i :: 0 <= i < k ==> ls[i].off + ls[i].ty.size <= 8)
      && (forall i :: k <= i < |ls| ==> 8 <= ls[i].off)
      && (k < |ls| ==> ls[k].off == 8)
  {
    hide Leaves, SizeOf, Align;
    AlignSmall(t);
    TypeTight(t, 0, 8);
    var ls := Leaves(t, 0);
    var n := SizeOf(t);
    var k := First8(ls);
    UpFacts(0, 8);
    assert Up(0, 8) == 0;
    assert ls != [] && ls[0].off == 0;
    forall i | 0 <= i < |ls|
      ensures Placed(ls[i]) && ls[i].off + ls[i].ty.size <= n && (i < k ==> ls[i].off + ls[i].ty.size <= 8)
        && (k <= i ==> 8 <= ls[i].off)
    {
      TightBounds(0, ls, n, 8, i);
      if i < k { NoCross(ls[i]); }
      if k < i { TightSorted(0, ls, n, 8, k, i); }
    }
    if k < |ls| {
      TightNext(0, ls, n, 8, k);
      NoCross(ls[k - 1]);
      UpWithin8(ls[k - 1].off + ls[k - 1].ty.size);
    }
  }

  lemma UpWithin8(x: nat)
    requires x <= 8
    ensures Up(x, 8) <= 8
  {
  }

  lemma AlignSmall(t: Ty)
    requires Valid(t)
    ensures PowerTo8(Align(t)) && Align(t) <= 8 && 0 % Align(t) == 0
  {
  }

  lemma {:induction false} SseMeansFloats(ts: seq<Ty>, d: Disp)
    requires DispOfAll(ts, d) == SSE && forall i :: 0 <= i < |ts| ==> ts[i].Scalar?
    ensures d != Int && forall i :: 0 <= i < |ts| ==> ts[i].kind == Float
    decreases ts
  {
    if ts != [] {
      SseMeansFloats(ts[1..], Meet(DispOf(ts[0]), d));
      forall i | 0 <= i < |ts|
        ensures ts[i].kind == Float
      {
        if i > 0 { assert ts[i] == ts[1..][i - 1]; }
      }
    }
  }

  // Leaves that lie in order in the eight bytes from `base` on, the first of them at `base`.
  predicate InEight(ls: seq<Leaf>, base: nat) {
    && ls != [] && ls[0].off == base
    && (forall i :: 0 <= i < |ls| ==> Placed(ls[i]) && ls[i].off + ls[i].ty.size <= base + 8)
    && (forall i, j :: 0 <= i < j < |ls| ==> ls[i].off + ls[i].ty.size <= ls[j].off)
  }

  // A type can be chosen for such a region, and a value of that type has all its bytes and no others.
  lemma RegionFits(ls: seq<Leaf>, base: nat)
    requires InEight(ls, base)
    ensures var r := RegionOf(ls);
      && WfRegion(r) && 1 <= Span(r) <= 8 && r.offsets[0] == base
      && (forall i :: 0 <= i < |ls| ==> ls[i].off + ls[i].ty.size <= base + Span(r))
      && Chosen(r).Some? && StoreSize(Chosen(r).value) == Span(r)
  {
    var r := RegionOf(ls);
    var n := |ls|;
    assert r.types[n - 1] == ls[n - 1].ty && r.offsets[n - 1] == ls[n - 1].off && r.types[0] == ls[0].ty
      && r.offsets[0] == base;
    assert ls[n - 1].off >= base by { if n > 1 { assert ls[0].off + ls[0].ty.size <= ls[n - 1].off; } }
    assert Span(r) == ls[n - 1].off - base + ls[n - 1].ty.size;
    if RegionDisp(r) == SSE {
      SseMeansFloats(r.types, Empty);
      assert forall i :: 0 <= i < n ==> r.types[i] == ls[i].ty && ls[i].ty.size >= 4;
      assert n <= 2;
      if n == 2 { assert ls[0].off + ls[0].ty.size <= ls[1].off; }
    }
  }

  lemma SplitInEight(t: Ty)
    requires Valid(t) && 1 <= SizeOf(t) <= 16
    ensures var ls := Leaves(t, 0); var k := First8(ls);
      InEight(ls[..k], 0) && (k < |ls| ==> InEight(ls[k..], 8))
  {
    hide Leaves, SizeOf, Align;
    LeavesSplit(t);
    AlignSmall(t);
    TypeTight(t, 0, 8);
    var ls := Leaves(t, 0);
    forall i, j | 0 <= i < j < |ls|
      ensures Placed(ls[i]) && ls[i].off + ls[i].ty.size <= ls[j].off
    {
      TightSorted(0, ls, SizeOf(t), 8, i, j);
    }
  }

  // The region begins at `base`, spans 1 to 8 bytes, and is passed as a type of just that size.
  predicate Fits(r: Region, base: nat) {
    WfRegion(r) && r.offsets[0] == base && 1 <= Span(r) <= 8 && Chosen(r).Some? && StoreSize(Chosen(r).value) == Span(r)
  }

  // A struct is divided into one or two regions, each of 1 to 8 bytes, for which a type can always
  // be chosen; the second one, if any, begins at byte 8.
  lemma StructSplits(t: Ty)
    requires Valid(t) && t.Struct? && 1 <= SizeOf(t) <= 16
    ensures var rs := Split(t); var ls := Leaves(t, 0); var k := First8(ls);
      && 1 <= |rs| <= 2 && (|rs| == 2 <==> k < |ls|)
      && rs[0] == RegionOf(ls[..k]) && (|rs| == 2 ==> rs[1] == RegionOf(ls[k..]))
      && (forall i :: 0 <= i < |rs| ==> Fits(rs[i], 8 * i))
      && Pieces(t) == Some(if |rs| == 1 then [Chosen(rs[0]).value] else [Chosen(rs[0]).value, Chosen(rs[1]).value])
  {
    hide Leaves, SizeOf, Chosen, RegionOf, Span;
    SplitInEight(t);
    LeavesSplit(t);
    var ls := Leaves(t, 0);
    var k := First8(ls);
    RegionFits(ls[..k], 0);
    if k < |ls| { RegionFits(ls[k..], 8); }
    var rs := Split(t);
    if k < |ls| {
      assert rs == [RegionOf(ls[..k]), RegionOf(ls[k..])];
    } else {
      assert rs == [RegionOf(ls[..k])];
    }
    ChosenOneOrTwo(rs);
  }

  lemma ChosenOneOrTwo(rs: seq<Region>)
    requires 1 <= |rs| <= 2 && forall i :: 0 <= i < |rs| ==> WfRegion(rs[i])
    ensures ChosenAll(rs) ==
            if Chosen(rs[0]).None? || (|rs| == 2 && Chosen(rs[1]).None?) then None
            else Some(if |rs| == 1 then [Chosen(rs[0]).value] else [Chosen(rs[0]).value, Chosen(rs[1]).value])
  {
    hide Chosen, Span;
    ChosenFirst(rs);
    if |rs| == 2 {
      ChosenFirst(rs[1..]);
      assert rs[1..][0] == rs[1] && rs[1..][1..] == [];
      if Chosen(rs[0]).Some? && Chosen(rs[1]).Some? {
        var c, d := Chosen(rs[0]).value, Chosen(rs[1]).value;
        assert [c] + ([d] + []) == [c, d];
      }
    } else {
      assert rs[1..] == [];
      if Chosen(rs[0]).Some? {
        var c := Chosen(rs[0]).value;
        assert [c] + [] == [c];
      }
    }
  }

  lemma ChosenFirst(rs: seq<Region>)
    requires rs != [] && WfRegion(rs[0])
    ensures ChosenAll(rs) ==
            if Chosen(rs[0]).None? || ChosenAll(rs[1..]).None? then None
              else Some([Chosen(rs[0]).value] + ChosenAll(rs[1..]).value)
    ensures ChosenAll([]) == Some([])
  {
  }

  // Every type a region is passed as: eight-aligned just when it is more than four bytes wide.
  lemma WideAligned(r: Region)
    requires WfRegion(r) && Chosen(r).Some? && StoreSize(Chosen(r).value) == Span(r) && 1 <= Span(r) <= 8
    requires r.direct.None?
    ensures var c := Chosen(r).value;
      && (AlignOfL(c) == 8 <==> Span(r) > 4) && PowerTo8(AlignOfL(c))
      && (if Span(r) > 4 then Up(Span(r), AlignOfL(c)) == 8 else Up(Span(r), AlignOfL(c)) <= 4)
  {
    hide Up;
    var c := Chosen(r).value;
    if RegionDisp(r) == SSE && |r.types| != 2 {
      assert c == LlvmScalar(r.types[0]);
    }
    UpSmall(Span(r));
  }

  lemma UpSmall(s: nat)
    requires 1 <= s <= 8
    ensures if s > 4 then Up(s, 8) == 8 else Up(s, 4) == 4 && Up(s, 2) <= 4 && Up(s, 1) <= 4
  {
  }

  // The two-element struct the regions of a struct are passed as has its second field at byte 8
  // just when one of the regions is more than four bytes wide.
  lemma SecondFieldAtEight(t: Ty)
    requires Valid(t) && t.Struct? && 1 <= SizeOf(t) <= 16 && |Split(t)| == 2
    ensures var rs := Split(t); var ps := Pieces(t);
      && ps.Some? && |ps.value| == 2 && WfRegion(rs[0]) && WfRegion(rs[1])
      && (SecondOffset(ps.value[0], ps.value[1]) == 8 <==> Span(rs[0]) > 4 || Span(rs[1]) > 4)
      && SecondOffset(ps.value[0], ps.value[1]) <= 8
  {
    hide Split, Pieces, Chosen, Span, SizeOf;
    StructSplits(t);
    var rs := Split(t);
    WideAligned(rs[0]) by { SplitDirect(t); }
    WideAligned(rs[1]) by { SplitDirect(t); }
    UpOfUp(Span(rs[0]), AlignOfL(Chosen(rs[0]).value), AlignOfL(Chosen(rs[1]).value), Span(rs[0]) > 4);
  }

  lemma SplitDirect(t: Ty)
    requires t.Struct?
    ensures forall i :: 0 <= i < |Split(t)| ==> Split(t)[i].direct.None?
  {
  }

  lemma UpOfUp(s: nat, a: nat, b: nat, wide: bool)
    requires PowerTo8(a) && PowerTo8(b) && (if wide then Up(s, a) == 8 else Up(s, a) <= 4) && 1 <= s
    ensures Up(Up(s, a), b) == 8 <==> wide || b == 8
    ensures Up(Up(s, a), b) <= 8
  {
    UpFacts(s, a);
    var x := Up(s, a);
    if b == 1 {
    } else if b == 2 {
    } else if b == 4 {
    }
  }

  // When the alignment of the struct comes from a scalar in it, one of its regions is that wide.
  lemma PlainIsWide(t: Ty)
    requires Valid(t) && t.Struct? && 1 <= SizeOf(t) <= 16 && |Split(t)| == 2 && Plain(t)
    ensures var rs := Split(t); WfRegion(rs[0]) && WfRegion(rs[1]) && (Span(rs[0]) > 4 || Span(rs[1]) > 4)
  {
    hide Split, Leaves, SizeOf, Align, Widest, RegionOf, Span, Chosen, Pieces;
    StructSplits(t);
    SplitInEight(t);
    LeavesSplit(t);
    AlignSmall(t);
    var ls := Leaves(t, 0);
    var k := First8(ls);
    RegionFits(ls[..k], 0);
    RegionFits(ls[k..], 8);
    if Align(t) <= 4 {
      TypeTight(t, 0, 4);
      TightNext(0, ls, SizeOf(t), 4, k);
      assert ls[..k][k - 1] == ls[k - 1];
      var e := ls[k - 1].off + ls[k - 1].ty.size;
      assert Up(e, 4) >= 8 && e <= 8;
      BeyondFour(e);
    } else {
      var i := WidestLeaf(t, 0);
      if i < k {
        assert ls[..k][i] == ls[i];
      } else {
        assert ls[k..][i - k] == ls[i];
      }
    }
  }

  lemma BeyondFour(x: nat)
    requires Up(x, 4) >= 8
    ensures x > 4
  {
  }

  // ----- arrays -----

  // What the code needs of an array of n elements for its assertions to hold.
  predicate ArrayFits(e: Ty, n: nat) {
    var s := SizeOf(e);
    if DispOf(e) == SSE then (s == 4 && (n % 2 == 0 || e.Scalar?)) || (s == 8 && e.Scalar?)
    else n * s <= 8 || s == 4 || s == 8
  }

  // From the third element on, the sum of the offsets is no smaller than the next offset.
  lemma SumTooLarge(k: nat, s: nat)
    requires k >= 3
    ensures OffsetSum(k, s) >= k * s
  {
    assert OffsetSum(k, s) == OffsetSum(k - 2, s) + (k - 2) * s + (k - 1) * s;
    assert (k - 2) * s + (k - 1) * s == k * s + (k - 3) * s;
    assert (k - 3) * s >= 0;
  }

  lemma {:induction false} NoSplitLater(n: nat, s: nat, k: nat)
    requires 3 <= k <= n
    ensures ArraySplit(n, s, k) == n
    decreases n - k
  {
    SumTooLarge(k, s);
    if k < n { NoSplitLater(n, s, k + 1); }
  }

  // Where an array of at most 16 bytes is split.
  lemma ArraySplitIs(n: nat, s: nat)
    requires n >= 1 && s >= 1 && n * s <= 16
    ensures ArraySplit(n, s, 0) == if s == 8 && n == 2 then 1 else if 4 <= s <= 5 && n > 2 then 2 else n
  {
    assert OffsetSum(0, s) == 0 && OffsetSum(1, s) == 0 && OffsetSum(2, s) == s;
    assert ArraySplit(n, s, 0) == ArraySplit(n, s, 1);
    if n >= 2 {
      assert 2 * s <= n * s;
      if s < 8 {
        assert ArraySplit(n, s, 1) == ArraySplit(n, s, 2);
        if n >= 3 {
          assert 3 * s <= n * s;
          if s < 4 {
            assert ArraySplit(n, s, 2) == ArraySplit(n, s, 3);
            NoSplitLater(n, s, 3);
          }
        }
      }
    }
  }

  // A floating-point type is a multiple of four bytes wide.
  lemma {:induction false} SseAligned(t: Ty)
    requires Valid(t) && DispOf(t) == SSE
    ensures Align(t) >= 4
    decreases t, 0
  {
    match t
    case Scalar(_, _) =>
    case Array(e, _) => SseAligned(e);
    case Struct(fs) => SseAlignedSeq(fs, Empty);
  }

  lemma {:induction false} SseAlignedSeq(fs: seq<Ty>, d: Disp)
    requires ValidSeq(fs) && DispOfAll(fs, d) == SSE
    ensures d == SSE || AlignSeq(fs) >= 4
    decreases fs, 1
  {
    if fs != [] && d != SSE {
      if DispOf(fs[0]) == SSE { SseAligned(fs[0]); }
      SseAlignedSeq(fs[1..], Meet(DispOf(fs[0]), d));
    }
  }

  // Met with themselves, equal types stay what they are.
  lemma {:induction false} DispOfSame(ts: seq<Ty>, e: Ty, d: Disp)
    requires (forall i :: 0 <= i < |ts| ==> ts[i] == e) && ts != [] && d in {Empty, DispOf(e)}
    ensures DispOfAll(ts, d) == DispOf(e)
    decreases ts
  {
    assert Meet(DispOf(e), d) == DispOf(e);
    if |ts| > 1 { DispOfSame(ts[1..], e, DispOf(e)); } else { assert ts[1..] == []; }
  }

  // The region of the elements lo to hi.
  lemma ElemsRegion(e: Ty, lo: nat, hi: nat)
    requires lo < hi
    ensures var r := RegionOf(Elems(e, lo, hi)); var s := SizeOf(e);
      && WfRegion(r) && r.offsets[0] == lo * s && Span(r) == (hi - lo) * s && |r.types| == hi - lo && r.types[0] == e
      && RegionDisp(r) == DispOf(e) && r.direct.None?
  {
    hide SizeOf, DispOf, DispOfAll;
    var r := RegionOf(Elems(e, lo, hi));
    var s := SizeOf(e);
    assert forall i :: 0 <= i < hi - lo ==> r.types[i] == e;
    DispOfSame(r.types, e, Empty);
    assert r.offsets[0] == (lo + 0) * s && r.offsets[hi - lo - 1] == (lo + (hi - lo - 1)) * s;
    Spread(lo, hi, s);
  }

  lemma Spread(lo: nat, hi: nat, s: nat)
    requires lo < hi
    ensures lo * s <= (hi - 1) * s && (hi - 1) * s - lo * s + s == (hi - lo) * s
    ensures (lo + 0) * s == lo * s && (lo + (hi - lo - 1)) * s == (hi - 1) * s
  {
  }

  // What is chosen for them.
  function ElemsType(e: Ty, n: nat): Option<LTy> {
    if DispOf(e) == SSE then
      if n == 2 then Some(LTwoFloats) else if n == 1 && e.Scalar? then Some(LlvmScalar(e)) else None
    else if 1 <= n * SizeOf(e) <= 8 then Some(LInt(n * SizeOf(e))) else None
  }

  lemma ElemsChosen(e: Ty, lo: nat, hi: nat)
    requires lo < hi
    ensures WfRegion(RegionOf(Elems(e, lo, hi))) && Chosen(RegionOf(Elems(e, lo, hi))) == ElemsType(e, hi - lo)
  {
    hide SizeOf, DispOf, DispOfAll, RegionOf, Elems, Span, RegionDisp;
    ElemsRegion(e, lo, hi);
  }

  // The regions of an array.
  lemma ArraySplits(e: Ty, n: nat)
    requires n >= 1 && SizeOf(e) >= 1 && n * SizeOf(e) <= 16
    ensures var rs := Split(Array(e, n)); var k := ArraySplit(n, SizeOf(e), 0);
      && 1 <= k <= n && |rs| == (if k < n then 2 else 1)
      && rs[0] == RegionOf(Elems(e, 0, k)) && (k < n ==> rs[1] == RegionOf(Elems(e, k, n)))
  {
    ArraySplitIs(n, SizeOf(e));
  }

  lemma ArrayPieces(e: Ty, n: nat)
    requires n >= 1 && SizeOf(e) >= 1 && n * SizeOf(e) <= 16
    ensures var k := ArraySplit(n, SizeOf(e), 0);
      1 <= k <= n && Pieces(Array(e, n)) ==
        if k == n then (if ElemsType(e, n).None? then None else Some([ElemsType(e, n).value]))
        else if ElemsType(e, k).None? || ElemsType(e, n - k).None? then None
        else Some([ElemsType(e, k).value, ElemsType(e, n - k).value])
  {
    hide Split, SizeOf, DispOf, RegionOf, Span, RegionDisp, Elems, Chosen, ElemsType, ArraySplit;
    var k := ArraySplit(n, SizeOf(e), 0);
    ArraySplits(e, n);
    ElemsChosen(e, 0, k);
    if k < n { ElemsChosen(e, k, n); }
    ChosenOneOrTwo(Split(Array(e, n)));
  }

  // The pieces of an array lie at bytes 0 and 8 and are together as wide as the array.
  predicate ArrayCovered(size: nat, ps: seq<LTy>) {
    if size <= 8 then |ps| == 1 && StoreSize(ps[0]) == size
    else |ps| == 2 && StoreSize(ps[0]) == 8 && SecondOffset(ps[0], ps[1]) == 8 && 8 + StoreSize(ps[1]) == size
  }

  // The types are chosen for an array, no assertion failing, just when it fits; and then its
  // pieces cover it.
  lemma ArrayExactly(e: Ty, n: nat)
    requires Valid(e) && n >= 1 && SizeOf(e) >= 1 && n * SizeOf(e) <= 16
    ensures Pieces(Array(e, n)).Some? <==> ArrayFits(e, n)
    ensures ArrayFits(e, n) ==> ArrayCovered(n * SizeOf(e), Pieces(Array(e, n)).value)
  {
    hide Pieces, SizeOf, DispOf, ArraySplit;
    var s := SizeOf(e);
    ArraySplitIs(n, s);
    ArrayPieces(e, n);
    SmallProducts(n, s);
    if DispOf(e) == SSE {
      SseSize(e);
      SseArray(e, n);
    } else {
      IntArray(e, n);
    }
  }

  lemma SseArray(e: Ty, n: nat)
    requires Valid(e) && n >= 1 && DispOf(e) == SSE && SizeOf(e) in {4, 8, 12, 16} && n * SizeOf(e) <= 16
    requires e.Scalar? ==> e.kind == Float
    ensures var s := SizeOf(e); var k := if s == 8 && n == 2 then 1 else if s == 4 && n > 2 then 2 else n;
      && n <= 4 && (s == 8 ==> n <= 2) && (s > 8 ==> n == 1 && !e.Scalar?)
      && ((ElemsType(e, k).Some? && (k < n ==> ElemsType(e, n - k).Some?)) <==> ArrayFits(e, n))
      && (ArrayFits(e, n) ==>
            ArrayCovered(n * s, if k == n then [ElemsType(e, n).value]
              else [ElemsType(e, k).value, ElemsType(e, n - k).value]))
  {
    hide SizeOf, DispOf;
    var s := SizeOf(e);
    SmallProducts(n, s);
    if e.Scalar? { ScalarSize(e); }
  }

  lemma ScalarSize(e: Ty)
    requires e.Scalar? && Valid(e)
    ensures SizeOf(e) == e.size && (e.kind == Float ==> e.size in {4, 8})
    ensures StoreSize(LlvmScalar(e)) == e.size
  {
  }

  // The elements in two groups, of k and of the rest, or in one.
  ghost predicate GroupsFit(e: Ty, n: nat, k: nat)
    requires 1 <= k <= n
  {
    && ((ElemsType(e, k).Some? && (k < n ==> ElemsType(e, n - k).Some?)) <==> ArrayFits(e, n))
    && (ArrayFits(e, n) ==>
          ArrayCovered(n * SizeOf(e), if k == n then [ElemsType(e, n).value]
            else [ElemsType(e, k).value, ElemsType(e, n - k).value]))
  }

  lemma IntArray(e: Ty, n: nat)
    requires n >= 1 && DispOf(e) != SSE && SizeOf(e) >= 1 && n * SizeOf(e) <= 16
    ensures var s := SizeOf(e); GroupsFit(e, n, if s == 8 && n == 2 then 1 else if 4 <= s <= 5 && n > 2 then 2 else n)
  {
    hide SizeOf, DispOf, GroupsFit;
    var s := SizeOf(e);
    SmallProducts(n, s);
    if s == 8 && n == 2 {
      IntGroups(e, 2, 1, 8, 8);
    } else if 4 <= s <= 5 && n > 2 {
      IntGroups(e, n, 2, 2 * s, (n - 2) * s);
    } else {
      IntGroup(e, n);
    }
  }

  lemma IntGroup(e: Ty, n: nat)
    requires n >= 1 && DispOf(e) != SSE && SizeOf(e) >= 1 && n * SizeOf(e) <= 16
    requires n * SizeOf(e) > 8 ==> SizeOf(e) != 4 && SizeOf(e) != 8
    ensures GroupsFit(e, n, n)
  {
    hide SizeOf, DispOf;
    var m := n * SizeOf(e);
    assert m >= 1 by { MulLe(1, n, SizeOf(e)); }
    assert ElemsType(e, n) == if m <= 8 then Some(LInt(m)) else None;
    assert SizeOf(e) in {4, 8} ==> m <= 8;
  }

  lemma IntGroups(e: Ty, n: nat, k: nat, a: nat, b: nat)
    requires 1 <= k < n && DispOf(e) != SSE && a == k * SizeOf(e) && b == (n - k) * SizeOf(e) && a + b == n * SizeOf(e)
    requires (SizeOf(e) in {4, 8} && a == 8 && 1 <= b <= 8) || (SizeOf(e) == 5 && a == 10 && b >= 1)
    ensures GroupsFit(e, n, k)
  {
    hide SizeOf, DispOf;
    assert ElemsType(e, k) == if a <= 8 then Some(LInt(a)) else None;
    assert ElemsType(e, n - k) == if b <= 8 then Some(LInt(b)) else None;
    if a == 8 { assert SecondOffset(LInt(a), LInt(b)) == 8; }
  }

  lemma SseSize(e: Ty)
    requires Valid(e) && DispOf(e) == SSE
    ensures SizeOf(e) % 4 == 0 && (e.Scalar? ==> e.kind == Float)
  {
    SseAligned(e);
    SizeAligned(e);
    Divides(SizeOf(e), 4, Align(e));
  }

  lemma MulLe(a: nat, b: nat, s: nat)
    requires a <= b
    ensures a * s <= b * s
  {
  }

  lemma SmallProducts(n: nat, s: nat)
    requires n >= 1 && s >= 1 && n * s <= 16
    ensures s <= 16
    ensures s >= 9 ==> n == 1
    ensures s >= 6 ==> n <= 2
    ensures s >= 4 ==> n <= 4
    ensures s == 5 ==> n <= 3
  {
    MulLe(1, n, s);
    if n >= 2 { MulLe(2, n, s); }
    if n >= 3 { MulLe(3, n, s); }
    if n >= 4 { MulLe(4, n, s); }
    if n >= 5 { MulLe(5, n, s); }
  }
}
