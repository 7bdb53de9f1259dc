/** The container of eightbyte regions, filled in step by step. */
module CabiEightByte {
  import opened Wrappers
  import opened CabiTypes
  import opened CabiRegions

  // Appends the scalars of a type to the list of leaves.
  method AddLeafTypes(t: Ty, offset: nat, leaves: seq<Leaf>) returns (r: seq<Leaf>)
    ensures r == leaves + Leaves(t, offset)
    decreases t, 1
  {
    r := leaves;
    match t
    case Struct(fs) => r := AddFieldLeaves(fs, offset, leaves);
    case Array(e, n) =>
      for elidx := 0 to n
        invariant r == leaves + LeavesArray(e, elidx, offset)
      {
        var eloff := elidx * SizeOf(e);
        r := AddLeafTypes(e, offset + eloff, r);
      }
    case Scalar(_, _) => r := r + [Leaf(t, offset)];
  }

  method AddFieldLeaves(fs: seq<Ty>, offset: nat, leaves: seq<Leaf>) returns (r: seq<Leaf>)
    ensures r == leaves + LeavesSeq(fs, 0, offset)
    decreases fs, 0
  {
    hide Up, Align, SizeOf, FieldOffset, EndOf, LeavesSeq, Leaves;
    r := leaves;
    FieldStart(fs, offset);
    for fidx := 0 to |fs|
      invariant r + LeavesSeq(fs[fidx..], EndOf(fs[..fidx], 0), offset) == leaves + LeavesSeq(fs, 0, offset)
    {
      var foff := FieldOffset(fs, fidx);
      FieldStep(fs, fidx, offset);
      r := AddLeafTypes(fs[fidx], offset + foff, r);
    }
  }

  lemma FieldStart(fs: seq<Ty>, offset: nat)
    ensures LeavesSeq(fs[0..], EndOf(fs[..0], 0), offset) == LeavesSeq(fs, 0, offset)
    ensures forall pos: nat :: LeavesSeq(fs[|fs|..], pos, offset) == []
  {
    assert fs[0..] == fs && fs[..0] == [] && fs[|fs|..] == [];
  }

  lemma FieldStep(fs: seq<Ty>, k: nat, offset: nat)
    requires k < |fs|
    ensures LeavesSeq(fs[k..], EndOf(fs[..k], 0), offset)
         == Leaves(fs[k], offset + FieldOffset(fs, k)) + LeavesSeq(fs[k + 1..], EndOf(fs[..k + 1], 0), offset)
  {
    hide Up, Align, SizeOf, Leaves;
    EndOfTake(fs, k, 0);
    assert fs[k..][0] == fs[k] && fs[k..][1..] == fs[k + 1..];
  }

  // A type with one more member.
  function Extend(r: Region, t: Ty, off: nat): Region {
    r.(types := r.types + [t], offsets := r.offsets + [off])
  }

  const NO_REGION := Region([], [], None, NoAttr)

  lemma RegionExtend(ls: seq<Leaf>, l: Leaf)
    ensures RegionOf(ls + [l]) == Extend(RegionOf(ls), l.ty, l.off)
    ensures RegionOf([]) == NO_REGION
  {
    assert RegionOf(ls + [l]).types == RegionOf(ls).types + [l.ty];
    assert RegionOf(ls + [l]).offsets == RegionOf(ls).offsets + [l.off];
  }

  lemma {:induction false} First8Extend(ls: seq<Leaf>, l: Leaf)
    ensures First8(ls + [l]) == if First8(ls) < |ls| then First8(ls) else if l.off < 8 then |ls| + 1 else |ls|
    decreases ls
  {
    if ls == [] {
      assert ls + [l] == [l];
      assert [l][1..] == [];
    } else {
      assert (ls + [l])[1..] == ls[1..] + [l];
      First8Extend(ls[1..], l);
    }
  }

  // One more leaf goes into the last region, or opens a new one.
  lemma SplitExtend(ls: seq<Leaf>, l: Leaf)
    requires (ls == [] ==> l.off < 8) && (ls != [] ==> ls[0].off < 8)
    ensures var rs := SplitLeaves(ls); var ss := SplitLeaves(ls + [l]);
      if rs == [] || (l.off >= 8 && |rs| == 1) then ss == rs + [Extend(NO_REGION, l.ty, l.off)]
      else ss == rs[|rs| - 1 := Extend(rs[|rs| - 1], l.ty, l.off)]
  {
    hide RegionOf;
    var k := First8(ls);
    First8Extend(ls, l);
    var xs := ls + [l];
    var j := First8(xs);
    if ls != [] { assert k > 0; }
    RegionExtend(ls, l);
    RegionExtend([], l);
    if k < |ls| {
      assert xs[..k] == ls[..k] && xs[k..] == ls[k..] + [l];
      RegionExtend(ls[k..], l);
    } else {
      assert ls[..k] == ls;
      if l.off < 8 {
        assert xs[..j] == xs;
      } else {
        assert xs[..j] == ls && xs[j..] == [] + [l];
      }
    }
  }

  lemma ScalarFits(t: Ty)
    requires t.Scalar? && Valid(t)
    ensures t.size <= 8
  {
  }

  lemma FirstLeafLow(t: Ty)
    requires Valid(t) && 1 <= SizeOf(t) <= 16
    ensures Leaves(t, 0) != [] && Leaves(t, 0)[0].off < 8
    ensures forall i :: 0 <= i < |Leaves(t, 0)| ==> Leaves(t, 0)[i].ty.Scalar?
  {
    LeavesSplit(t);
  }

  lemma NoLeaves(ls: seq<Leaf>)
    requires ls == []
    ensures SplitLeaves(ls) == []
  {
  }

  lemma SplitOfStruct(t: Ty)
    requires t.Struct?
    ensures Split(t) == SplitLeaves(Leaves(t, 0))
  {
  }

  // Regions are well formed: those of leaves in order, and those of the elements of an array.
  lemma {:induction false} SplitWf(t: Ty)
    requires Valid(t) && 1 <= SizeOf(t) <= 16
    ensures forall i :: 0 <= i < |Split(t)| ==> WfRegion(Split(t)[i])
    ensures 1 <= |Split(t)| <= 2
  {
    hide SizeOf, Leaves, RegionOf, Span, Chosen, Elems, SplitLeaves, SplitElems;
    match t
    case Scalar(_, _) =>
    case Struct(_) => StructSplits(t);
    case Array(e, n) =>
      ArrayIsNotEmpty(e, n);
      var k := ArraySplit(n, SizeOf(e), 0);
      ArraySplits(e, n);
      ElemsRegion(e, 0, k);
      if k < n { ElemsRegion(e, k, n); }
  }

  lemma ArrayIsNotEmpty(e: Ty, n: nat)
    requires SizeOf(Array(e, n)) >= 1
    ensures n >= 1 && SizeOf(e) >= 1 && n * SizeOf(e) == SizeOf(Array(e, n))
  {
  }

  lemma ArraySplitStep(n: nat, s: nat, k: nat)
    requires k < n
    ensures ArraySplit(n, s, 0) >= k ==>
      (ArraySplit(n, s, 0) == k <==> k > 0 && k * s >= 8 && OffsetSum(k, s) < 8)
  {
    if ArraySplit(n, s, 0) >= k { ArraySplitFrom(n, s, 0, k); }
  }

  lemma {:induction false} ArraySplitFrom(n: nat, s: nat, j: nat, k: nat)
    requires j <= k <= n && ArraySplit(n, s, j) >= k
    ensures ArraySplit(n, s, j) == ArraySplit(n, s, k)
    decreases k - j
  {
    if j < k { ArraySplitFrom(n, s, j + 1, k); }
  }

  lemma ElemsExtend(e: Ty, lo: nat, hi: nat)
    requires lo <= hi
    ensures Elems(e, lo, hi + 1) == Elems(e, lo, hi) + [Leaf(e, hi * SizeOf(e))]
    ensures Elems(e, lo, lo) == []
  {
    assert lo + (hi - lo) == hi;
  }

  // The regions of the first i elements of an array whose split is at k.
  function SplitSoFar(e: Ty, k: nat, i: nat): seq<Region> {
    if i == 0 then []
    else if i <= k then [RegionOf(Elems(e, 0, i))]
    else [RegionOf(Elems(e, 0, k)), RegionOf(Elems(e, k, i))]
  }

  class EightByteInfo {
    var ebrs: seq<Region>
    var failed: bool  // an assertion of the original has failed

    constructor (t: Ty)
      requires Valid(t) && 1 <= SizeOf(t) <= 16
      ensures failed <==> Pieces(t).None?
      ensures 1 <= |ebrs| <= 2
      ensures !failed ==> ebrs == WithTypes(Split(t), Pieces(t).value)
    {
      hide SizeOf, Split, Valid, WithTypes;
      ebrs := [];
      failed := false;
      new;
      match t {
        case Struct(_) => ExplodeStruct(t);
        case Array(_, _) => ExplodeArray(t);
        case Scalar(_, _) => ScalarFits(t); IncorporateScalar(t);
      }
      SplitWf(t);
      DetermineABITypes();
    }

    method ExplodeStruct(t: Ty)
      requires Valid(t) && t.Struct? && 1 <= SizeOf(t) <= 16 && ebrs == []
      modifies `ebrs
      ensures ebrs == Split(t)
    {
      hide SizeOf, Leaves, SplitLeaves, Extend, Valid, Split;
      var leafTypes := AddLeafTypes(t, 0, []);
      assert leafTypes == Leaves(t, 0);
      FirstLeafLow(t);
      var cur8: Option<nat> := None;
      NoLeaves(leafTypes[..0]);
      for i := 0 to |leafTypes|
        invariant ebrs == SplitLeaves(leafTypes[..i])
        invariant cur8 == if ebrs == [] then None else Some(|ebrs| - 1)
        invariant i > 0 ==> ebrs != []
      {
        var lt, offset := leafTypes[i].ty, leafTypes[i].off;
        assert leafTypes[..i + 1] == leafTypes[..i] + [leafTypes[i]];
        SplitExtend(leafTypes[..i], leafTypes[i]);
        if cur8.None? || (offset >= 8 && |ebrs| == 1) {
          ebrs := ebrs + [NO_REGION];
          cur8 := Some(|ebrs| - 1);
        }
        ebrs := ebrs[cur8.value := Extend(ebrs[cur8.value], lt, offset)];
      }
      assert leafTypes[..|leafTypes|] == leafTypes;
      SplitOfStruct(t);
    }

    method ExplodeArray(t: Ty)
      requires t.Array? && 1 <= SizeOf(t) <= 16 && ebrs == []
      modifies `ebrs
      ensures ebrs == Split(t)
    {
      var Array(elem, n) := t;
      ArrayIsNotEmpty(elem, n);
      var cur8: Option<nat> := None;
      var curOffset := 0;
      var elSize := SizeOf(elem);
      ghost var k := ArraySplit(n, elSize, 0);
      ArraySplits(elem, n);
      for elidx := 0 to n
        invariant curOffset == OffsetSum(elidx, elSize)
        invariant ebrs == SplitSoFar(elem, k, elidx)
        invariant cur8 == if ebrs == [] then None else Some(|ebrs| - 1)
      {
        var offset := elidx * elSize;
        ArraySplitStep(n, elSize, elidx);
        if elidx > k { AfterSplit(n, elSize, elidx); }
        StepSoFar(elem, k, elidx);
        if cur8.None? || (offset >= 8 && curOffset < 8) {
          ebrs := ebrs + [NO_REGION];
          cur8 := Some(|ebrs| - 1);
        }
        ebrs := ebrs[cur8.value := Extend(ebrs[cur8.value], elem, offset)];
        curOffset := curOffset + offset;
      }
    }

    method IncorporateScalar(t: Ty)
      requires t.Scalar? && t.size <= 8 && ebrs == []
      modifies `ebrs
      ensures ebrs == Split(t)
    {
      var ebr := NO_REGION.(types := [t], offsets := [0], direct := Some(LlvmScalar(t)));
      if t.kind.Integer? && t.size < 4 {
        ebr := ebr.(attr := if t.kind.unsigned then Zext else Sext);
      }
      ebrs := ebrs + [ebr];
    }

    // How many registers of each kind it takes to pass the value directly.
    method GetRegisterRequirements() returns (numInt: nat, numSSE: nat)
      ensures numInt + numSSE == |ebrs| && numSSE == SseCount(ebrs)
    {
      numInt, numSSE := 0, 0;
      for i := 0 to |ebrs|
        invariant numInt + numSSE == i && numSSE == SseCount(ebrs[..i])
      {
        assert ebrs[..i + 1][..i] == ebrs[..i];
        if RegionDisp(ebrs[i]) == SSE { numSSE := numSSE + 1; } else { numInt := numInt + 1; }
      }
      assert ebrs[..|ebrs|] == ebrs;
    }

    method DetermineABITypes()
      requires forall i :: 0 <= i < |ebrs| ==> WfRegion(ebrs[i])
      modifies this
      ensures |ebrs| == |old(ebrs)|
      ensures failed <==> old(failed) || ChosenAll(old(ebrs)).None?
      ensures !failed ==> ebrs == WithTypes(old(ebrs), ChosenAll(old(ebrs)).value)
    {
      ghost var rs := ebrs;
      ghost var bad := failed;
      for i := 0 to |ebrs|
        invariant |ebrs| == |rs| && forall j :: i <= j < |rs| ==> ebrs[j] == rs[j]
        invariant failed <==> bad || exists j :: 0 <= j < i && Chosen(rs[j]).None?
        invariant !failed ==> forall j :: 0 <= j < i ==> ebrs[j] == rs[j].(direct := Chosen(rs[j]))
      {
        var ebr := ebrs[i];
        if ebr.direct.None? {
          if RegionDisp(ebr) == SSE {
            // two floats are passed as a vector
            if |ebr.types| == 2 {
              ebr := ebr.(direct := Some(LTwoFloats));
            } else if |ebr.types| == 1 && ebr.types[0].Scalar? {
              ebr := ebr.(direct := Some(LlvmScalar(ebr.types[0])));
            } else {
              failed := true;
            }
          } else {
            var nel := |ebr.offsets|;
            var bytes := ebr.offsets[nel - 1] - ebr.offsets[0] + SizeOf(ebr.types[nel - 1]);
            if 1 <= bytes <= 8 { ebr := ebr.(direct := Some(LInt(bytes))); } else { failed := true; }
          }
        }
        assert Chosen(rs[i]).None? ==> failed;
        assert Chosen(rs[i]).Some? ==> ebr == rs[i].(direct := Chosen(rs[i]));
        ebrs := ebrs[i := ebr];
      }
      ChosenAt(rs);
    }
  }

  function SseCount(rs: seq<Region>): (n: nat)
    ensures n <= |rs|
  {
    if rs == [] then 0 else SseCount(rs[..|rs| - 1]) + (if RegionDisp(rs[|rs| - 1]) == SSE then 1 else 0)
  }

  lemma {:induction false} ChosenAt(rs: seq<Region>)
    requires forall i :: 0 <= i < |rs| ==> WfRegion(rs[i])
    ensures ChosenAll(rs).Some? <==> forall i :: 0 <= i < |rs| ==> Chosen(rs[i]).Some?
    ensures ChosenAll(rs).Some? ==>
      |ChosenAll(rs).value| == |rs| && forall i :: 0 <= i < |rs| ==> ChosenAll(rs).value[i] == Chosen(rs[i]).value
    decreases rs
  {
    if rs != [] {
      ChosenAt(rs[1..]);
      assert forall i :: 1 <= i < |rs| ==> rs[i] == rs[1..][i - 1];
      if Chosen(rs[0]).Some? && forall i :: 0 <= i < |rs[1..]| ==> Chosen(rs[1..][i]).Some? {
        assert forall i :: 0 <= i < |rs| ==> Chosen(rs[i]).Some? by {
          forall i | 0 <= i < |rs| ensures Chosen(rs[i]).Some? { if i > 0 { assert rs[i] == rs[1..][i - 1]; } }
        }
      }
    }
  }

  // Past the split the sum of the offsets stays at 8 or above.
  lemma AfterSplit(n: nat, s: nat, i: nat)
    requires ArraySplit(n, s, 0) < i < n
    ensures OffsetSum(i, s) >= 8
  {
    var k := ArraySplit(n, s, 0);
    ArraySplitStep(n, s, k);
    SumFrom(s, k, i);
  }

  lemma {:induction false} SumFrom(s: nat, k: nat, i: nat)
    requires k < i
    ensures OffsetSum(i, s) >= k * s
    decreases i
  {
    if k < i - 1 { SumFrom(s, k, i - 1); }
  }

  lemma StepSoFar(e: Ty, k: nat, i: nat)
    requires k > 0
    ensures var rs := SplitSoFar(e, k, i); var ss := SplitSoFar(e, k, i + 1);
      if i == 0 || i == k then ss == rs + [Extend(NO_REGION, e, i * SizeOf(e))]
      else rs != [] && ss == rs[|rs| - 1 := Extend(rs[|rs| - 1], e, i * SizeOf(e))]
  {
    hide RegionOf, Elems, SizeOf, Extend;
    if i < k {
      MoreElems(e, 0, i);
    } else {
      MoreElems(e, k, i);
    }
  }

  lemma MoreElems(e: Ty, lo: nat, hi: nat)
    requires lo <= hi
    ensures RegionOf(Elems(e, lo, hi + 1)) 
         == Extend(if lo == hi then NO_REGION else RegionOf(Elems(e, lo, hi)), e, hi * SizeOf(e))
  {
    hide RegionOf, Elems, SizeOf, Extend;
    ElemsExtend(e, lo, hi);
    RegionExtend(Elems(e, lo, hi), Leaf(e, hi * SizeOf(e)));
  }
}
