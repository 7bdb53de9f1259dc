/** Properties of whole signatures: every slot belongs to one parameter, and the oracle's counters agree
    with handing out registers slot by slot. */
module CabiSignature {
  import opened Wrappers
  import opened CabiTypes
  import opened CabiRegions
  import opened CabiEightByte
  import opened CabiOracle

  // A parameter of the lowered signature, and the attribute it carries.
  datatype Slot = Slot(ty: LTy, attr: Attr)

  function SlotsWith(i: ParamInfo): (r: seq<Slot>)
    ensures i.disp != ParmIgnore ==> |r| == |i.types|
  {
    if i.disp == ParmIgnore then []
    else seq(|i.types|, j requires 0 <= j < |i.types| => Slot(i.types[j], if j == 0 then i.attr else NoAttr))
  }

  // The slots of entry k of the oracle's list: a result has one only when it is returned in memory.
  function SlotsAt(infos: seq<ParamInfo>, k: nat): seq<Slot>
    requires k < |infos|
  {
    if k == 0 && infos[0].disp != ParmIndirect then [] else SlotsWith(infos[k])
  }

  // The slots of the first k entries.
  function SlotsUpTo(infos: seq<ParamInfo>, k: nat): seq<Slot>
    requires k <= |infos|
  {
    if k == 0 then [] else SlotsUpTo(infos, k - 1) + SlotsAt(infos, k - 1)
  }

  function TypesOf(ss: seq<Slot>): (r: seq<LTy>)
    ensures |r| == |ss| && forall i :: 0 <= i < |ss| ==> r[i] == ss[i].ty
  {
    seq(|ss|, i requires 0 <= i < |ss| => ss[i].ty)
  }

  // Joined in order, the slots are the parameters of the lowered function type.
  lemma {:induction false} LoweredIsSlots(infos: seq<ParamInfo>)
    requires infos != []
    ensures Lowered(infos) == TypesOf(SlotsUpTo(infos, |infos|))
  {
    LoweredFrom(infos, |infos|);
  }

  lemma {:induction false} LoweredFrom(infos: seq<ParamInfo>, k: nat)
    requires 1 <= k <= |infos|
    ensures Lowered(infos) == TypesOf(SlotsUpTo(infos, k)) + Slots(infos[k..])
    ensures k == |infos| ==> Slots(infos[k..]) == []
    decreases k
  {
    hide SlotsUpTo, SlotsAt, TypesOf, Slots, Lowered;
    SlotsNext(infos, k - 1);
    TypesAppend(SlotsUpTo(infos, k - 1), SlotsAt(infos, k - 1));
    if k == |infos| { NoSlotsOf(infos[k..]); }
    if k == 1 {
      LoweredHead(infos);
    } else {
      LoweredFrom(infos, k - 1);
      var tail := infos[k - 1..];
      assert tail[1..] == infos[k..] && tail[0] == infos[k - 1];
      TypesAt(infos, k - 1);
      SlotsStep(tail);
    }
  }

  lemma LoweredHead(infos: seq<ParamInfo>)
    requires infos != []
    ensures Lowered(infos) == TypesOf(SlotsUpTo(infos, 1)) + Slots(infos[1..])
  {
    hide SlotsUpTo, TypesOf, SlotsAt;
    SlotsNext(infos, 0);
    TypesAppend(SlotsUpTo(infos, 0), SlotsAt(infos, 0));
    FirstSlots(infos);
  }

  lemma TypesAppend(a: seq<Slot>, b: seq<Slot>)
    ensures TypesOf(a + b) == TypesOf(a) + TypesOf(b)
  {
  }

  lemma FirstSlots(infos: seq<ParamInfo>)
    requires infos != []
    ensures TypesOf(SlotsUpTo(infos, 1)) == if infos[0].disp == ParmIndirect then infos[0].types else []
  {
    assert SlotsUpTo(infos, 1) == SlotsUpTo(infos, 0) + SlotsAt(infos, 0);
  }

  lemma TypesAt(infos: seq<ParamInfo>, k: nat)
    requires 1 <= k < |infos|
    ensures TypesOf(SlotsAt(infos, k)) == SlotsOf(infos[k])
  {
  }

  // ----- offsets -----

  lemma {:induction false} InfosTake(ts: seq<Ty>, res: Option<Ty>, k: nat)
    requires Signature(ts, res) && k < |ts|
    ensures Infos(ts, res)[k + 2] == InfoOf(ts[k], Seen(ts[..k], Chained(Begin(res))))
  {
    ParamInfosTake(ts, Chained(Begin(res)), k);
  }

  lemma {:induction false} ParamInfosTake(ts: seq<Ty>, s: Regs, k: nat)
    requires (forall i :: 0 <= i < |ts| ==> Passable(ts[i])) && k < |ts|
    ensures ParamInfos(ts, s)[k] == InfoOf(ts[k], Seen(ts[..k], s))
    decreases k
  {
    hide InfoOf, After, Passable;
    if k > 0 {
      ParamInfosTake(ts[1..], After(ts[0], s), k - 1);
      assert ts[1..][..k - 1] == ts[..k][1..];
    }
  }

  lemma {:induction false} SeenNext(ts: seq<Ty>, s: Regs, k: nat)
    requires k < |ts|
    ensures Seen(ts[..k + 1], s) == After(ts[k], Seen(ts[..k], s))
    decreases k
  {
    hide After;
    if k == 0 {
      assert ts[..1][1..] == [] && ts[..0] == [];
    } else {
      SeenNext(ts[1..], After(ts[0], s), k - 1);
      assert ts[1..][..k - 1] == ts[..k][1..] && ts[1..][..k] == ts[..k + 1][1..];
    }
  }

  lemma {:induction false} AddSlotsCount(s: Regs, rs: seq<Region>)
    ensures AddSlots(s, rs).args == s.args + |rs|
    decreases rs
  {
    if rs != [] { AddSlotsCount(AddSlot(s, RegionDisp(rs[0])), rs[1..]); }
  }

  // The oracle's slot counter is the number of slots before.
  lemma CountOfSlots(t: Ty, s: Regs)
    requires Passable(t)
    ensures After(t, s).args == s.args + |SlotsWith(InfoOf(t, s))|
    ensures InfoOf(t, s).disp != ParmIgnore ==> InfoOf(t, s).sigOffset == s.args && InfoOf(t, s).types != []
  {
    hide SizeOf, Pieces, Split, AddSlots, Direct;
    if Classify(t) == ParmDirect {
      AddSlotsCount(s, Split(t));
      SplitWf(t) by { assert Valid(t); }
    }
  }

  lemma {:induction false} OffsetsAre(ts: seq<Ty>, res: Option<Ty>, k: nat)
    requires Signature(ts, res) && k <= |ts|
    ensures |SlotsUpTo(Infos(ts, res), k + 2)| == Seen(ts[..k], Chained(Begin(res))).args
    decreases k
  {
    hide InfoOf, After, Passable, SlotsWith, ReturnInfo, ParamInfos;
    var ps := Infos(ts, res);
    var s := Chained(Begin(res));
    if k == 0 {
      HeadSlots(ts, res);
      assert ts[..0] == [];
    } else {
      OffsetsAre(ts, res, k - 1);
      InfosTake(ts, res, k - 1);
      SeenNext(ts, s, k - 1);
      CountOfSlots(ts[k - 1], Seen(ts[..k - 1], s));
    }
  }

  lemma HeadSlots(ts: seq<Ty>, res: Option<Ty>)
    requires Signature(ts, res)
    ensures var ps := Infos(ts, res);
      && |SlotsUpTo(ps, 2)| == Begin(res).args + 1 && |SlotsUpTo(ps, 1)| == Begin(res).args == ps[1].sigOffset
      && (ps[0].disp == ParmIndirect <==> SlotsAt(ps, 0) != [])
        && (ps[0].disp == ParmIndirect ==> ps[0].sigOffset == 0 && |ps[0].types| == 1)
      && SlotsAt(ps, 1) == [Slot(LPtr, Nest)] && SlotsUpTo(ps, 2) == SlotsAt(ps, 0) + [Slot(LPtr, Nest)]
  {
    hide Passable, ParamInfos, SizeOf, Pieces;
    var ps := Infos(ts, res);
    assert SlotsUpTo(ps, 1) == SlotsUpTo(ps, 0) + SlotsAt(ps, 0);
    assert SlotsUpTo(ps, 2) == SlotsUpTo(ps, 1) + SlotsAt(ps, 1);
  }

  // Entry k owns slot x of the signature.
  predicate Owns(infos: seq<ParamInfo>, k: nat, x: nat)
    requires k < |infos|
  {
    SlotsAt(infos, k) != [] && infos[k].sigOffset <= x < infos[k].sigOffset + |infos[k].types|
  }

  lemma {:induction false} OffsetIsCount(ts: seq<Ty>, res: Option<Ty>, k: nat)
    requires Signature(ts, res) && k < |Infos(ts, res)|
    ensures var ps := Infos(ts, res);
      SlotsAt(ps, k) != [] ==> ps[k].sigOffset == |SlotsUpTo(ps, k)| && |SlotsAt(ps, k)| == |ps[k].types|
  {
    hide Passable, Infos, InfoOf;
    HeadSlots(ts, res);
    if k >= 2 {
      OffsetsAre(ts, res, k - 2);
      InfosTake(ts, res, k - 2);
      CountOfSlots(ts[k - 2], Seen(ts[..k - 2], Chained(Begin(res))));
    }
  }

  lemma {:induction false} SlotsUpToGrows(infos: seq<ParamInfo>, j: nat, k: nat)
    requires j <= k <= |infos|
    ensures SlotsUpTo(infos, j) <= SlotsUpTo(infos, k)
    decreases k - j
  {
    if j < k { SlotsUpToGrows(infos, j + 1, k); }
  }

  // The slots [sigOffset, sigOffset + number of types) of the returned address, the chain and the
  // parameters that are not ignored divide the lowered parameter list, in order: each slot has one
  // owner, and carries its type.
  lemma SlotsPartition(ts: seq<Ty>, res: Option<Ty>, x: nat)
    requires Signature(ts, res) && x < |Lowered(Infos(ts, res))|
    ensures var ps := Infos(ts, res);
      exists k :: 0 <= k < |ps| && Owns(ps, k, x) && Lowered(ps)[x] == ps[k].types[x - ps[k].sigOffset]
        && forall j :: 0 <= j < |ps| && Owns(ps, j, x) ==> j == k
  {
    hide Passable, Infos, Lowered, SlotsAt, SlotsUpTo;
    var ps := Infos(ts, res);
    LoweredIsSlots(ps);
    var k := FindOwner(ps, |ps|, x);
    OffsetIsCount(ts, res, k);
    SlotsUpToGrows(ps, k + 1, |ps|);
    SlotsNext(ps, k);
    assert Owns(ps, k, x);
    SlotTypes(ps, k, x - ps[k].sigOffset);
    forall j | 0 <= j < |ps| && Owns(ps, j, x)
      ensures j == k
    {
      OffsetIsCount(ts, res, j);
      SlotsNext(ps, j);
      if j < k { SlotsUpToGrows(ps, j + 1, k); }
      if k < j { SlotsUpToGrows(ps, k + 1, j); }
    }
  }

  lemma SlotsNext(infos: seq<ParamInfo>, k: nat)
    requires k < |infos|
    ensures SlotsUpTo(infos, k + 1) == SlotsUpTo(infos, k) + SlotsAt(infos, k)
  {
  }

  lemma SlotTypes(infos: seq<ParamInfo>, k: nat, j: nat)
    requires k < |infos| && j < |SlotsAt(infos, k)|
    ensures j < |infos[k].types| && SlotsAt(infos, k)[j]
      == Slot(infos[k].types[j], if j == 0 then infos[k].attr else NoAttr)
  {
  }

  lemma {:induction false} FindOwner(infos: seq<ParamInfo>, n: nat, x: nat) returns (k: nat)
    requires n <= |infos| && x < |SlotsUpTo(infos, n)|
    ensures k < n && |SlotsUpTo(infos, k)| <= x < |SlotsUpTo(infos, k + 1)|
    decreases n
  {
    if |SlotsUpTo(infos, n - 1)| <= x { k := n - 1; } else { k := FindOwner(infos, n - 1, x); }
  }

  // ----- registers -----

  datatype Need = IntReg | SseReg | NoReg

  // The kind of register a slot is passed in, while there are any: the static chain has one of its
  // own, and a value passed in memory needs none.
  function NeedOf(s: Slot): Need {
    if s.attr == Nest || s.attr == ByVal then NoReg
    else if s.ty == LFloat || s.ty == LDouble || s.ty == LTwoFloats then SseReg
    else IntReg
  }

  function Count(ss: seq<Slot>, n: Need): (c: nat)
    ensures c <= |ss|
  {
    if ss == [] then 0 else Count(ss[..|ss| - 1], n) + (if NeedOf(ss[|ss| - 1]) == n then 1 else 0)
  }

  // Six integer and eight SSE registers are handed out in the order of the slots.
  predicate Registered(ss: seq<Slot>, k: nat)
    requires k < |ss|
  {
    match NeedOf(ss[k])
    case IntReg => Count(ss[..k], IntReg) < 6
    case SseReg => Count(ss[..k], SseReg) < 8
    case NoReg => false
  }

  function Minus(n: nat, k: nat): nat {
    if k < n then n - k else 0
  }

  predicate Agree(s: Regs, ss: seq<Slot>) {
    s == Regs(Minus(6, Count(ss, IntReg)), Minus(8, Count(ss, SseReg)), |ss|)
  }

  lemma CountNext(ss: seq<Slot>, x: Slot, n: Need)
    ensures Count(ss + [x], n) == Count(ss, n) + (if NeedOf(x) == n then 1 else 0)
  {
    assert (ss + [x])[..|ss|] == ss;
  }

  lemma AgreeNext(s: Regs, ss: seq<Slot>, x: Slot)
    requires Agree(s, ss)
    ensures Agree(match NeedOf(x)
                  case IntReg => AddSlot(s, Int)
                  case SseReg => AddSlot(s, SSE)
                  case NoReg => Chained(s), ss + [x])
  {
    CountNext(ss, x, IntReg);
    CountNext(ss, x, SseReg);
  }

  // A piece needs the register its region was counted for.
  lemma PieceNeed(t: Ty, j: nat, a: Attr)
    requires Passable(t) && 1 <= SizeOf(t) <= 16 && j < |Pieces(t).value| && a != Nest && a != ByVal
    ensures NeedOf(Slot(Pieces(t).value[j], a)) == if RegionDisp(Split(t)[j]) == SSE then SseReg else IntReg
  {
    hide SizeOf, Leaves, Span, ChosenAll, SplitLeaves, SplitElems, ScalarRegion, DispOfAll;
    SplitWf(t);
    ChosenAt(Split(t));
    var r := Split(t)[j];
    assert Pieces(t).value[j] == Chosen(r).value;
    if r.direct.Some? {
      DirectIsScalar(t);
    } else if RegionDisp(r) == SSE && |r.types| == 1 {
      assert r.types == [r.types[0]];
      OneFloat(r.types[0]);
    }
  }

  lemma OneFloat(t: Ty)
    requires t.Scalar? && DispOfAll([t], Empty) == SSE
    ensures t.kind == Float
  {
    SseMeansFloats([t], Empty);
    assert [t][0] == t;
  }

  lemma DirectIsScalar(t: Ty)
    ensures !t.Scalar? ==> forall j :: 0 <= j < |Split(t)| ==> Split(t)[j].direct.None?
    ensures t.Scalar? ==> Split(t) == [ScalarRegion(t)] && RegionDisp(ScalarRegion(t)) == DispOf(t)
    ensures t.Scalar? ==> Chosen(ScalarRegion(t)) == Some(LlvmScalar(t))
  {
    if t.Scalar? {
      assert [t][1..] == [];
      assert DispOfAll([t], Empty) == Meet(DispOf(t), Empty);
    } else if t.Array? {
      assert forall ls :: RegionOf(ls).direct.None?;
    } else {
      SplitDirect(t);
    }
  }

  // The slots of a parameter passed directly.
  lemma DirectSlots(t: Ty, s: Regs)
    requires Passable(t) && Classify(t) == ParmDirect && Direct(t, s)
    ensures var ss := SlotsWith(InfoOf(t, s));
      && |ss| == |Split(t)| && 1 <= |ss| <= 2
      && forall j :: 0 <= j < |ss| ==> NeedOf(ss[j]) == if RegionDisp(Split(t)[j]) == SSE then SseReg else IntReg
  {
    hide SizeOf, Pieces, Split, Direct, RegionDisp, NeedOf;
    var ss := SlotsWith(InfoOf(t, s));
    SplitWf(t);
    forall j | 0 <= j < |ss|
      ensures NeedOf(ss[j]) == if RegionDisp(Split(t)[j]) == SSE then SseReg else IntReg
    {
      PieceNeed(t, j, ss[j].attr);
      assert ss[j] == Slot(Pieces(t).value[j], ss[j].attr);
    }
  }

  lemma AgreeAfter(t: Ty, s: Regs, ss: seq<Slot>)
    requires Passable(t) && Agree(s, ss)
    ensures Agree(After(t, s), ss + SlotsWith(InfoOf(t, s)))
  {
    hide Passable, SizeOf, Split, Pieces, Direct, Agree, AddSlot, RegionDisp, NeedOf;
    var xs := SlotsWith(InfoOf(t, s));
    if Classify(t) == ParmIgnore {
      assert ss + xs == ss;
    } else if Classify(t) == ParmDirect && Direct(t, s) {
      var rs := Split(t);
      DirectSlots(t, s);
      AgreeNext(s, ss, xs[0]);
      AddSlotsStep(s, rs);
      if |xs| == 2 {
        AgreeNext(AddSlot(s, RegionDisp(rs[0])), ss + [xs[0]], xs[1]);
        AddSlotsStep(AddSlot(s, RegionDisp(rs[0])), rs[1..]);
        AddSlotsStep(s, rs);
        assert rs[1..][0] == rs[1] && rs[1..][1..] == [];
        assert ss + [xs[0]] + [xs[1]] == ss + xs;
      } else {
        assert rs[1..] == [] && ss + [xs[0]] == ss + xs;
      }
      AddEqual(s, rs);
    } else {
      assert xs == [Slot(LPtrTo(t), ByVal)];
      AgreeNext(s, ss, xs[0]);
      NoNeed(xs[0]);
    }
  }

  lemma NoNeed(x: Slot)
    requires x.attr == ByVal || x.attr == Nest
    ensures NeedOf(x) == NoReg
  {
  }

  // Anything that is not SSE takes an integer register.
  lemma AddEqual(s: Regs, rs: seq<Region>)
    ensures forall x: Regs, d: Disp :: d != SSE ==> AddSlot(x, d) == AddSlot(x, Int)
    ensures AddSlots(s, []) == s
  {
  }

  // At each parameter the oracle has as many registers left as handing them out slot by slot leaves.
  lemma {:induction false} CountersAgree(ts: seq<Ty>, res: Option<Ty>, k: nat)
    requires Signature(ts, res) && k <= |ts|
    ensures Agree(Seen(ts[..k], Chained(Begin(res))), SlotsUpTo(Infos(ts, res), k + 2))
    decreases k
  {
    hide Passable, InfoOf, After, Agree, SlotsUpTo, SlotsWith;
    var ps := Infos(ts, res);
    var s := Chained(Begin(res));
    if k == 0 {
      assert ts[..0] == [];
      HeadAgrees(ts, res);
    } else {
      CountersAgree(ts, res, k - 1);
      InfosTake(ts, res, k - 1);
      SeenNext(ts, s, k - 1);
      AgreeAfter(ts[k - 1], Seen(ts[..k - 1], s), SlotsUpTo(ps, k + 1));
      SlotsNext(ps, k + 1);
    }
  }

  lemma HeadAgrees(ts: seq<Ty>, res: Option<Ty>)
    requires Signature(ts, res)
    ensures Agree(Chained(Begin(res)), SlotsUpTo(Infos(ts, res), 2))
  {
    hide Infos, Signature, SlotsAt, SlotsUpTo, Count;
    HeadSlots(ts, res);
    ReturnSlot(ts, res);
    var head := SlotsAt(Infos(ts, res), 0);
    CountNext(head, Slot(LPtr, Nest), IntReg);
    CountNext(head, Slot(LPtr, Nest), SseReg);
    CountNone();
    if head != [] {
      assert head == [] + [head[0]];
      CountNext([], head[0], IntReg);
      CountNext([], head[0], SseReg);
    }
  }

  lemma CountNone()
    ensures Count([], IntReg) == Count([], SseReg) == 0
  {
  }

  // A result in memory takes an integer slot, and an integer register.
  lemma ReturnSlot(ts: seq<Ty>, res: Option<Ty>)
    requires Signature(ts, res)
    ensures var head := SlotsAt(Infos(ts, res), 0);
      if Begin(res).args == 1 then |head| == 1 && NeedOf(head[0]) == IntReg && Begin(res) == Regs(5, 8, 1)
      else head == [] && Begin(res) == Regs(6, 8, 0)
  {
    hide Passable, ParamInfos, SizeOf, Pieces;
  }

  // A parameter of at most 16 bytes is passed directly just when it takes a single register's worth,
  // or both its halves get a register; otherwise it is passed in memory as a whole.
  lemma DirectExactly(ts: seq<Ty>, res: Option<Ty>, k: nat)
    requires Signature(ts, res) && k < |ts| && 1 <= SizeOf(ts[k]) <= 16
    ensures var info := Infos(ts, res)[k + 2];
      var before := SlotsUpTo(Infos(ts, res), k + 2);
      var qs := Pieces(ts[k]).value;
      && 1 <= |qs| <= 2
      && (info.disp == ParmDirect <==>
            |qs| == 1 || (var all := before + [Slot(qs[0], NoAttr), Slot(qs[1], NoAttr)];
                          Registered(all, |before|) && Registered(all, |before| + 1)))
      && (if info.disp == ParmDirect then info.types == qs
        else info == ParamInfo([LPtrTo(ts[k])], ParmIndirect, ByVal, |before|))
  {
    hide SizeOf, Pieces, Split, SlotsUpTo, Infos, Seen, RegionDisp, NeedOf, Count;
    var t := ts[k];
    var s := Seen(ts[..k], Chained(Begin(res)));
    var ss := SlotsUpTo(Infos(ts, res), k + 2);
    CountersAgree(ts, res, k);
    InfosTake(ts, res, k);
    SplitWf(t);
    var qs := Pieces(t).value;
    OneOrTwo(Split(t));
    if |qs| == 2 {
      PieceNeed(t, 0, NoAttr);
      PieceNeed(t, 1, NoAttr);
      var x, y := Slot(qs[0], NoAttr), Slot(qs[1], NoAttr);
      var all := ss + [x, y];
      assert all[..|ss|] == ss && all[..|ss| + 1] == ss + [x];
      CountNext(ss, x, IntReg);
      CountNext(ss, x, SseReg);
    }
  }

  lemma OneOrTwo(rs: seq<Region>)
    requires 1 <= |rs| <= 2
    ensures SseCount(rs)
         == (if RegionDisp(rs[0]) == SSE then 1 else 0) + (if |rs| == 2 && RegionDisp(rs[1]) == SSE then 1 else 0)
  {
    hide RegionDisp;
    if |rs| == 2 { assert rs[..1][0] == rs[0] && rs[..1][..0] == []; } else { assert rs[..0] == []; }
  }
}
