/** The parameter-passing oracle: which parameters are passed directly, which in memory, and where each
    one's slots are in the lowered signature. */
module CabiOracle {
  import opened Wrappers
  import opened CabiTypes
  import opened CabiRegions
  import opened CabiEightByte

  datatype ParamDisp = ParmDirect | ParmIgnore | ParmIndirect

  datatype ParamInfo = ParamInfo(types: seq<LTy>, disp: ParamDisp, attr: Attr, sigOffset: int)

  // No assertion fails on a type: it is passed in memory or not at all, or its pieces can be chosen.
  predicate Passable(t: Ty) {
    Valid(t) && (1 <= SizeOf(t) <= 16 ==> Pieces(t).Some?)
  }

  // The types the oracle accepts: all but the arrays of at most 16 bytes that do not fit.
  lemma PassableExactly(t: Ty)
    requires Valid(t)
    ensures Passable(t) <==> (t.Array? && 1 <= SizeOf(t) <= 16 ==> ArrayFits(t.elem, t.count))
  {
    hide SizeOf, Pieces, ArrayFits;
    if 1 <= SizeOf(t) <= 16 {
      match t
      case Struct(_) => StructSplits(t);
      case Array(e, n) =>
        ArrayIsNotEmpty(e, n);
        ArrayExactly(e, n);
      case Scalar(_, _) => ScalarPieces(t);
    }
  }

  lemma ScalarPieces(t: Ty)
    requires t.Scalar?
    ensures Pieces(t) == Some([LlvmScalar(t)])
  {
    ChosenOneOrTwo(Split(t));
  }

  function Classify(t: Ty): ParamDisp {
    if SizeOf(t) == 0 then ParmIgnore else if SizeOf(t) <= 16 then ParmDirect else ParmIndirect
  }

  // ----- the register counters -----

  // Free integer and SSE registers, and the slots of the signature used so far.
  datatype Regs = Regs(ints: nat, sses: nat, args: nat)

  function Less(n: nat): nat {
    if n > 0 then n - 1 else 0
  }

  function AddSlot(s: Regs, d: Disp): Regs {
    if d == SSE then Regs(s.ints, Less(s.sses), s.args + 1) else Regs(Less(s.ints), s.sses, s.args + 1)
  }

  function AddSlots(s: Regs, rs: seq<Region>): Regs
    decreases rs
  {
    if rs == [] then s else AddSlots(AddSlot(s, RegionDisp(rs[0])), rs[1..])
  }

  function CanPassDirectly(regsInt: nat, regsSSE: nat, s: Regs): bool {
    regsInt + regsSSE == 1 || (regsInt <= s.ints && regsSSE <= s.sses)
  }

  function Direct(t: Ty, s: Regs): bool {
    CanPassDirectly(|Split(t)| - SseCount(Split(t)), SseCount(Split(t)), s)
  }

  // What the oracle says of a parameter, and the state it leaves.
  function InfoOf(t: Ty, s: Regs): ParamInfo
    requires Passable(t)
  {
    match Classify(t)
    case ParmIgnore => ParamInfo([LVoid], ParmIgnore, NoAttr, -1)
    case ParmIndirect => ParamInfo([LPtrTo(t)], ParmIndirect, ByVal, s.args)
    case ParmDirect =>
      if Direct(t, s) then
        ParamInfo(Pieces(t).value, ParmDirect, if t.Scalar? then ScalarRegion(t).attr else NoAttr, s.args)
      else ParamInfo([LPtrTo(t)], ParmIndirect, ByVal, s.args)
  }

  function After(t: Ty, s: Regs): Regs {
    match Classify(t)
    case ParmIgnore => s
    case ParmIndirect => s.(args := s.args + 1)
    case ParmDirect => if Direct(t, s) then AddSlots(s, Split(t)) else s.(args := s.args + 1)
  }

  function ReturnInfo(res: Option<Ty>): ParamInfo
    requires res.Some? ==> Passable(res.value)
  {
    if res.None? || Classify(res.value) == ParmIgnore then ParamInfo([LVoid], ParmIgnore, NoAttr, -1)
    else if Classify(res.value) == ParmIndirect then ParamInfo([LPtrTo(res.value)], ParmIndirect, StructReturn, 0)
    else
      var ps := Pieces(res.value).value;
      if |ps| == 1 then
        ParamInfo(ps, ParmDirect, if res.value.Scalar? then ScalarRegion(res.value).attr else NoAttr, -1)
      else if |ps| == 2 then ParamInfo([LPair(ps[0], ps[1])], ParmDirect, NoAttr, -1)
      else ParamInfo([], ParmDirect, NoAttr, -1)
  }

  // After the result: a result in memory takes an integer register for its address.
  function Begin(res: Option<Ty>): Regs
  {
    if res.Some? && Classify(res.value) == ParmIndirect then Regs(5, 8, 1) else Regs(6, 8, 0)
  }

  function ChainInfo(off: nat): ParamInfo {
    ParamInfo([LPtr], ParmDirect, Nest, off)
  }

  function ParamInfos(ts: seq<Ty>, s: Regs): (r: seq<ParamInfo>)
    requires forall i :: 0 <= i < |ts| ==> Passable(ts[i])
    ensures |r| == |ts|
    decreases ts
  {
    if ts == [] then [] else [InfoOf(ts[0], s)] + ParamInfos(ts[1..], After(ts[0], s))
  }

  // The state when the parameters ts have been seen.
  function Seen(ts: seq<Ty>, s: Regs): Regs
    decreases ts
  {
    if ts == [] then s else Seen(ts[1..], After(ts[0], s))
  }

  predicate Signature(ts: seq<Ty>, res: Option<Ty>) {
    (forall i :: 0 <= i < |ts| ==> Passable(ts[i])) && (res.Some? ==> Passable(res.value))
  }

  function Chained(s: Regs): Regs {
    s.(args := s.args + 1)
  }

  // The result, the static chain, and the parameters.
  function Infos(ts: seq<Ty>, res: Option<Ty>): (r: seq<ParamInfo>)
    requires Signature(ts, res)
    ensures |r| == |ts| + 2
  {
    var s := Begin(res);
    [ReturnInfo(res), ChainInfo(s.args)] + ParamInfos(ts, Chained(s))
  }

  // The parameter types of the lowered signature.
  function SlotsOf(i: ParamInfo): seq<LTy> {
    if i.disp == ParmIgnore then [] else i.types
  }

  function Slots(infos: seq<ParamInfo>): seq<LTy> {
    if infos == [] then [] else SlotsOf(infos[0]) + Slots(infos[1..])
  }

  function Lowered(infos: seq<ParamInfo>): seq<LTy>
    requires infos != []
  {
    (if infos[0].disp == ParmIndirect then infos[0].types else []) + Slots(infos[1..])
  }

  // ----- the oracle -----

  class ABIState {
    var availIntRegs: nat
    var availSSERegs: nat
    var argCount: nat

    ghost function View(): Regs
      reads this
    {
      Regs(availIntRegs, availSSERegs, argCount)
    }

    constructor ()
      ensures View() == Regs(6, 8, 0)
    {
      availIntRegs, availSSERegs, argCount := 6, 8, 0;
    }

    method AddDirectIntArg()
      modifies this
      ensures View() == AddSlot(old(View()), Int)
    {
      if availIntRegs > 0 { availIntRegs := availIntRegs - 1; }
      argCount := argCount + 1;
    }

    method AddDirectSSEArg()
      modifies this
      ensures View() == AddSlot(old(View()), SSE)
    {
      if availSSERegs > 0 { availSSERegs := availSSERegs - 1; }
      argCount := argCount + 1;
    }

    method AddIndirectArg()
      modifies this
      ensures View() == old(View()).(args := old(View()).args + 1)
    {
      argCount := argCount + 1;
    }

    method AddIndirectReturn()
      modifies this
      ensures View() == AddSlot(old(View()), Int)
    {
      if availIntRegs > 0 { availIntRegs := availIntRegs - 1; }
      argCount := argCount + 1;
    }

    method AddChainArg()
      modifies this
      ensures View() == Chained(old(View()))
    {
      argCount := argCount + 1;
    }
  }

  class CABIOracle {
    var infov: seq<ParamInfo>
    var paramSlots: seq<LTy>  // the parameters of the lowered function type
    var resultType: LTy

    constructor (ts: seq<Ty>, res: Option<Ty>)
      requires Signature(ts, res)
      ensures infov == Infos(ts, res)
      ensures paramSlots == Lowered(infov)
      ensures resultType ==
              if infov[0].disp == ParmIndirect || infov[0].types == [] then LVoid else infov[0].types[0]
    {
      infov, paramSlots, resultType := [], [], LVoid;
      new;
      Analyze(ts, res);
    }

    method AnalyzeABIReturn(res: Option<Ty>, state: ABIState) returns (info: ParamInfo)
      requires (res.Some? ==> Passable(res.value)) && state.View() == Regs(6, 8, 0)
      modifies state
      ensures info == ReturnInfo(res) && state.View() == Begin(res)
    {
      hide SizeOf, Pieces, Split, Valid;
      var rdisp := if res.None? then ParmIgnore else Classify(res.value);
      if rdisp == ParmIgnore {
        return ParamInfo([LVoid], ParmIgnore, NoAttr, -1);
      }
      if rdisp == ParmIndirect {
        state.AddIndirectReturn();
        return ParamInfo([LPtrTo(res.value)], ParmIndirect, StructReturn, 0);
      }
      var ebi := new EightByteInfo(res.value);
      RegionAttrs(res.value);
      if |ebi.ebrs| == 1 {
        info := ParamInfo([ebi.ebrs[0].direct.value], ParmDirect, ebi.ebrs[0].attr, -1);
      } else {
        info := ParamInfo([LPair(ebi.ebrs[0].direct.value, ebi.ebrs[1].direct.value)], ParmDirect, NoAttr, -1);
      }
    }

    method AnalyzeABIParam(t: Ty, state: ABIState) returns (info: ParamInfo)
      requires Passable(t)
      modifies state
      ensures info == InfoOf(t, old(state.View())) && state.View() == After(t, old(state.View()))
    {
      hide SizeOf, Pieces, Split, Valid, AddSlots, RegionDisp, SseCount;
      var pdisp := Classify(t);
      if pdisp == ParmIgnore {
        return ParamInfo([LVoid], ParmIgnore, NoAttr, -1);
      }
      var sigOff := state.argCount;
      if pdisp == ParmIndirect {
        state.AddIndirectArg();
        return ParamInfo([LPtrTo(t)], ParmIndirect, ByVal, sigOff);
      }
      var ebi := new EightByteInfo(t);
      var rs := ebi.ebrs;
      RegionAttrs(t);
      SameDisps(Split(t), Pieces(t).value);
      ghost var s0 := state.View();
      var regsInt, regsSSE := ebi.GetRegisterRequirements();
      if CanPassDirectly(regsInt, regsSSE, Regs(state.availIntRegs, state.availSSERegs, state.argCount)) {
        var abiTypes, attr := [], NoAttr;
        assert rs[0..] == rs;
        for k := 0 to |rs|
          invariant |abiTypes| == k && forall j :: 0 <= j < k ==> abiTypes[j] == Pieces(t).value[j]
          invariant attr == if k == 0 then NoAttr else if t.Scalar? then ScalarRegion(t).attr else NoAttr
          invariant AddSlots(state.View(), rs[k..]) == AddSlots(s0, rs)
        {
          abiTypes := abiTypes + [rs[k].direct.value];
          assert rs[k].attr != NoAttr ==> attr == NoAttr;
          if rs[k].attr != NoAttr {
            attr := rs[k].attr;
          }
          AddSlotsStep(state.View(), rs[k..]);
          assert rs[k..][1..] == rs[k + 1..];
          if RegionDisp(rs[k]) == SSE { state.AddDirectSSEArg(); } else { state.AddDirectIntArg(); }
        }
        assert rs[|rs|..] == [];
        NoSlots(state.View());
        assert abiTypes == Pieces(t).value;
        info := ParamInfo(abiTypes, ParmDirect, attr, sigOff);
      } else {
        state.AddIndirectArg();
        info := ParamInfo([LPtrTo(t)], ParmIndirect, ByVal, sigOff);
      }
    }

    method Analyze(ts: seq<Ty>, res: Option<Ty>)
      requires Signature(ts, res) && infov == []
      modifies this
      ensures infov == Infos(ts, res)
      ensures paramSlots == Lowered(infov)
      ensures resultType ==
              if infov[0].disp == ParmIndirect || infov[0].types == [] then LVoid else infov[0].types[0]
    {
      hide Passable, InfoOf, After, ReturnInfo, Slots, ParamInfos, Seen;
      var state := new ABIState();
      var rinfo := AnalyzeABIReturn(res, state);
      infov := [rinfo];
      var sigOff := state.argCount;
      state.AddChainArg();
      infov := infov + [ChainInfo(sigOff)];
      ghost var head := infov;
      ghost var s := state.View();
      assert ts[0..] == ts;
      for idx := 0 to |ts|
        invariant infov + ParamInfos(ts[idx..], state.View()) == Infos(ts, res)
        invariant |infov| == idx + 2
      {
        ParamInfosStep(ts[idx..], state.View());
        assert ts[idx..][1..] == ts[idx + 1..];
        var d := AnalyzeABIParam(ts[idx], state);
        infov := infov + [d];
      }
      NoParamInfos(ts[|ts|..], state.View());
      assert infov == Infos(ts, res);
      // the lowered function type
      var elems: seq<LTy>, rtyp := [], LVoid;
      if infov[0].disp == ParmIndirect {
        elems := infov[0].types;
      } else if infov[0].types != [] {
        rtyp := infov[0].types[0];
      }
      for pidx := 1 to |infov|
        invariant infov == Infos(ts, res)
        invariant elems + Slots(infov[pidx..]) == Lowered(infov)
      {
        SlotsStep(infov[pidx..]);
        assert infov[pidx..][1..] == infov[pidx + 1..];
        if infov[pidx].disp != ParmIgnore {
          elems := elems + infov[pidx].types;
        }
      }
      NoSlotsOf(infov[|infov|..]);
      paramSlots, resultType := elems, rtyp;
    }
  }

  lemma NoSlotsOf(infos: seq<ParamInfo>)
    requires infos == []
    ensures Slots(infos) == []
  {
  }

  lemma SlotsStep(infos: seq<ParamInfo>)
    requires infos != []
    ensures Slots(infos) == SlotsOf(infos[0]) + Slots(infos[1..])
  {
  }

  lemma ParamInfosStep(ts: seq<Ty>, s: Regs)
    requires ts != [] && forall i :: 0 <= i < |ts| ==> Passable(ts[i])
    ensures ParamInfos(ts, s) == [InfoOf(ts[0], s)] + ParamInfos(ts[1..], After(ts[0], s))
  {
  }

  lemma NoParamInfos(ts: seq<Ty>, s: Regs)
    requires ts == []
    ensures ParamInfos(ts, s) == []
  {
  }

  lemma AddSlotsStep(s: Regs, rs: seq<Region>)
    requires rs != []
    ensures AddSlots(s, rs) == AddSlots(AddSlot(s, RegionDisp(rs[0])), rs[1..])
    ensures RegionDisp(rs[0]) != SSE ==> AddSlot(s, RegionDisp(rs[0])) == AddSlot(s, Int)
  {
  }

  lemma NoSlots(s: Regs)
    ensures AddSlots(s, []) == s
  {
  }

  // Only a scalar has an extension attribute.
  lemma RegionAttrs(t: Ty)
    requires Valid(t) && 1 <= SizeOf(t) <= 16 && Pieces(t).Some?
    ensures var rs := WithTypes(Split(t), Pieces(t).value);
      && 1 <= |rs| <= 2 && (t.Scalar? ==> |rs| == 1)
      && forall k :: 0 <= k < |rs| ==> rs[k].attr == (if t.Scalar? then ScalarRegion(t).attr else NoAttr)
  {
    hide SizeOf;
    SplitWf(t);
  }

  lemma {:induction false} SameDisps(rs: seq<Region>, ps: seq<LTy>)
    requires |rs| == |ps|
    ensures SseCount(WithTypes(rs, ps)) == SseCount(rs)
    ensures forall s: Regs :: AddSlots(s, WithTypes(rs, ps)) == AddSlots(s, rs)
  {
    SameDispsCount(rs, WithTypes(rs, ps));
    forall s: Regs
      ensures AddSlots(s, WithTypes(rs, ps)) == AddSlots(s, rs)
    {
      SameDispsSlots(rs, WithTypes(rs, ps), s);
    }
  }

  lemma {:induction false} SameDispsCount(rs: seq<Region>, ss: seq<Region>)
    requires |rs| == |ss| && forall i :: 0 <= i < |rs| ==> rs[i].types == ss[i].types
    ensures SseCount(rs) == SseCount(ss)
    decreases rs
  {
    if rs != [] { SameDispsCount(rs[..|rs| - 1], ss[..|ss| - 1]); }
  }

  lemma {:induction false} SameDispsSlots(rs: seq<Region>, ss: seq<Region>, s: Regs)
    requires |rs| == |ss| && forall i :: 0 <= i < |rs| ==> rs[i].types == ss[i].types
    ensures AddSlots(s, rs) == AddSlots(s, ss)
    decreases rs
  {
    if rs != [] { SameDispsSlots(rs[1..], ss[1..], AddSlot(s, RegionDisp(rs[0]))); }
  }
}
