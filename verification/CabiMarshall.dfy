/** The two clients of the oracle, as they work step by step: the caller pushing arguments, and the
    callee sorting out its arguments and spilling them to the stack. */
module CabiMarshall {
  import opened Wrappers
  import opened CabiTypes
  import opened CabiRegions
  import opened CabiOracle
  import opened CabiSignature
  import opened CabiCall

  function AttrsOf(ss: seq<Slot>): (r: seq<Attr>)
    ensures |r| == |ss| && forall i :: 0 <= i < |ss| ==> r[i] == ss[i].attr
  {
    seq(|ss|, i requires 0 <= i < |ss| => ss[i].attr)
  }

  function NoAttrs(n: nat): (r: seq<Attr>)
    ensures |r| == n && forall i :: 0 <= i < n ==> r[i] == NoAttr
  {
    seq(n, _ => NoAttr)
  }

  // All attributes up to the slots ss, none from there on.
  function Padded(ss: seq<Slot>, n: nat): (r: seq<Attr>)
    ensures |r| == |ss| + n
  {
    AttrsOf(ss) + NoAttrs(n)
  }

  // Setting the attribute of the first slot of an entry.
  lemma PaddedNext(infos: seq<ParamInfo>, k: nat, n: nat)
    requires k < |infos| && |SlotsAt(infos, k)| <= n
    ensures var ss := SlotsUpTo(infos, k); var xs := SlotsAt(infos, k);
      Padded(SlotsUpTo(infos, k + 1), n - |xs|) ==
        if xs == [] then Padded(ss, n) else Padded(ss, n)[|ss| := infos[k].attr]
  {
    SlotsNext(infos, k);
  }

  // What is known of the entries of a signature; the loops below walk over them.
  ghost predicate Known(ts: seq<Ty>, res: Option<Ty>, infos: seq<ParamInfo>) {
    Signature(ts, res) && infos == Infos(ts, res)
  }

  lemma ParamEntry(ts: seq<Ty>, res: Option<Ty>, infos: seq<ParamInfo>, k: nat)
    requires Known(ts, res, infos) && k < |ts|
    ensures var i := infos[k + 2];
      && |SlotsAt(infos, k + 2)| == (if i.disp == ParmIgnore then 0 else |i.types|)
      && |SlotsUpTo(infos, k + 3)| == |SlotsUpTo(infos, k + 2)| + |SlotsAt(infos, k + 2)| <= |SlotsUpTo(infos, |infos|)|
      && (i.disp != ParmIgnore ==> i.sigOffset == |SlotsUpTo(infos, k + 2)| && |i.types| >= 1)
      && (i.disp == ParmIndirect ==> |i.types| == 1 && i.attr == ByVal)
      && (i.disp == ParmDirect ==>
            i.attr in {NoAttr, Zext, Sext} && |i.types| <= 2 && (|i.types| == 2 ==> i.attr == NoAttr))
      && (i.disp == ParmIgnore ==> i.attr == NoAttr)
  {
    hide Infos, InfoOf, Passable, Seen, SlotsUpTo;
    InfosTake(ts, res, k);
    var s := Seen(ts[..k], Chained(Begin(res)));
    CountOfSlots(ts[k], s);
    OffsetIsCount(ts, res, k + 2);
    SlotsNext(infos, k + 2);
    SlotsUpToGrows(infos, k + 3, |infos|);
    EntryShape(ts[k], s);
  }

  lemma EntryShape(t: Ty, s: Regs)
    requires Passable(t)
    ensures var i := InfoOf(t, s);
      && (i.disp == ParmIndirect ==> |i.types| == 1 && i.attr == ByVal)
      && (i.disp == ParmDirect ==>
            i.attr in {NoAttr, Zext, Sext} && |i.types| <= 2 && (|i.types| == 2 ==> i.attr == NoAttr))
      && (i.disp == ParmIgnore ==> i.attr == NoAttr)
  {
    hide SizeOf, Pieces, Direct;
    if Classify(t) == ParmDirect {
      OnePieceOrTwo(t);
      if t.Scalar? { ScalarPieces(t); }
    }
  }

  // ----- the caller -----

  class GenCallState {
    const infov: seq<ParamInfo>  // the oracle's answers
    var llargs: seq<Value>

    constructor (infos: seq<ParamInfo>)
      ensures infov == infos && llargs == []
    {
      infov, llargs := infos, [];
    }

    method GenCallProlog(ghost ts: seq<Ty>, ghost res: Option<Ty>, ghost args: seq<Mem>)
      requires Known(ts, res, infov) && InfosFit(ts, infov, args) && llargs == []
      modifies this
      ensures llargs == ValuesUpTo(ts, infov, args, 2)
    {
      HeadValues(ts, res, args);
      if infov[0].disp == ParmIndirect { llargs := llargs + [ResultAddress]; }
      if infov[1].disp != ParmIgnore {
        assert infov[1].disp == ParmDirect;
        llargs := llargs + [ChainValue];
      }
    }

    method GenCallMarshallArgs(ts: seq<Ty>, ghost res: Option<Ty>, args: seq<Mem>)
      requires Known(ts, res, infov) && InfosFit(ts, infov, args) && llargs == ValuesUpTo(ts, infov, args, 2)
      modifies this
      ensures llargs == ValuesUpTo(ts, infov, args, |infov|)
    {
      hide Known, InSlot, ValuesUpTo, StoreSize, SecondOffset;
      for idx := 0 to |args|
        invariant llargs == ValuesUpTo(ts, infov, args, idx + 2)
      {
        var info := infov[idx + 2];
        ParamEntry(ts, res, infov, idx);
        ValuesNext(ts, infov, args, idx);
        assert FitsArg(info, args[idx]);
        assert info.attr != Nest;
        if info.disp == ParmIndirect {
          llargs := llargs + [Address(args[idx])];
        } else if info.disp != ParmIgnore {
          assert info.disp == ParmDirect;
          InSlotFacts(|args[idx]|, info.types);
          if |info.types| == 1 {
            llargs := llargs + [Chunk(Load(args[idx], 0, info.types[0]))];
          } else {
            assert info.attr == NoAttr;
            var field1 := SecondOffset(info.types[0], info.types[1]);
            llargs := llargs + [Chunk(Load(args[idx], 0, info.types[0]))];
            llargs := llargs + [Chunk(Load(args[idx], field1, info.types[1]))];
          }
        }
      }
    }

    // The attributes of the call's arguments, found by the entries' offsets.
    method GenCallAttributes(ts: seq<Ty>, ghost res: Option<Ty>) returns (attrs: seq<Attr>)
      requires Known(ts, res, infov) && |llargs| == |SlotsUpTo(infov, |infov|)|
      ensures attrs == AttrsOf(SlotsUpTo(infov, |infov|))
    {
      hide Known, SlotsUpTo, SlotsAt, AttrsOf, Padded;
      var n := |llargs|;
      attrs := NoAttrs(n);
      HeadAttrs(ts, res, infov, n);
      if infov[0].disp == ParmIndirect { attrs := attrs[0 := StructReturn]; }
      attrs := attrs[infov[1].sigOffset := Nest];
      for idx := 0 to |ts|
        invariant |SlotsUpTo(infov, idx + 2)| <= n
          && attrs == Padded(SlotsUpTo(infov, idx + 2), n - |SlotsUpTo(infov, idx + 2)|)
      {
        var info := infov[idx + 2];
        ParamEntry(ts, res, infov, idx);
        PaddedNext(infov, idx + 2, n - |SlotsUpTo(infov, idx + 2)|);
        if info.disp != ParmIgnore {
          assert info.attr != Nest && info.attr != StructReturn;
          PaddedSame(SlotsUpTo(infov, idx + 2), n - |SlotsUpTo(infov, idx + 2)|);
          if info.attr == ByVal || info.attr == Zext || info.attr == Sext {
            attrs := attrs[info.sigOffset := info.attr];
          }
        }
      }
      PaddedNone(SlotsUpTo(infov, |infov|));
    }
  }

  lemma PaddedNone(ss: seq<Slot>)
    ensures Padded(ss, 0) == AttrsOf(ss)
  {
  }

  lemma PaddedSame(ss: seq<Slot>, n: nat)
    ensures n > 0 ==> Padded(ss, n)[|ss| := NoAttr] == Padded(ss, n)
  {
  }

  lemma HeadAttrs(ts: seq<Ty>, res: Option<Ty>, infos: seq<ParamInfo>, n: nat)
    requires Known(ts, res, infos) && n == |SlotsUpTo(infos, |infos|)|
    ensures |infos| == |ts| + 2 && |SlotsUpTo(infos, 2)| <= n && 0 <= infos[1].sigOffset < n
    ensures var attrs := if infos[0].disp == ParmIndirect then NoAttrs(n)[0 := StructReturn] else NoAttrs(n);
      attrs[infos[1].sigOffset := Nest] == Padded(SlotsUpTo(infos, 2), n - |SlotsUpTo(infos, 2)|)
  {
    hide Infos, Signature;
    HeadSlots(ts, res);
    SlotsUpToGrows(infos, 2, |infos|);
    HeadKind(ts, res);
  }

  lemma HeadKind(ts: seq<Ty>, res: Option<Ty>)
    requires Signature(ts, res)
    ensures var ps := Infos(ts, res);
      SlotsAt(ps, 0) == if ps[0].disp == ParmIndirect then [Slot(ps[0].types[0], StructReturn)] else []
  {
    hide Passable, ParamInfos, SizeOf, Pieces;
  }

  lemma HeadValues(ts: seq<Ty>, res: Option<Ty>, args: seq<Mem>)
    requires Signature(ts, res) && InfosFit(ts, Infos(ts, res), args)
    ensures var ps := Infos(ts, res);
      ValuesUpTo(ts, ps, args, 2) == (if ps[0].disp == ParmIndirect then [ResultAddress] else []) + [ChainValue]
  {
    hide Passable, ParamInfos, SizeOf, Pieces;
    var ps := Infos(ts, res);
    assert ValuesUpTo(ts, ps, args, 1) == ValuesUpTo(ts, ps, args, 0) + ValuesAt(ps, args, 0);
    assert ValuesUpTo(ts, ps, args, 2) == ValuesUpTo(ts, ps, args, 1) + ValuesAt(ps, args, 1);
  }

  lemma ValuesNext(ts: seq<Ty>, infos: seq<ParamInfo>, args: seq<Mem>, k: nat)
    requires InfosFit(ts, infos, args) && k < |args|
    ensures FitsArg(infos[k + 2], args[k])
    ensures ValuesUpTo(ts, infos, args, k + 3) == ValuesUpTo(ts, infos, args, k + 2) + Marshalled(infos[k + 2], args[k])
  {
    hide Marshalled, FitsArg;
    assert FitsArg(infos[k + 2], args[k]);
  }

  lemma InSlotFacts(size: nat, ps: seq<LTy>)
    requires InSlot(size, ps)
    ensures 1 <= |ps| <= 2 && StoreSize(ps[0]) <= size
    ensures |ps| == 2 ==> SecondOffset(ps[0], ps[1]) + StoreSize(ps[1]) <= size
  {
  }

  // ----- the callee -----

  // What a parameter is to the callee's code: an argument's address, or a stack slot of its own.
  datatype ParamValue = Argument(idx: int) | StackSlot(ty: Ty)

  // What the callee's code gets when it reads a parameter through that: the memory whose address the
  // argument is, or the contents of the slot.
  function ReadThrough(v: ParamValue, arguments: seq<Value>, slot: Mem): Mem {
    match v
    case Argument(idx) => if 0 <= idx < |arguments| && arguments[idx].Address? then arguments[idx].mem else []
    case StackSlot(_) => slot
  }

  predicate ParamFound(v: ParamValue, i: ParamInfo) {
    if i.disp == ParmIndirect then v == Argument(i.sigOffset) else v.StackSlot?
  }

  class Bfunction {
    const infov: seq<ParamInfo>
    var argAttrs: seq<Attr>  // the attributes of the function's arguments
    var rtnValueMem: Option<nat>
    var chainVal: nat
    var paramValues: seq<ParamValue>
    var chainRequested: bool      // a variable stands for the static chain
    var chainSlot: Option<Value>  // what is stored in it

    constructor (infos: seq<ParamInfo>, numArgs: nat)
      ensures infov == infos && argAttrs == NoAttrs(numArgs) && rtnValueMem == None && paramValues == []
      ensures !chainRequested && chainSlot == None
    {
      infov := infos;
      argAttrs := NoAttrs(numArgs);
      rtnValueMem, chainVal, paramValues := None, 0, [];
      chainRequested, chainSlot := false, None;
    }

    // Walks the arguments with a counter of its own; it comes to the places the oracle's offsets
    // say, and gives the arguments the attributes the caller gives them.
    method AbiSetup(ts: seq<Ty>, ghost res: Option<Ty>)
      requires Known(ts, res, infov) && paramValues == [] && rtnValueMem == None
      requires argAttrs == NoAttrs(|SlotsUpTo(infov, |infov|)|)
      modifies this
      ensures argAttrs == AttrsOf(SlotsUpTo(infov, |infov|))
      ensures rtnValueMem == if infov[0].disp == ParmIndirect then Some(0) else None
      ensures chainVal == infov[1].sigOffset
      ensures |paramValues| == |ts|
      ensures forall k :: 0 <= k < |ts| ==> ParamFound(paramValues[k], infov[k + 2])
    {
      hide Known, SlotsUpTo, SlotsAt, AttrsOf, Padded;
      ghost var n := |argAttrs|;
      HeadAttrs(ts, res, infov, n);
      HeadOffsets(ts, res, infov);
      var argIdx := 0;
      if infov[0].disp == ParmIndirect {
        argAttrs := argAttrs[argIdx := StructReturn];
        rtnValueMem := Some(argIdx);
        argIdx := argIdx + 1;
      }
      argAttrs := argAttrs[argIdx := Nest];
      chainVal := argIdx;
      argIdx := argIdx + 1;
      for idx := 0 to |ts|
        invariant argIdx == |SlotsUpTo(infov, idx + 2)| <= n
        invariant argAttrs == Padded(SlotsUpTo(infov, idx + 2), n - argIdx)
        invariant |paramValues| == idx
        invariant forall k :: 0 <= k < idx ==> ParamFound(paramValues[k], infov[k + 2])
        invariant rtnValueMem == if infov[0].disp == ParmIndirect then Some(0) else None
        invariant chainVal == infov[1].sigOffset
      {
        var info := infov[idx + 2];
        ParamEntry(ts, res, infov, idx);
        PaddedNext(infov, idx + 2, n - argIdx);
        PaddedSame(SlotsUpTo(infov, idx + 2), n - argIdx);
        match info.disp {
          case ParmIgnore =>
            paramValues := paramValues + [StackSlot(ts[idx])];
          case ParmIndirect =>
            paramValues := paramValues + [Argument(argIdx)];
            assert |info.types| == 1;
            argAttrs := argAttrs[argIdx := ByVal];
            argIdx := argIdx + 1;
          case ParmDirect =>
            paramValues := paramValues + [StackSlot(ts[idx])];
            if info.attr == Sext {
              argAttrs := argAttrs[argIdx := Sext];
            } else if info.attr == Zext {
              argAttrs := argAttrs[argIdx := Zext];
            } else {
              assert info.attr == NoAttr;
            }
            argIdx := argIdx + |info.types|;
        }
      }
      PaddedNone(SlotsUpTo(infov, |infov|));
    }

    // A variable is made for the static chain, once.
    method StaticChainVariable()
      requires !chainRequested
      modifies this`chainRequested
      ensures chainRequested
    {
      chainRequested := true;
    }

    // Stores the pieces of one parameter into its stack slot; gives the number of pieces.
    method GenArgSpill(info: ParamInfo, arguments: seq<Value>, sploc: array<Byte>) returns (n: nat)
      requires info.disp == ParmDirect && ArrivesAt(info, arguments) && InSlot(sploc.Length, info.types)
      modifies sploc
      ensures sploc[..] == Received(info, arguments, old(sploc[..])) && n == |info.types|
    {
      hide StoreSize, SecondOffset;
      InSlotFacts(sploc.Length, info.types);
      ghost var was := sploc[..];
      ghost var vs := arguments[info.sigOffset..info.sigOffset + |info.types|];
      assert vs[0] == arguments[info.sigOffset];
      if |info.types| == 1 {
        StoreAt(sploc, 0, arguments[info.sigOffset].bytes);
        return 1;
      }
      assert vs[1] == arguments[info.sigOffset + 1];
      StoreAt(sploc, 0, arguments[info.sigOffset].bytes);
      StoreAt(sploc, SecondOffset(info.types[0], info.types[1]), arguments[info.sigOffset + 1].bytes);
      return 2;
    }

    // Spills the static chain, if a variable was asked for it, and every parameter that arrives in
    // registers; the slots of the others are left alone.
    method GenProlog(arguments: seq<Value>, slots: seq<array<Byte>>)
      requires |infov| == |slots| + 2 && 0 <= infov[1].sigOffset < |arguments|
      requires forall j, k :: 0 <= j < k < |slots| ==> slots[j] != slots[k]
      requires forall k :: 0 <= k < |slots| ==> Spillable(infov[k + 2], arguments, slots[k].Length)
      modifies this`chainSlot, set k | 0 <= k < |slots| :: slots[k]
      ensures forall k :: 0 <= k < |slots| ==>
                slots[k][..] == if infov[k + 2].disp == ParmDirect
                                then Received(infov[k + 2], arguments, old(slots[k][..])) else old(slots[k][..])
      ensures chainSlot == if chainRequested then Some(arguments[infov[1].sigOffset]) else old(chainSlot)
    {
      hide Received, InSlot, ArrivesAt;
      if chainRequested { chainSlot := Some(arguments[infov[1].sigOffset]); }
      for pidx := 0 to |slots|
        invariant chainSlot == if chainRequested then Some(arguments[infov[1].sigOffset]) else old(chainSlot)
        invariant forall k :: pidx <= k < |slots| ==> slots[k][..] == old(slots[k][..])
        invariant forall k :: 0 <= k < pidx && infov[k + 2].disp != ParmDirect ==> slots[k][..] == old(slots[k][..])
        invariant forall k :: 0 <= k < pidx && infov[k + 2].disp == ParmDirect ==>
                    slots[k][..] == Received(infov[k + 2], arguments, old(slots[k][..]))
      {
        var info := infov[pidx + 2];
        assert Spillable(infov[pidx + 2], arguments, slots[pidx].Length);
        if info.disp != ParmDirect { continue; }
        var n := GenArgSpill(info, arguments, slots[pidx]);
      }
    }
  }

  predicate Spillable(i: ParamInfo, arguments: seq<Value>, size: nat) {
    i.disp == ParmDirect ==> ArrivesAt(i, arguments) && InSlot(size, i.types)
  }

  lemma HeadOffsets(ts: seq<Ty>, res: Option<Ty>, infos: seq<ParamInfo>)
    requires Known(ts, res, infos)
    ensures infos[1].sigOffset == (if infos[0].disp == ParmIndirect then 1 else 0)
    ensures |SlotsUpTo(infos, 2)| == infos[1].sigOffset + 1
  {
    hide Infos, Signature;
    HeadSlots(ts, res);
    HeadKind(ts, res);
    SlotsNext(infos, 0);
  }

  // A store of some bytes.
  method StoreAt(a: array<Byte>, off: nat, bytes: seq<Byte>)
    requires off + |bytes| <= a.Length
    modifies a
    ensures a[..] == Poke(old(a[..]), off, bytes)
  {
    ghost var was := a[..];
    for i := 0 to |bytes|
      invariant a[..] == was[..off] + bytes[..i] + was[off + i..]
    {
      a[off + i] := bytes[i];
      assert bytes[..i + 1] == bytes[..i] + [bytes[i]];
    }
    assert bytes[..|bytes|] == bytes;
  }

  // What the callee's stack slots hold when the arguments are those the caller pushed: the scalars
  // of the values passed. (Parameters in memory are read from the copy the call makes of them.)
  lemma SpilledArguments(ts: seq<Ty>, res: Option<Ty>, args: seq<Mem>, size: nat, k: nat)
    requires Signature(ts, res) && Args(ts, args) && k < |ts| && size == SizeOf(ts[k])
    ensures InfosFit(ts, Infos(ts, res), args)
    ensures var ps := Infos(ts, res); Spillable(ps[k + 2], ValuesUpTo(ts, ps, args, |ps|), size)
  {
    hide Infos, InfoOf, SizeOf, InSlot, ValuesUpTo, TakeApart, Passable;
    CallFits(ts, res, args);
    var ps := Infos(ts, res);
    FoundAtOffset(ts, res, args, k + 2);
    var i := ps[k + 2];
    assert FitsArg(i, args[k]);
    if i.disp == ParmDirect {
      InSlotSome(|args[k]|, i.types);
      assert ValuesAt(ps, args, k + 2) == TakeApart(args[k], i.types);
    }
  }

  // Reading through what was found for a parameter.
  lemma ReadIsReceived(ts: seq<Ty>, res: Option<Ty>, args: seq<Mem>, slot: Mem, k: nat, v: ParamValue)
    requires Signature(ts, res) && Args(ts, args) && k < |ts| && |slot| == SizeOf(ts[k])
    requires ParamFound(v, Infos(ts, res)[k + 2])
    ensures InfosFit(ts, Infos(ts, res), args)
    ensures var ps := Infos(ts, res); var all := ValuesUpTo(ts, ps, args, |ps|); var i := ps[k + 2];
      var after := if i.disp == ParmDirect then Received(i, all, slot) else slot;
      && (i.disp == ParmDirect || ReadThrough(v, all, after) == args[k])
      && (i.disp == ParmDirect && MeetAt8(ts[k]) ==> SameLeaves(ts[k], ReadThrough(v, all, after), args[k]))
  {
    hide Infos, InfoOf, SizeOf, InSlot, SameLeaves, ValuesUpTo, TakeApart, PutBack, MeetAt8, Pieces, Passable;
    CallFits(ts, res, args);
    ParameterArrives(ts, res, args, slot, k);
    var ps := Infos(ts, res);
    IgnoredIsEmpty(ts, res, k);
    if ps[k + 2].disp == ParmDirect && MeetAt8(ts[k]) { CallIsLossless(ts, res, args, slot, k); }
    if ps[k + 2].disp == ParmIgnore { assert slot == args[k] == []; }
  }

  lemma IgnoredIsEmpty(ts: seq<Ty>, res: Option<Ty>, k: nat)
    requires Signature(ts, res) && k < |ts|
    ensures Infos(ts, res)[k + 2].disp == ParmIgnore ==> SizeOf(ts[k]) == 0
  {
    hide SizeOf, Infos, Pieces;
    InfosTake(ts, res, k);
  }

  lemma ResultAddressArrives(ts: seq<Ty>, res: Option<Ty>, args: seq<Mem>)
    requires Signature(ts, res) && Args(ts, args)
    ensures InfosFit(ts, Infos(ts, res), args)
    ensures var ps := Infos(ts, res); var all := ValuesUpTo(ts, ps, args, |ps|);
      ps[0].disp == ParmIndirect ==> |all| > 0 && all[0] == ResultAddress
  {
    hide Infos, InfoOf, SizeOf, InSlot, TakeApart, Passable;
    CallFits(ts, res, args);
    var ps := Infos(ts, res);
    HeadValues(ts, res, args);
    ValuesGrow(ts, ps, args, 2, |ps|);
  }

  // Entering a function, with the arguments a caller has pushed: whatever code then reads a parameter
  // through what was found for it gets the caller's value, if it was passed in memory or is empty, and
  // the caller's scalars, if it came in pieces that meet at byte 8. The address for the result and the
  // static chain are found too.
  method EnterFunction(ts: seq<Ty>, ghost res: Option<Ty>, infos: seq<ParamInfo>, ghost args: seq<Mem>,
                       arguments: seq<Value>, slots: seq<array<Byte>>)
    returns (f: Bfunction)
    requires Known(ts, res, infos) && Args(ts, args) && InfosFit(ts, infos, args)
    requires arguments == ValuesUpTo(ts, infos, args, |infos|)
    requires |slots| == |ts| && forall k :: 0 <= k < |ts| ==> slots[k].Length == SizeOf(ts[k])
    requires forall j, k :: 0 <= j < k < |slots| ==> slots[j] != slots[k]
    modifies set k | 0 <= k < |slots| :: slots[k]
    ensures fresh(f) && |f.paramValues| == |ts|
    ensures forall k :: 0 <= k < |ts| && infos[k + 2].disp != ParmDirect ==>
              ReadThrough(f.paramValues[k], arguments, slots[k][..]) == args[k]
    ensures forall k :: 0 <= k < |ts| && infos[k + 2].disp == ParmDirect && MeetAt8(ts[k]) ==>
              SameLeaves(ts[k], ReadThrough(f.paramValues[k], arguments, slots[k][..]), args[k])
    ensures infos[0].disp == ParmIndirect ==>
              && f.rtnValueMem.Some? && f.rtnValueMem.value < |arguments|
              && arguments[f.rtnValueMem.value] == ResultAddress
    ensures f.chainVal < |arguments| && arguments[f.chainVal] == ChainValue
  {
    hide SameLeaves, MeetAt8, ValuesUpTo, Received, InSlot, ArrivesAt, SizeOf, SlotsUpTo, Infos, Passable, Args;
    f := new Bfunction(infos, |arguments|);
    ValuesMatchSlots(ts, res, args, |infos|);
    ChainArrives(ts, res, args);
    ResultAddressArrives(ts, res, args);
    f.AbiSetup(ts, res);
    forall k | 0 <= k < |slots|
      ensures Spillable(infos[k + 2], arguments, slots[k].Length)
    {
      SpilledArguments(ts, res, args, slots[k].Length, k);
    }
    f.GenProlog(arguments, slots);
    forall k | 0 <= k < |ts|
      ensures infos[k + 2].disp != ParmDirect ==> ReadThrough(f.paramValues[k], arguments, slots[k][..]) == args[k]
      ensures infos[k + 2].disp == ParmDirect && MeetAt8(ts[k]) ==>
                SameLeaves(ts[k], ReadThrough(f.paramValues[k], arguments, slots[k][..]), args[k])
    {
      ReadIsReceived(ts, res, args, old(slots[k][..]), k, f.paramValues[k]);
    }
  }

  // The static chain is found where the prolog looks for it.
  lemma ChainArrives(ts: seq<Ty>, res: Option<Ty>, args: seq<Mem>)
    requires Signature(ts, res) && Args(ts, args)
    ensures InfosFit(ts, Infos(ts, res), args)
    ensures var ps := Infos(ts, res); var all := ValuesUpTo(ts, ps, args, |ps|);
      0 <= ps[1].sigOffset < |all| && all[ps[1].sigOffset] == ChainValue
  {
    hide Infos, InfoOf, SizeOf, InSlot, ValuesUpTo, TakeApart, Passable;
    CallFits(ts, res, args);
    var ps := Infos(ts, res);
    FoundAtOffset(ts, res, args, 1);
    var all := ValuesUpTo(ts, ps, args, |ps|);
    assert all[ps[1].sigOffset..ps[1].sigOffset + 1][0] == all[ps[1].sigOffset];
  }
}
