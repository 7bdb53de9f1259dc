/** The block builder itself: it walks a statement tree, appending to basic blocks in place.
    Every method is proved against the function on states of Lowering.dfy; the assertions of the
    original are assertions here, and are shown never to fail on an accepted function body. */
module CodeGen {
  import opened Wrappers
  import opened StmtTree
  import opened Cfg
  import opened Lowering
  import opened LoweringFrame
  import opened LoweringWalk
  import opened LoweringSim
  import opened LoweringCorrect

  // What a walk of n asks: a straight-line expression can be walked from anywhere.
  ghost predicate Walkable(s: State, n: Node, p: Pos, pad: bool, fin: bool, tail: bool, D: set<Label>) {
    Simple(n) ||
    (Ready(s, D, Defs(n), p, pad, fin) && Wf(n, p, pad, fin, tail) && (tail ==> !fin && s.cached.None?))
  }

  lemma SeqStep(s: State, ns: seq<Node>, p: Pos, pad: bool, fin: bool, tail: bool, D: set<Label>)
    requires ns != [] && Ready(s, D, DefsSeq(ns), p, pad, fin) && WfSeq(ns, p, pad, fin, tail)
      && (tail ==> !fin && s.cached.None?)
    ensures Walkable(s, ns[0], p, pad, fin, tail && |ns| == 1, D)
    ensures |ns| > 1 ==>
              && Ready(Lower(s, ns[0]), D + Defs(ns[0]), DefsSeq(ns[1..]), End(ns[0], p, pad), pad, fin)
              && WfSeq(ns[1..], End(ns[0], p, pad), pad, fin, tail)
              && (tail ==> Lower(s, ns[0]).cached.None?)
  {
    hide Inv, Mod, Touch, Wf, Lower, Defs, End, Ended;
    FrameNode(s, ns[0], p, pad, fin, tail && |ns| == 1, D);
  }

  // The parts of an if statement can be walked where the walk comes to them.
  lemma IfWalkable(s: State, n: Node, p: Pos, pad: bool, fin: bool, D: set<Label>)
    requires n.If? && Ready(s, D, Defs(n), p, pad, fin) && Wf(n, p, pad, fin, false)
    ensures var s1 := Lower(s, n.cond); var v := Val(n.cond);
      && n.cond.Expr? && Walkable(s, n.cond, p, pad, fin, false, D) && s1.cur.Some?
      && Walkable(IfThen(s1, v), n.thn, Start, pad, fin, false, D + Defs(n.cond))
      && Walkable(IfElse(s1, v, n.thn), n.els, Start, pad, fin, false, D + Defs(n.cond) + Defs(n.thn))
      && Lower(s, n) == IfTail(s1, v, n.thn, n.els)
  {
    hide Inv, Mod, Touch, Lower, Wf, Defs, Ended, OpenCur, IfThen, IfElse, IfTail, Ready, End, Lowered;
    IfUnfolds(n.cond, n.thn, n.els, p, pad, fin);
    SubReady(s, D, Defs(n), Defs(n.cond), p, pad, fin);
    FrameIf(s, n, p, pad, fin, D);
    NodeFacts(s, n.cond, p, pad, fin, D);
    IfTailIs(s, n.cond, n.thn, n.els);
  }

  lemma ExcepWalkable(s: State, n: Node, p: Pos, D: set<Label>)
    requires n.Excep? && Ready(s, D, Defs(n), p, false, false) && Wf(n, p, false, false, true) && s.cached.None?
    ensures s.pads == [] && s.fin == None && |s.blocks| < |TryPart(s, n.body).blocks|
    ensures var b := |s.blocks|; var s3 := TryPart(s, n.body); var D1 := D + Defs(n.body);
      && Walkable(TryStart(s), n.body, p, true, true, false, D)
      && Walkable(CatchStart(s3, b), n.onexc, Start, true, true, false, D1)
      && Walkable(Goes(CatchPart(s3, b, n.onexc), b + 1), n.fin, Moved, false, false, false, D1 + Defs(n.onexc))
      && Lower(s, n) == FinPart(CatchPart(s3, b, n.onexc), b, n.fin)
      && (FirstReturn(n).Some? ==> ReturnExpr(FirstReturn(n).value))
      && Lower(Goes(CatchPart(s3, b, n.onexc), b + 1), n.fin).cached == FirstReturn(n)
      && Lower(Goes(CatchPart(s3, b, n.onexc), b + 1), n.fin).pads == []
      && Lower(TryStart(s), n.body).pads == TryStart(s).pads
      && Lower(CatchStart(s3, b), n.onexc).pads == CatchStart(s3, b).pads
  {
    hide Inv, Mod, Touch, Lower, Wf, Defs, Ended, OpenCur, TryStart, TryPart, CatchStart, CatchEnd, CatchPart, FinPart,
      Ready, FirstReturn, ReturnExpr, UniformReturns, SafeSwitches, Goes, Lowered, End;
    ReadyIs(s, D, Defs(n), p, false, false);
    FrameExcep(s, n, p, D);
    ExcepUnfolds(n, p);
    ExcepIs(s, n);
    FirstReturnWf(n, p, false, false, true);
    var s9 := Goes(CatchPart(TryPart(s, n.body), |s.blocks|, n.onexc), |s.blocks| + 1);
    var D2 := D + Defs(n.body) + Defs(n.onexc);
    FinallyFields(s9, n.fin, D2);
    WalkPads(TryStart(s), n.body, p, true, true, D);
    WalkPads(CatchStart(TryPart(s, n.body), |s.blocks|), n.onexc, Start, true, true, D + Defs(n.body));
  }

  lemma WalkPads(s: State, n: Node, p: Pos, pad: bool, fin: bool, D: set<Label>)
    requires Ready(s, D, Defs(n), p, pad, fin) && Wf(n, p, pad, fin, false)
    ensures Lower(s, n).pads == s.pads
  {
    hide Inv, Mod, Touch, Wf, Lower, Defs;
    FrameNode(s, n, p, pad, fin, false, D);
  }

  lemma FinallyFields(s: State, n: Node, D: set<Label>)
    requires Ready(s, D, Defs(n), Moved, false, false) && Wf(n, Moved, false, false, false)
    ensures Lower(s, n).cached == s.cached && Lower(s, n).pads == s.pads == []
  {
    hide Inv, Mod, Touch, Wf, Lower, Defs;
    FrameNode(s, n, Moved, false, false, false, D);
  }

  lemma BrIfLiveFields(s: State, to: BlockId, pads: seq<BlockId>)
    ensures BrIfLive(s, to).(pads := pads) == BrIfLive(s.(pads := pads), to)
  {
  }

  lemma CatchStartIs(s3: State, b: BlockId)
    ensures CatchStart(s3, b).pads == s3.pads + [|s3.blocks| + 1]
    ensures CatchStart(Dies(s3), b) == CatchStart(s3, b)
  {
  }

  // Straight-line code leaves the stack of landing pads alone.
  lemma {:induction false} InstsPads(s: State, insts: seq<Inst>)
    ensures LowerInsts(s, insts).pads == s.pads
    decreases insts
  {
    if insts != [] { InstsPads(LowerInst(s, insts[0]), insts[1..]); }
  }

  lemma DeferWalkable(s: State, n: Node, p: Pos, pad: bool, fin: bool, D: set<Label>)
    requires n.Defer? && Ready(s, D, Defs(n), p, pad, fin) && Wf(n, p, pad, fin, false)
    ensures Simple(n.undefer) && Simple(n.checkdefer) && DeferReady(s, n.undefer, n.checkdefer)
    ensures var s1 := DeferStart(s);
      Lower(s1.(pads := s.pads + [|s.blocks| + 1]), n.undefer).pads == s.pads + [|s.blocks| + 1]
    ensures Lower(DeferCatch(s, n.undefer), n.checkdefer).pads == s.pads
    ensures Lower(s, n) == DeferTail(s, n.undefer, n.checkdefer)
  {
    hide Inv, Mod, Touch, Lower, LowerInsts, DeferStart, DeferCatch, Ready, Lowered;
    FrameDefer(s, n, p, pad, fin, D);
    DeferIs(s, n.undefer, n.checkdefer);
    var s1 := DeferStart(s).(pads := s.pads + [|s.blocks| + 1]);
    LowerSimple(s1, n.undefer);
    InstsPads(s1, Flat(n.undefer));
    LowerSimple(DeferCatch(s, n.undefer), n.checkdefer);
    InstsPads(DeferCatch(s, n.undefer), Flat(n.checkdefer));
  }

  // The bodies of a switch still to be lowered can be.
  ghost predicate BodiesGood(s0: State, s: State, ns: seq<Node>, b: BlockId, epilog: BlockId, pad: bool, fin: bool,
                             k: Book) {
    && Prog(s0, s, k) && Range(b, |ns|) <= k.R && epilog < |s.blocks|
    && k.D !! DefsSeq(ns) && LabelBlocks(s0, DefsSeq(ns)) <= k.T
    && (pad <==> s.pads != []) && (fin <==> s.fin.Some?) && WfBodies(ns, pad, fin)
  }

  lemma BodyStep(s0: State, s: State, ns: seq<Node>, b: BlockId, epilog: BlockId, pad: bool, fin: bool, k: Book)
    returns (k1: Book)
    requires ns != [] && BodiesGood(s0, s, ns, b, epilog, pad, fin, k)
    ensures Walkable(Goes(s, b), ns[0], Start, pad, fin, false, k.D)
    ensures BodiesGood(s0, CaseTail(s, ns[0], b, epilog), ns[1..], b + 1, epilog, pad, fin, k1)
    ensures LowerBodies(s, ns, b, epilog) == LowerBodies(CaseTail(s, ns[0], b, epilog), ns[1..], b + 1, epilog)
  {
    hide Inv, Mod, Touch, Prog, LabelBlocks, Lower, Wf, Defs, End, CaseTail, Ready, LowerBodies, Gotos, FirstReturn;
    LabelBlocksPart(s0, Defs(ns[0]), DefsSeq(ns));
    LabelBlocksPart(s0, DefsSeq(ns[1..]), DefsSeq(ns));
    assert b in Range(b, |ns|);
    FrameBody(s0, s, ns[0], b, epilog, pad, fin, k);
    k1 := Book(k.T, k.D + Defs(ns[0]), k.R - {b}, k.E + {b}, k.P);
    BodiesIs(s, ns, b, epilog);
  }

  lemma BodiesBegin(s: State, n: Node, p: Pos, pad: bool, fin: bool, D: set<Label>) returns (k: Book)
    requires n.Switch? && Ready(s, D, Defs(n), p, pad, fin) && Wf(n, p, pad, fin, false)
    ensures var s1 := Lower(s, n.sel); var m := |n.bodies|;
      && n.sel.Expr? && Walkable(s, n.sel, p, pad, fin, false, D) && s1.cur.Some? && |n.vals| == m
      && (forall i, j :: 0 <= i < j < m ==> n.vals[i] != [] || n.vals[j] != [])
      && BodiesGood(s, BodiesStart(s1, m), n.bodies, |s1.blocks|, |s1.blocks| + m, pad, fin, k)
  {
    hide Inv, Mod, Touch, Prog, Lower, Wf, Defs, DefsSeq, End, BodiesStart, Ready, WfBodies, LabelBlocks;
    SwitchUnfolds(n, p, pad, fin);
    OneDefault(n, p, pad, fin);
    SubReady(s, D, Defs(n), Defs(n.sel), p, pad, fin);
    ReadyIs(s, D, Defs(n), p, pad, fin);
    var k0 := SwitchBook(s, n, p, pad, fin, D);
    var s1 := Lower(s, n.sel);
    k := BodiesBook(s1, |n.bodies|, k0);
    LabelBlocksPart(s, DefsSeq(n.bodies), Defs(n));
    BodiesStartBlocks(s1, |n.bodies|);
  }

  lemma OneDefault(n: Node, p: Pos, pad: bool, fin: bool)
    requires n.Switch? && Wf(n, p, pad, fin, false)
    ensures forall i, j :: 0 <= i < j < |n.vals| ==> n.vals[i] != [] || n.vals[j] != []
  {
  }

  class GenBlocks {
    var blocks: seq<Code>
    var labelmap: map<Label, BlockId>
    var padBlockStack: seq<BlockId>
    var finallyBlock: Option<BlockId>
    var cachedReturn: Option<Node>

    // The whole state, with c the current block.
    ghost function View(c: Option<BlockId>): State
      reads this
    {
      State(blocks, labelmap, padBlockStack, finallyBlock, cachedReturn, c)
    }

    // A function under construction has its entry block.
    constructor ()
      ensures View(Some(0)) == Begin()
    {
      blocks := [[]];
      labelmap := map[];
      padBlockStack := [];
      finallyBlock := None;
      cachedReturn := None;
    }

    method MkBlock() returns (b: BlockId)
      modifies `blocks
      ensures b == |old(blocks)|
      ensures forall c :: View(c) == Fresh(old(View(c)), 1)
    {
      b := |blocks|;
      blocks := blocks + [[]];
      assert [[]] == Empties(1);
    }

    // Instructions are appended to a block at its end.
    method Insert(b: BlockId, i: Instr)
      modifies `blocks
      ensures forall c :: View(c) == Append(old(View(c)), b, i)
    {
      if b < |blocks| {
        blocks := blocks[b := blocks[b] + [i]];
      }
    }

    method HasTerminator(b: BlockId) returns (t: bool)
      ensures t <==> Ended(View(None), b)
    {
      t := b < |blocks| && Terminated(blocks[b]);
    }

    method GetBlockForLabel(lab: Label) returns (b: BlockId)
      modifies `blocks, `labelmap
      ensures forall c :: View(c) == LabelBlock(old(View(c)), lab)
      ensures lab in labelmap && b == labelmap[lab]
    {
      if lab in labelmap {
        b := labelmap[lab];
      } else {
        b := MkBlock();
        labelmap := labelmap[lab := b];
      }
    }

    // A call inside a protected region becomes one with an exception edge to the innermost landing
    // pad, and goes on in a block of its own.
    method PostProcessInst(inst: Inst, curblock: BlockId) returns (i: Instr, next: BlockId)
      modifies `blocks
      ensures forall c :: View(c) == if inst.Call? && !inst.intrinsic && padBlockStack != []
        then Fresh(old(View(c)), 1) else old(View(c))
      ensures if inst.Call? && !inst.intrinsic && padBlockStack != []
              then i == Invoke(inst, |old(blocks)|, padBlockStack[|padBlockStack| - 1]) && next == |old(blocks)|
              else i == Plain(inst) && next == curblock
    {
      if MayThrow(inst) && padBlockStack != [] {
        var padbb := padBlockStack[|padBlockStack| - 1];
        next := MkBlock();
        i := Invoke(inst, next, padbb);
      } else {
        i, next := Plain(inst), curblock;
      }
    }

    // Appends a branch to the current block unless that block has been closed.
    method BranchUnlessEnded(curblock: Option<BlockId>, to: BlockId)
      modifies `blocks
      ensures View(curblock) == Close(old(View(curblock)), to)
    {
      if curblock.Some? {
        var t := HasTerminator(curblock.value);
        if !t { Insert(curblock.value, Br(to)); }
      }
    }

    method WalkExpr(expr: Node, curblock: Option<BlockId>, ghost p: Pos, ghost pad: bool, ghost fin: bool,
                    ghost D: set<Label>)
      returns (cur: Option<BlockId>)
      requires expr.Expr? && Walkable(View(curblock), expr, p, pad, fin, false, D)
      modifies this
      ensures View(cur) == Lower(old(View(curblock)), expr)
      decreases 0, expr, 1
    {
      cur := WalkSeq(expr.kids, curblock, p, pad, fin, false, D, Simple(expr));
      var k := 0;
      while k < |expr.insts|
        invariant 0 <= k <= |expr.insts|
        invariant LowerInsts(View(cur), expr.insts[k..]) == Lower(old(View(curblock)), expr)
      {
        var inst := expr.insts[k];
        assert expr.insts[k..][1..] == expr.insts[k + 1..];
        if cur.Some? {
          var i, next := PostProcessInst(inst, cur.value);
          Insert(cur.value, i);
          cur := Some(next);
        }
        k := k + 1;
      }
    }

    // The children of a node, left to right.
    method WalkSeq(nodes: seq<Node>, curblock: Option<BlockId>, ghost p: Pos, ghost pad: bool, ghost fin: bool,
                   ghost tail: bool,
                   ghost D: set<Label>, ghost simple: bool)
      returns (cur: Option<BlockId>)
      requires if simple then SimpleSeq(nodes) else
        Ready(View(curblock), D, DefsSeq(nodes), p, pad, fin) && WfSeq(nodes, p, pad, fin, tail)
          && (tail ==> !fin && View(curblock).cached.None?)
      modifies this
      ensures View(cur) == LowerSeq(old(View(curblock)), nodes)
      decreases if tail then 1 else 0, nodes, 0
    {
      cur := curblock;
      ghost var q, E := p, D;
      var k := 0;
      while k < |nodes|
        invariant 0 <= k <= |nodes|
        invariant LowerSeq(View(cur), nodes[k..]) == LowerSeq(old(View(curblock)), nodes)
        invariant k < |nodes| ==> if simple then SimpleSeq(nodes[k..]) else
          Ready(View(cur), E, DefsSeq(nodes[k..]), q, pad, fin) && WfSeq(nodes[k..], q, pad, fin, tail)
            && (tail ==> !fin && View(cur).cached.None?)
      {
        ghost var rest := nodes[k..];
        assert rest[1..] == nodes[k + 1..] && rest[0] == nodes[k];
        if !simple { SeqStep(View(cur), rest, q, pad, fin, tail, E); }
        cur := Walk(nodes[k], cur, q, pad, fin, tail && |rest| == 1, E);
        q, E := End(nodes[k], q, pad), E + Defs(nodes[k]);
        k := k + 1;
      }
    }

    method GenIf(ifst: Node, curblock: Option<BlockId>, ghost p: Pos, ghost pad: bool, ghost fin: bool,
                 ghost D: set<Label>)
      returns (cur: Option<BlockId>)
      requires ifst.If? && Ready(View(curblock), D, Defs(ifst), p, pad, fin) && Wf(ifst, p, pad, fin, false)
      modifies this
      ensures View(cur) == Lower(old(View(curblock)), ifst)
      decreases 0, ifst, 0
    {
      hide Inv, Mod, Touch, Prog, Lower, Wf, Defs, End, Ready, Gotos, FirstReturn, Lowered, Walkable, OpenCur;
      ghost var s := View(curblock);
      IfWalkable(s, ifst, p, pad, fin, D);
      ghost var s1 := Lower(s, ifst.cond);
      cur := WalkExpr(ifst.cond, curblock, p, pad, fin, D);
      assert cur.Some?;
      var tblock := MkBlock();
      var ft := MkBlock();
      var fblock := MkBlock();
      assert View(cur) == Fresh(s1, 3);
      Insert(cur.value, CondBr(Val(ifst.cond), tblock, fblock));
      assert View(Some(tblock)) == IfThen(s1, Val(ifst.cond));
      var tsucc := Walk(ifst.thn, Some(tblock), Start, pad, fin, false, D + Defs(ifst.cond));
      BranchUnlessEnded(tsucc, ft);
      assert View(Some(fblock)) == IfElse(s1, Val(ifst.cond), ifst.thn);
      var fsucc := Walk(ifst.els, Some(fblock), Start, pad, fin, false, D + Defs(ifst.cond) + Defs(ifst.thn));
      BranchUnlessEnded(fsucc, ft);
      cur := Some(ft);
    }

    method GenReturn(rst: Node, curblock: Option<BlockId>, ghost p: Pos, ghost pad: bool, ghost fin: bool,
                     ghost D: set<Label>)
      returns (cur: Option<BlockId>)
      requires rst.Return? && Ready(View(curblock), D, Defs(rst), p, pad, fin) && Wf(rst, p, pad, fin, false)
      modifies this
      ensures View(cur) == Lower(old(View(curblock)), rst)
      decreases 0, rst, 0
    {
      if finallyBlock.Some? {
        if cachedReturn.None? { cachedReturn := Some(rst.e); }
        assert curblock.Some?;
        Insert(curblock.value, Br(finallyBlock.value));
      } else {
        ghost var s := View(curblock);
        LowerSimple(s, rst.e);
        WalkReturnExpr(s, rst.e, D);
        var bb := WalkExpr(rst.e, curblock, p, pad, fin, D);
        assert curblock == bb;
      }
      cur := None;
    }

    method GenDefer(defst: Node, curblock: Option<BlockId>, ghost p: Pos, ghost pad: bool, ghost fin: bool,
                    ghost D: set<Label>)
      returns (cur: Option<BlockId>)
      requires defst.Defer? && Ready(View(curblock), D, Defs(defst), p, pad, fin) && Wf(defst, p, pad, fin, false)
      modifies this
      ensures View(cur) == Lower(old(View(curblock)), defst)
      decreases 0, defst, 0
    {
      hide Inv, Mod, Touch, Prog, LabelBlocks, Lower, Wf, WfBodies, Defs, DefsSeq, End, Ready, Ended, OpenCur, Lowered,
        Gotos, FirstReturn, FirstReturnSeq;
      ghost var s := View(curblock);
      DeferWalkable(s, defst, p, pad, fin, D);
      var finbb := MkBlock();
      var padbb := MkBlock();
      var catchbb := MkBlock();
      assert View(curblock) == Fresh(s, 3);
      if curblock.Some? { Insert(curblock.value, Br(finbb)); }
      assert View(Some(finbb)) == DeferStart(s);
      padBlockStack := padBlockStack + [padbb];
      var contbb := WalkExpr(defst.undefer, Some(finbb), Start, true, fin, D);
      padBlockStack := padBlockStack[..|padBlockStack| - 1];
      assert View(contbb) == DeferTry(s, defst.undefer);
      Insert(padbb, LandingPad);
      Insert(padbb, Br(catchbb));
      assert View(Some(catchbb)) == DeferCatch(s, defst.undefer);
      var bb := WalkExpr(defst.checkdefer, Some(catchbb), Start, pad, fin, D);
      assert bb == Some(catchbb);
      Insert(catchbb, Br(finbb));
      cur := contbb;
    }

    method GenSwitch(swst: Node, curblock: Option<BlockId>, ghost p: Pos, ghost pad: bool, ghost fin: bool,
                     ghost D: set<Label>)
      returns (cur: Option<BlockId>)
      requires swst.Switch? && Ready(View(curblock), D, Defs(swst), p, pad, fin) && Wf(swst, p, pad, fin, false)
      modifies this
      ensures View(cur) == Lower(old(View(curblock)), swst)
      decreases 0, swst, 0
    {
      hide Inv, Mod, Touch, Prog, LabelBlocks, Lower, Wf, WfBodies, Defs, DefsSeq, End, Ready, Ended, OpenCur, Lowered,
        Gotos, FirstReturn, FirstReturnSeq, LowerBodies, Arms, BodiesGood, Walkable, DefaultCase;
      ghost var s := View(curblock);
      ghost var k := BodiesBegin(s, swst, p, pad, fin, D);
      SwitchEnd(s, swst);
      cur := WalkExpr(swst.sel, curblock, p, pad, fin, D);
      assert cur.Some?;
      ghost var s1 := View(cur);
      ghost var base := |blocks|;
      var caseBlocks, defBB := MkCaseBlocks(swst.vals);
      var epilogBB := MkBlock();
      if defBB.None? { defBB := Some(epilogBB); }
      assert View(cur) == Fresh(s1, |swst.vals| + 1);
      assert View(None) == BodiesStart(s1, |swst.vals|);
      GenBodies(s, swst, caseBlocks, epilogBB, base, pad, fin, k);
      var arms := CaseArms(swst.vals, caseBlocks, base);
      Insert(cur.value, SwitchBr(Val(swst.sel), defBB.value, arms));
      cur := Some(epilogBB);
    }

    // A block for each case; which of them is the default case's, if any.
    method MkCaseBlocks(vals: seq<seq<int>>) returns (caseBlocks: seq<BlockId>, defBB: Option<BlockId>)
      requires forall i, j :: 0 <= i < j < |vals| ==> vals[i] != [] || vals[j] != []
      modifies `blocks
      ensures forall c :: View(c) == Fresh(old(View(c)), |vals|)
      ensures |caseBlocks| == |vals| && forall i :: 0 <= i < |vals| ==> caseBlocks[i] == |old(blocks)| + i
      ensures defBB == if DefaultCase(vals) < |vals| then Some(|old(blocks)| + DefaultCase(vals)) else None
    {
      caseBlocks, defBB := [], None;
      for idx := 0 to |vals|
        invariant blocks == old(blocks) + Empties(idx)
        invariant |caseBlocks| == idx && forall i :: 0 <= i < idx ==> caseBlocks[i] == |old(blocks)| + i
        invariant defBB == if DefaultCase(vals) < idx then Some(|old(blocks)| + DefaultCase(vals)) else None
      {
        var b := MkBlock();
        caseBlocks := caseBlocks + [b];
        if vals[idx] == [] {
          assert defBB.None?;
          defBB := Some(b);
        }
        assert View(None).blocks == old(blocks) + Empties(idx + 1);
      }
    }

    // The arms of the switch instruction: every value of case k leads to the block of case k.
    method CaseArms(vals: seq<seq<int>>, caseBlocks: seq<BlockId>, ghost base: BlockId)
      returns (arms: seq<(int, BlockId)>)
      requires |caseBlocks| == |vals| && forall i :: 0 <= i < |vals| ==> caseBlocks[i] == base + i
      ensures arms == Arms(vals, base)
    {
      hide Arms;
      arms := [];
      assert vals[0..] == vals;
      for idx := 0 to |vals|
        invariant arms + Arms(vals[idx..], base + idx) == Arms(vals, base)
      {
        ArmsFrom(vals, idx, base);
        ghost var done := arms;
        for j := 0 to |vals[idx]|
          invariant arms == done + ArmsOf(vals[idx][..j], base + idx)
        {
          arms := arms + [(vals[idx][j], caseBlocks[idx])];
        }
        assert vals[idx][..|vals[idx]|] == vals[idx];
      }
      assert vals[|vals|..] == [];
      NoArms(base + |vals|);
    }

    // The bodies of a switch; where the walk of a body ends is not looked at.
    method GenBodies(ghost s: State, swst: Node, caseBlocks: seq<BlockId>, epilogBB: BlockId, ghost base: BlockId,
                     ghost pad: bool, ghost fin: bool, ghost k: Book)
      requires swst.Switch? && BodiesGood(s, View(None), swst.bodies, base, epilogBB, pad, fin, k)
      requires |caseBlocks| == |swst.bodies| && forall i :: 0 <= i < |caseBlocks| ==> caseBlocks[i] == base + i
      modifies this
      ensures View(None) == Dies(LowerBodies(old(View(None)), swst.bodies, base, epilogBB))
      decreases 0, swst.bodies, -1
    {
      hide Inv, Mod, Touch, Prog, LabelBlocks, Lower, Wf, WfBodies, Defs, DefsSeq, End, Ready, OpenCur, Lowered, Gotos,
        FirstReturn, FirstReturnSeq, LowerBodies, BodiesGood;
      var at: Option<BlockId> := None;
      ghost var K := k;
      for idx := 0 to |swst.bodies|
        invariant BodiesGood(s, View(at), swst.bodies[idx..], base + idx, epilogBB, pad, fin, K)
        invariant LowerBodies(View(at), swst.bodies[idx..], base + idx, epilogBB)
          == LowerBodies(old(View(None)), swst.bodies, base, epilogBB)
      {
        var b := caseBlocks[idx];
        ghost var v := View(at);
        assert swst.bodies[idx..][1..] == swst.bodies[idx + 1..];
        ghost var K1 := BodyStep(s, v, swst.bodies[idx..], b, epilogBB, pad, fin, K);
        at := Walk(swst.bodies[idx], Some(b), Start, pad, fin, false, K.D);
        var t := HasTerminator(b);
        if !t { Insert(b, Br(epilogBB)); }
        assert View(at) == CaseTail(v, swst.bodies[idx], b, epilogBB);
        K := K1;
      }
      assert swst.bodies[|swst.bodies|..] == [];
      NoBodies(View(at), base + |swst.bodies|, epilogBB);
    }

    method BranchIfLive(curblock: Option<BlockId>, to: BlockId)
      modifies `blocks
      ensures View(curblock) == BrIfLive(old(View(curblock)), to)
    {
      if curblock.Some? { Insert(curblock.value, Br(to)); }
    }

    // A landing pad in block padbb that leads to another block.
    method FillPad(padbb: BlockId, to: BlockId)
      modifies `blocks
      ensures View(Some(padbb)) == Put(Put(Goes(old(View(None)), padbb), LandingPad), Br(to))
    {
      Insert(padbb, LandingPad);
      Insert(padbb, Br(to));
    }

    // The landing pad of the body leads to the catch code, which gets a landing pad of its own.
    method OpenCatch(padbb: BlockId) returns (catchbb: BlockId, catchpadbb: BlockId)
      requires padbb < |blocks|
      modifies `blocks, `padBlockStack
      ensures catchbb == |old(blocks)| && catchpadbb == catchbb + 1
      ensures View(Some(catchbb)) == CatchStart(old(View(None)), padbb)
    {
      ghost var s3 := View(None);
      Insert(padbb, LandingPad);
      catchbb := MkBlock();
      assert View(Some(padbb)) == Put(Goes(Fresh(s3, 1), padbb), LandingPad);
      Insert(padbb, Br(catchbb));
      catchpadbb := MkBlock();
      padBlockStack := padBlockStack + [catchpadbb];
    }

    // The body of a try statement: its exceptions and its returns are caught.
    method GenTry(body: Node, curblock: Option<BlockId>, ghost p: Pos, ghost D: set<Label>)
      returns (cur: Option<BlockId>, padbb: BlockId, contbb: BlockId)
      requires padBlockStack == [] && finallyBlock == None
      requires Walkable(TryStart(View(curblock)), body, p, true, true, false, D)
      requires Lower(TryStart(View(curblock)), body).pads == TryStart(View(curblock)).pads
      modifies this
      ensures padbb == |old(blocks)| && contbb == padbb + 1
      ensures View(cur) == TryPart(old(View(curblock)), body)
      decreases 0, body, 3
    {
      hide Walkable, Lower, BrIfLive;
      ghost var s := View(curblock);
      padbb := MkBlock();
      contbb := MkBlock();
      finallyBlock := Some(contbb);
      padBlockStack := padBlockStack + [padbb];
      assert View(curblock) == TryStart(s);
      cur := Walk(body, curblock, p, true, true, false, D);
      padBlockStack := padBlockStack[..|padBlockStack| - 1];
      BranchIfLive(cur, contbb);
      BrIfLiveFields(Lower(TryStart(s), body), contbb, s.pads);
    }

    method GenExcep(excepst: Node, curblock: Option<BlockId>, ghost p: Pos, ghost D: set<Label>)
      returns (cur: Option<BlockId>)
      requires excepst.Excep? && Ready(View(curblock), D, Defs(excepst), p, false, false)
        && Wf(excepst, p, false, false, true)
      requires View(curblock).cached.None?
      modifies this
      ensures View(cur) == Lower(old(View(curblock)), excepst)
      decreases 1, excepst, 0
    {
      hide Walkable, Inv, Mod, Touch, Prog, LabelBlocks, Lower, LowerInsts, Wf, Defs, End, Ready, Ended, OpenCur,
        Lowered, Gotos, FirstReturn, Put, Append, CatchStart, BrIfLive, Flat;
      ghost var s := View(curblock);
      ExcepWalkable(s, excepst, p, D);
      ghost var D1 := D + Defs(excepst.body);
      ghost var b := |blocks|;
      var padbb, contbb;
      cur, padbb, contbb := GenTry(excepst.body, curblock, p, D);
      ghost var s3 := View(cur);
      var catchbb, catchpadbb := OpenCatch(padbb);
      CatchStartIs(s3, b);
      assert View(Some(catchbb)) == CatchStart(s3, b);
      var bb := Walk(excepst.onexc, Some(catchbb), Start, true, true, false, D1);
      BranchIfLive(bb, contbb);
      padBlockStack := padBlockStack[..|padBlockStack| - 1];
      finallyBlock := None;
      assert View(bb) == CatchEnd(s3, b, excepst.onexc);
      FillPad(catchpadbb, contbb);
      assert View(Some(contbb)) == Goes(View(Some(catchpadbb)), contbb);
      assert View(Some(contbb)) == Goes(CatchPart(s3, b, excepst.onexc), b + 1);
      cur := Walk(excepst.fin, Some(contbb), Moved, false, false, false, D1 + Defs(excepst.onexc));
      cur := FlushReturn(cur, D);
    }

    // The return delayed by the try statement, if any.
    method FlushReturn(curblock: Option<BlockId>, ghost D: set<Label>) returns (cur: Option<BlockId>)
      requires padBlockStack == [] && (cachedReturn.Some? ==> Simple(cachedReturn.value))
      modifies this
      ensures View(cur) == LowerCached(old(View(curblock)))
      decreases 0, cachedReturn, 0
    {
      hide Inv, Lower, LowerInsts, Flat;
      cur := curblock;
      if cachedReturn.Some? {
        ghost var s9 := View(cur);
        var re := cachedReturn.value;
        LowerSimple(s9, re);
        var bb := WalkExpr(re, cur, Moved, false, false, D);
        PadsEmptyStays(s9, Flat(re));
        assert cur == bb;
        cachedReturn := None;
      }
    }

    // Walks a node from the current block, or from none in dead code; gives the block to go on in.
    method Walk(node: Node, curblock: Option<BlockId>, ghost p: Pos, ghost pad: bool, ghost fin: bool, ghost tail: bool,
                ghost D: set<Label>)
      returns (cur: Option<BlockId>)
      requires Walkable(View(curblock), node, p, pad, fin, tail, D)
      modifies this
      ensures View(cur) == Lower(old(View(curblock)), node)
      decreases if tail then 1 else 0, node, 2
    {
      match node
      case Expr(_, _, _) => cur := WalkExpr(node, curblock, p, pad, fin, D);
      case ExprStmt(e) => cur := WalkExpr(e, curblock, p, pad, fin, D);
      case Block(stmts) => cur := WalkSeq(stmts, curblock, p, pad, fin, tail, D, false);
      case If(_, _, _) => cur := GenIf(node, curblock, p, pad, fin, D);
      case Switch(_, _, _) => cur := GenSwitch(node, curblock, p, pad, fin, D);
      case Return(e) => cur := GenReturn(node, curblock, p, pad, fin, D);
      case Goto(l) =>
        var lbb := GetBlockForLabel(l);
        BranchUnlessEnded(curblock, lbb);
        cur := None;
      case LabelDef(l) =>
        var lbb := GetBlockForLabel(l);
        if curblock.Some? { Insert(curblock.value, Br(lbb)); }
        cur := Some(lbb);
      case Defer(_, _) => cur := GenDefer(node, curblock, p, pad, fin, D);
      case Excep(_, _, _) => cur := GenExcep(node, curblock, p, D);
    }
  }

  lemma ArmsFrom(vals: seq<seq<int>>, i: nat, b: BlockId)
    requires i < |vals|
    ensures Arms(vals[i..], b + i) == ArmsOf(vals[i], b + i) + Arms(vals[i + 1..], b + i + 1)
  {
    assert vals[i..][1..] == vals[i + 1..];
  }

  lemma NoArms(b: BlockId)
    ensures Arms([], b) == []
  {
  }

  // Outside every protected region straight-line code stays in its block.
  lemma {:induction false} PadsEmptyStays(s: State, insts: seq<Inst>)
    requires s.pads == []
    ensures LowerInsts(s, insts).cur == s.cur
    decreases insts
  {
    if insts != [] { PadsEmptyStays(LowerInst(s, insts[0]), insts[1..]); }
  }

  // The body of a function: walked from the entry block, then the last block is fixed up.
  method FunctionSetBody(code: Node) returns (g: seq<Code>)
    requires Body(code)
    ensures g == Compile(code).blocks
  {
    var gb := new GenBlocks();
    BeginReady(code);
    var block := gb.Walk(code, Some(0), Start, false, false, true, {});
    if block.Some? {
      var t := gb.HasTerminator(block.value);
      if !t { gb.Insert(block.value, RetZero); }
    }
    g := gb.blocks;
  }
}
