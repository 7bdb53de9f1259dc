/** Landing pads: an exception edge leads to a block that begins with one, and nothing else does. */
module LoweringPads {
  import opened Wrappers
  import opened StmtTree
  import opened Cfg
  import opened Lowering
  import opened LoweringWalk
  import opened LoweringCorrect

  // U holds the blocks that are to be landing pads and have no code yet.
  ghost predicate IsPad(s: State, U: set<BlockId>, x: BlockId) {
    x in U || (x < |s.blocks| && s.blocks[x] != [] && s.blocks[x][0].LandingPad?)
  }

  ghost predicate Ordinary(s: State, U: set<BlockId>, x: BlockId) {
    x < |s.blocks| && !IsPad(s, U, x)
  }

  ghost predicate InstrOk(s: State, U: set<BlockId>, i: Instr) {
    match i
    case Invoke(_, cont, pad) => Ordinary(s, U, cont) && IsPad(s, U, pad) && pad < |s.blocks|
    case Br(to) => Ordinary(s, U, to)
    case CondBr(_, yes, no) => Ordinary(s, U, yes) && Ordinary(s, U, no)
    case SwitchBr(_, other, arms) => Ordinary(s, U, other) && forall k | 0 <= k < |arms| :: Ordinary(s, U, arms[k].1)
    case _ => true
  }

  ghost predicate CodeOk(s: State, U: set<BlockId>, c: Code) {
    forall i | 0 <= i < |c| :: InstrOk(s, U, c[i]) && (c[i].LandingPad? ==> i == 0)
  }

  // What every step of the walk keeps, but for the current block.
  ghost predicate PadsOk(s: State, U: set<BlockId>) {
    && (forall x | x in U :: x < |s.blocks| && s.blocks[x] == [])
    && (s.fin.Some? ==> Ordinary(s, U, s.fin.value))
    && (forall l | l in s.labels :: Ordinary(s, U, s.labels[l]))
    && (forall i | 0 <= i < |s.pads| :: s.pads[i] in U)
    && (forall x | 0 <= x < |s.blocks| :: CodeOk(s, U, s.blocks[x]))
  }

  ghost predicate CurOk(s: State, U: set<BlockId>) {
    s.cur.Some? ==> Ordinary(s, U, s.cur.value)
  }

  // The blocks of s are landing pads in t just when they were to be.
  ghost predicate Kept(s: State, U: set<BlockId>, t: State, V: set<BlockId>) {
    |s.blocks| <= |t.blocks| && forall x | 0 <= x < |s.blocks| :: IsPad(t, V, x) <==> IsPad(s, U, x)
  }

  ghost predicate PadStep(s: State, U: set<BlockId>, t: State, V: set<BlockId>) {
    PadsOk(t, V) && CurOk(t, V) && Kept(s, U, t, V)
  }

  lemma KeptTrans(s: State, U: set<BlockId>, t: State, V: set<BlockId>, r: State, W: set<BlockId>)
    requires Kept(s, U, t, V) && Kept(t, V, r, W)
    ensures Kept(s, U, r, W)
  {
  }

  lemma KeptOrdinary(s: State, U: set<BlockId>, t: State, V: set<BlockId>, x: BlockId)
    requires Kept(s, U, t, V) && Ordinary(s, U, x)
    ensures Ordinary(t, V, x)
  {
  }

  lemma KeptInstr(s: State, U: set<BlockId>, t: State, V: set<BlockId>, i: Instr)
    requires Kept(s, U, t, V) && InstrOk(s, U, i)
    ensures InstrOk(t, V, i)
  {
  }

  lemma KeptCode(s: State, U: set<BlockId>, t: State, V: set<BlockId>, c: Code)
    requires Kept(s, U, t, V) && CodeOk(s, U, c)
    ensures CodeOk(t, V, c)
  {
    hide InstrOk, Kept;
    forall i | 0 <= i < |c|
      ensures InstrOk(t, V, c[i])
    {
      KeptInstr(s, U, t, V, c[i]);
    }
  }

  // ----- the primitive steps -----

  // New blocks, of which those in P are to be landing pads.
  lemma StepFresh(s: State, U: set<BlockId>, n: nat, P: set<BlockId>)
    requires PadsOk(s, U) && CurOk(s, U) && forall x | x in P :: |s.blocks| <= x < |s.blocks| + n
    ensures PadStep(s, U, Fresh(s, n), U + P)
    ensures forall x | |s.blocks| <= x < |s.blocks| + n && x !in P :: Ordinary(Fresh(s, n), U + P, x)
  {
    hide CodeOk;
    var t := Fresh(s, n);
    assert Kept(s, U, t, U + P);
    forall x | 0 <= x < |t.blocks|
      ensures CodeOk(t, U + P, t.blocks[x])
    {
      if x < |s.blocks| { KeptCode(s, U, t, U + P, s.blocks[x]); } else { NoCode(t, U + P); }
    }
  }

  lemma NoCode(s: State, U: set<BlockId>)
    ensures CodeOk(s, U, [])
  {
  }

  lemma StepAppend(s: State, U: set<BlockId>, b: BlockId, i: Instr)
    requires PadsOk(s, U) && CurOk(s, U) && Ordinary(s, U, b) && InstrOk(s, U, i) && !i.LandingPad?
    ensures PadStep(s, U, Append(s, b, i), U)
  {
    hide CodeOk;
    var t := Append(s, b, i);
    assert Kept(s, U, t, U);
    forall x | 0 <= x < |t.blocks|
      ensures CodeOk(t, U, t.blocks[x])
    {
      KeptCode(s, U, t, U, s.blocks[x]);
      KeptInstr(s, U, t, U, i);
      if x == b { CodeThen(t, U, s.blocks[b], i); }
    }
  }

  lemma CodeThen(s: State, U: set<BlockId>, c: Code, i: Instr)
    requires CodeOk(s, U, c) && InstrOk(s, U, i) && (i.LandingPad? ==> c == [])
    ensures CodeOk(s, U, c + [i])
  {
  }

  lemma StepPut(s: State, U: set<BlockId>, i: Instr)
    requires PadsOk(s, U) && CurOk(s, U) && InstrOk(s, U, i) && !i.LandingPad?
    ensures PadStep(s, U, Put(s, i), U)
  {
    if s.cur.Some? { StepAppend(s, U, s.cur.value, i); }
  }

  // Only the code tells what is a landing pad; the other fields may be set to what is in order.
  lemma StepFields(s: State, U: set<BlockId>, t: State)
    requires PadsOk(s, U) && t.blocks == s.blocks && t.labels == s.labels
    requires t.fin == s.fin || t.fin == None || Ordinary(s, U, t.fin.value)
    requires t.pads == s.pads || forall i | 0 <= i < |t.pads| :: t.pads[i] in U
    requires t.cur.Some? ==> Ordinary(s, U, t.cur.value)
    ensures PadStep(s, U, t, U)
  {
    hide CodeOk;
    assert Kept(s, U, t, U);
    forall x | 0 <= x < |t.blocks|
      ensures CodeOk(t, U, t.blocks[x])
    {
      KeptCode(s, U, t, U, s.blocks[x]);
    }
  }

  // A landing pad is written into its block, which is on the stack no more.
  lemma StepPad(s: State, U: set<BlockId>, b: BlockId, to: BlockId, c: Option<BlockId>)
    requires PadsOk(s, U) && b in U && b !in s.pads && Ordinary(s, U, to)
    requires c.Some? ==> Ordinary(s, U, c.value)
    ensures PadStep(s, U, Put(Put(Goes(s, b), LandingPad), Br(to)).(cur := c), U - {b})
  {
    hide CodeOk;
    var t := Put(Put(Goes(s, b), LandingPad), Br(to)).(cur := c);
    var V := U - {b};
    var none: Code := [];
    assert none + [LandingPad] == [LandingPad] && [LandingPad] + [Br(to)] == [LandingPad, Br(to)];
    assert Put(Goes(s, b), LandingPad).blocks == s.blocks[b := [LandingPad]];
    assert t.blocks == s.blocks[b := [LandingPad, Br(to)]];
    assert Kept(s, U, t, V);
    forall x | 0 <= x < |t.blocks|
      ensures CodeOk(t, V, t.blocks[x])
    {
      KeptCode(s, U, t, V, s.blocks[x]);
      if x == b {
        NoCode(t, V);
        CodeThen(t, V, [], LandingPad);
        CodeThen(t, V, [LandingPad], Br(to));
      }
    }
  }

  lemma StepTrans(s: State, U: set<BlockId>, t: State, V: set<BlockId>, r: State, W: set<BlockId>)
    requires PadStep(s, U, t, V) && PadStep(t, V, r, W)
    ensures PadStep(s, U, r, W)
  {
    KeptTrans(s, U, t, V, r, W);
  }

  lemma StepRefl(s: State, U: set<BlockId>)
    requires PadsOk(s, U) && CurOk(s, U)
    ensures PadStep(s, U, s, U)
  {
  }

  lemma StepClose(s: State, U: set<BlockId>, to: BlockId)
    requires PadsOk(s, U) && CurOk(s, U) && Ordinary(s, U, to)
    ensures PadStep(s, U, Close(s, to), U) && PadStep(s, U, BrIfLive(s, to), U)
  {
    StepRefl(s, U);
    StepPut(s, U, Br(to));
  }

  // ----- instructions -----

  lemma StepInst(s: State, U: set<BlockId>, i: Inst)
    requires PadsOk(s, U) && CurOk(s, U)
    ensures PadStep(s, U, LowerInst(s, i), U)
  {
    if s.cur.Some? && MayThrow(i) && s.pads != [] {
      var b := |s.blocks|;
      var t := Fresh(s, 1);
      StepFresh(s, U, 1, {});
      assert U + {} == U;
      var j := Invoke(i, b, s.pads[|s.pads| - 1]);
      assert InstrOk(t, U, j);
      StepPut(t, U, j);
      StepTrans(s, U, t, U, Put(t, j), U);
      KeptOrdinary(t, U, Put(t, j), U, b);
      StepFields(Put(t, j), U, Goes(Put(t, j), b));
      StepTrans(s, U, Put(t, j), U, LowerInst(s, i), U);
    } else {
      StepPut(s, U, Plain(i));
    }
  }

  lemma {:induction false} StepInsts(s: State, U: set<BlockId>, insts: seq<Inst>)
    requires PadsOk(s, U) && CurOk(s, U)
    ensures PadStep(s, U, LowerInsts(s, insts), U)
    decreases insts
  {
    hide PadsOk, CurOk, Kept, LowerInst;
    if insts == [] {
      StepRefl(s, U);
    } else {
      StepInst(s, U, insts[0]);
      StepInsts(LowerInst(s, insts[0]), U, insts[1..]);
      StepTrans(s, U, LowerInst(s, insts[0]), U, LowerInsts(s, insts), U);
    }
  }

  lemma StepLabel(s: State, U: set<BlockId>, l: Label)
    requires PadsOk(s, U) && CurOk(s, U)
    ensures var t := LabelBlock(s, l);
      PadStep(s, U, t, U) && l in t.labels && Ordinary(t, U, t.labels[l])
  {
    hide CodeOk;
    if l !in s.labels {
      var t := Fresh(s, 1);
      StepFresh(s, U, 1, {});
      assert U + {} == U;
      var r := LabelBlock(s, l);
      assert Kept(t, U, r, U);
      forall x | 0 <= x < |r.blocks|
        ensures CodeOk(r, U, r.blocks[x])
      {
        KeptCode(t, U, r, U, t.blocks[x]);
      }
      forall k | k in r.labels
        ensures Ordinary(r, U, r.labels[k])
      {
        if k != l { assert k in t.labels && Ordinary(t, U, t.labels[k]); }
      }
      StepTrans(s, U, t, U, r, U);
    } else {
      StepRefl(s, U);
    }
  }

  // ----- nodes -----

  lemma {:induction false} StepNode(s: State, U: set<BlockId>, n: Node, p: Pos, pad: bool, fin: bool, tail: bool)
    requires PadsOk(s, U) && CurOk(s, U) && Wf(n, p, pad, fin, tail)
    ensures PadStep(s, U, Lower(s, n), U)
    decreases n, 1
  {
    hide PadsOk, CurOk, Kept, PadStep, LowerInsts, Put, Close, LabelBlock;
    match n
    case Expr(kids, insts, _) =>
      StepSeq(s, U, kids, p, pad, fin, false);
      StepIs(s, U, LowerSeq(s, kids), U);
      StepInsts(LowerSeq(s, kids), U, insts);
      StepTrans(s, U, LowerSeq(s, kids), U, Lower(s, n), U);
    case ExprStmt(e) => StepNode(s, U, e, p, pad, fin, false);
    case Block(stmts) => StepSeq(s, U, stmts, p, pad, fin, tail);
    case If(_, _, _) => StepIf(s, U, n, p, pad, fin);
    case Switch(_, _, _) => StepSwitch(s, U, n, p, pad, fin);
    case Return(e) => StepReturn(s, U, e);
    case Goto(l) => StepGoto(s, U, l);
    case LabelDef(l) => StepLabelDef(s, U, l);
    case Defer(u, d) => StepDefer(s, U, u, d);
    case Excep(_, _, _) => StepExcep(s, U, n, p);
  }

  lemma StepIs(s: State, U: set<BlockId>, t: State, V: set<BlockId>)
    requires PadStep(s, U, t, V)
    ensures PadsOk(t, V) && CurOk(t, V) && Kept(s, U, t, V) && |s.blocks| <= |t.blocks|
  {
  }

  lemma StepDies(s: State, U: set<BlockId>, t: State)
    requires PadStep(s, U, t, U)
    ensures PadStep(s, U, Dies(t), U)
  {
    StepFields(t, U, Dies(t));
    StepTrans(s, U, t, U, Dies(t), U);
  }

  lemma StepGoes(s: State, U: set<BlockId>, t: State, V: set<BlockId>, b: BlockId)
    requires PadStep(s, U, t, V) && Ordinary(t, V, b)
    ensures PadStep(s, U, Goes(t, b), V)
  {
    StepFields(t, V, Goes(t, b));
    StepTrans(s, U, t, V, Goes(t, b), V);
  }

  lemma StepReturn(s: State, U: set<BlockId>, e: Node)
    requires PadsOk(s, U) && CurOk(s, U) && ReturnExpr(e)
    ensures PadStep(s, U, Lower(s, Return(e)), U)
  {
    hide PadsOk, CurOk, Kept, LowerInsts, Put;
    if s.fin.Some? {
      var t := s.(cached := OrElse(s.cached, Some(e)));
      CurIs(s, U);
      StepFields(s, U, t);
      FinIs(t, U);
      StepPut(t, U, Br(s.fin.value));
      StepTrans(s, U, t, U, Put(t, Br(s.fin.value)), U);
      StepDies(s, U, Put(t, Br(s.fin.value)));
    } else {
      LowerSimple(s, e);
      StepInsts(s, U, Flat(e));
      StepDies(s, U, LowerInsts(s, Flat(e)));
    }
  }

  lemma CurIs(s: State, U: set<BlockId>)
    requires CurOk(s, U)
    ensures s.cur.Some? ==> Ordinary(s, U, s.cur.value)
  {
  }

  lemma FinIs(s: State, U: set<BlockId>)
    requires PadsOk(s, U) && s.fin.Some?
    ensures InstrOk(s, U, Br(s.fin.value))
  {
  }

  lemma StepGoto(s: State, U: set<BlockId>, l: Label)
    requires PadsOk(s, U) && CurOk(s, U)
    ensures PadStep(s, U, Lower(s, Goto(l)), U)
  {
    hide PadsOk, CurOk, Kept, Ordinary, Close, LabelBlock;
    StepLabel(s, U, l);
    var t := LabelBlock(s, l);
    var b := t.labels[l];
    StepClose(t, U, b);
    StepTrans(s, U, t, U, Close(t, b), U);
    StepDies(s, U, Close(t, b));
  }

  lemma StepLabelDef(s: State, U: set<BlockId>, l: Label)
    requires PadsOk(s, U) && CurOk(s, U)
    ensures PadStep(s, U, Lower(s, LabelDef(l)), U)
  {
    hide PadsOk, CurOk, Kept, Ordinary, Put, LabelBlock;
    StepLabel(s, U, l);
    var t := LabelBlock(s, l);
    var b := t.labels[l];
    StepPut(t, U, Br(b));
    StepTrans(s, U, t, U, Put(t, Br(b)), U);
    KeptOrdinary(t, U, Put(t, Br(b)), U, b);
    StepGoes(s, U, Put(t, Br(b)), U, b);
  }

  lemma {:induction false} StepSeq(s: State, U: set<BlockId>, ns: seq<Node>, p: Pos, pad: bool, fin: bool, tail: bool)
    requires PadsOk(s, U) && CurOk(s, U) && WfSeq(ns, p, pad, fin, tail)
    ensures PadStep(s, U, LowerSeq(s, ns), U)
    decreases ns, 2
  {
    hide PadsOk, CurOk, Kept, Wf, Lower;
    if ns == [] {
      StepRefl(s, U);
    } else {
      StepNode(s, U, ns[0], p, pad, fin, tail && |ns| == 1);
      StepSeq(Lower(s, ns[0]), U, ns[1..], End(ns[0], p, pad), pad, fin, tail);
      StepTrans(s, U, Lower(s, ns[0]), U, LowerSeq(s, ns), U);
    }
  }

  // A branch lowered into an ordinary block and closed towards another.
  lemma {:induction false} StepBranch(s: State, U: set<BlockId>, b: BlockId, n: Node, to: BlockId, pad: bool, fin: bool)
    requires PadsOk(s, U) && Ordinary(s, U, b) && Ordinary(s, U, to) && Wf(n, Start, pad, fin, false)
    ensures PadStep(s, U, Close(Lower(Goes(s, b), n), to), U)
    decreases n, 2
  {
    hide PadsOk, Wf, Lower, Close, Ordinary;
    var s1 := Goes(s, b);
    StepFields(s, U, s1);
    StepNode(s1, U, n, Start, pad, fin, false);
    var t := Lower(s1, n);
    StepTrans(s, U, s1, U, t, U);
    KeptOrdinary(s, U, t, U, to);
    StepClose(t, U, to);
    StepTrans(s, U, t, U, Close(t, to), U);
  }

  lemma {:induction false} StepIf(s: State, U: set<BlockId>, n: Node, p: Pos, pad: bool, fin: bool)
    requires n.If? && PadsOk(s, U) && CurOk(s, U) && Wf(n, p, pad, fin, false)
    ensures PadStep(s, U, Lower(s, n), U)
    decreases n, 0
  {
    hide PadsOk, CurOk, Kept, Close, Put, Fresh, Ordinary;
    var If(c, t, f) := n;
    StepNode(s, U, c, p, pad, fin, false);
    var s1 := Lower(s, c);
    var b := |s1.blocks|;
    var s2 := Fresh(s1, 3);
    StepFresh(s1, U, 3, {});
    assert U + {} == U;
    var i := CondBr(Val(c), b, b + 2);
    StepPut(s2, U, i);
    var s3 := Put(s2, i);
    StepTrans(s, U, s1, U, s2, U);
    StepTrans(s, U, s2, U, s3, U);
    ThreeKept(s2, U, s3, b);
    StepBranch(s3, U, b, t, b + 1, pad, fin);
    var s4 := Close(Lower(Goes(s3, b), t), b + 1);
    StepTrans(s, U, s3, U, s4, U);
    ThreeKept(s3, U, s4, b);
    StepBranch(s4, U, b + 2, f, b + 1, pad, fin);
    var s5 := Close(Lower(Goes(s4, b + 2), f), b + 1);
    StepTrans(s, U, s4, U, s5, U);
    ThreeKept(s4, U, s5, b);
    StepGoes(s, U, s5, U, b + 1);
  }

  lemma ThreeKept(s: State, U: set<BlockId>, t: State, b: BlockId)
    requires Kept(s, U, t, U) && Ordinary(s, U, b) && Ordinary(s, U, b + 1) && Ordinary(s, U, b + 2)
    ensures Ordinary(t, U, b) && Ordinary(t, U, b + 1) && Ordinary(t, U, b + 2)
  {
  }

  lemma {:induction false} StepBodies(s: State, U: set<BlockId>, ns: seq<Node>, b: BlockId, epilog: BlockId, pad: bool,
                                      fin: bool)
    requires PadsOk(s, U) && CurOk(s, U) && WfBodies(ns, pad, fin) && Ordinary(s, U, epilog)
    requires forall x | b <= x < b + |ns| :: Ordinary(s, U, x)
    ensures PadStep(s, U, LowerBodies(s, ns, b, epilog), U)
    decreases ns, 3
  {
    hide PadsOk, CurOk, Wf, Lower, Ordinary;
    if ns == [] {
      StepRefl(s, U);
    } else {
      StepBody(s, U, ns[0], b, epilog, pad, fin);
      var t := CaseTail(s, ns[0], b, epilog);
      forall x | b <= x < b + |ns|
        ensures Ordinary(t, U, x)
      {
        KeptOrdinary(s, U, t, U, x);
      }
      KeptOrdinary(s, U, t, U, epilog);
      StepBodies(t, U, ns[1..], b + 1, epilog, pad, fin);
      StepTrans(s, U, t, U, LowerBodies(s, ns, b, epilog), U);
    }
  }

  lemma {:induction false} StepBody(s: State, U: set<BlockId>, n: Node, b: BlockId, epilog: BlockId, pad: bool,
                                    fin: bool)
    requires PadsOk(s, U) && Ordinary(s, U, b) && Ordinary(s, U, epilog) && Wf(n, Start, pad, fin, false)
    ensures PadStep(s, U, CaseTail(s, n, b, epilog), U)
    decreases n, 2
  {
    hide PadsOk, Wf, Lower, Ordinary, Append, Ended;
    var s1 := Goes(s, b);
    StepFields(s, U, s1);
    StepNode(s1, U, n, Start, pad, fin, false);
    var t := Lower(s1, n);
    StepTrans(s, U, s1, U, t, U);
    KeptOrdinary(s, U, t, U, b);
    KeptOrdinary(s, U, t, U, epilog);
    StepAppend(t, U, b, Br(epilog));
    StepTrans(s, U, t, U, Append(t, b, Br(epilog)), U);
  }

  // The case bodies, from the state after the value, and back to where the value was left.
  lemma {:induction false} StepCases(s1: State, U: set<BlockId>, ns: seq<Node>, pad: bool, fin: bool)
    requires PadsOk(s1, U) && CurOk(s1, U) && WfBodies(ns, pad, fin)
    ensures var b := |s1.blocks|; var m := |ns|;
      var t := LowerBodies(Fresh(s1, m + 1), ns, b, b + m).(cur := s1.cur);
      PadStep(s1, U, t, U) && forall x | b <= x < b + m + 1 :: Ordinary(t, U, x)
    decreases ns, 4
  {
    hide PadsOk, Kept, LowerBodies, Fresh, Ordinary, WfBodies;
    var b := |s1.blocks|;
    var m := |ns|;
    var s2 := Fresh(s1, m + 1);
    StepFresh(s1, U, m + 1, {});
    assert U + {} == U;
    assert forall x | b <= x < b + m :: Ordinary(s2, U, x);
    StepBodies(s2, U, ns, b, b + m, pad, fin);
    var s3 := LowerBodies(s2, ns, b, b + m);
    StepTrans(s1, U, s2, U, s3, U);
    if s1.cur.Some? { KeptOrdinary(s1, U, s3, U, s1.cur.value); }
    var s4 := s3.(cur := s1.cur);
    StepFields(s3, U, s4);
    StepTrans(s1, U, s3, U, s4, U);
    StepTrans(s2, U, s3, U, s4, U);
    forall x | b <= x < b + m + 1
      ensures Ordinary(s4, U, x)
    {
      KeptOrdinary(s2, U, s4, U, x);
    }
  }

  lemma {:induction false} StepSwitch(s: State, U: set<BlockId>, n: Node, p: Pos, pad: bool, fin: bool)
    requires n.Switch? && PadsOk(s, U) && CurOk(s, U) && Wf(n, p, pad, fin, false)
    ensures PadStep(s, U, Lower(s, n), U)
    decreases n, 0
  {
    hide PadsOk, CurOk, Kept, LowerBodies, Put, Fresh, Ordinary, Lower, Wf, WfBodies, InstrOk;
    SwitchUnfolds(n, p, pad, fin);
    StepNode(s, U, n.sel, p, pad, fin, false);
    var s1 := Lower(s, n.sel);
    var b := |s1.blocks|;
    var m := |n.bodies|;
    StepCases(s1, U, n.bodies, pad, fin);
    var s4 := LowerBodies(Fresh(s1, m + 1), n.bodies, b, b + m).(cur := s1.cur);
    StepTrans(s, U, s1, U, s4, U);
    var i := SwitchBr(Val(n.sel), b + DefaultCase(n.vals), Arms(n.vals, b));
    ArmsOk(s4, U, n, b);
    StepPut(s4, U, i);
    StepTrans(s, U, s4, U, Put(s4, i), U);
    KeptOrdinary(s4, U, Put(s4, i), U, b + m);
    StepGoes(s, U, Put(s4, i), U, b + m);
    SwitchTailIs(s, n);
  }

  lemma ArmsOk(s: State, U: set<BlockId>, n: Node, b: BlockId)
    requires n.Switch? && |n.vals| == |n.bodies| && forall x | b <= x < b + |n.bodies| + 1 :: Ordinary(s, U, x)
    ensures InstrOk(s, U, SwitchBr(Val(n.sel), b + DefaultCase(n.vals), Arms(n.vals, b)))
  {
    hide Ordinary;
    ArmsInRange(n.vals, b);
  }

  // ----- protected regions -----

  lemma PadsIn(s: State, U: set<BlockId>)
    requires PadsOk(s, U)
    ensures forall x | x in U :: x < |s.blocks|
    ensures forall x | x in s.pads :: x in U
  {
  }

  lemma StepDeferTry(s: State, U: set<BlockId>, u: Node)
    requires PadsOk(s, U) && CurOk(s, U) && PlainExpr(u)
    ensures var b := |s.blocks|; var V := U + {b + 1}; var t := DeferTry(s, u);
      && PadStep(s, U, t, V) && Ordinary(t, V, b) && Ordinary(t, V, b + 2) && t.pads == s.pads
  {
    hide PadsOk, CurOk, Kept, LowerInsts, Put, Fresh, Ordinary;
    var b := |s.blocks|;
    PadsIn(s, U);
    var V := U + {b + 1};
    var s0 := Fresh(s, 3);
    StepFresh(s, U, 3, {b + 1});
    StepPut(s0, V, Br(b));
    var s1 := Put(s0, Br(b));
    StepTrans(s, U, s0, V, s1, V);
    KeptOrdinary(s0, V, s1, V, b);
    KeptOrdinary(s0, V, s1, V, b + 2);
    var s2 := DeferStart(s).(pads := s.pads + [b + 1]);
    StepFields(s1, V, s2);
    StepTrans(s, U, s1, V, s2, V);
    KeptOrdinary(s1, V, s2, V, b);
    KeptOrdinary(s1, V, s2, V, b + 2);
    StepInsts(s2, V, Flat(u));
    LowerSimple(s2, u);
    var s3 := Lower(s2, u);
    StepTrans(s, U, s2, V, s3, V);
    CurIs(s3, V);
    StepFields(s3, V, DeferTry(s, u));
    StepTrans(s2, V, s3, V, DeferTry(s, u), V);
    StepTrans(s, U, s3, V, DeferTry(s, u), V);
    KeptOrdinary(s2, V, DeferTry(s, u), V, b);
    KeptOrdinary(s2, V, DeferTry(s, u), V, b + 2);
  }

  // The landing pad and the catch code, and back to where the undefer call left off.
  lemma StepDeferTail(s: State, U: set<BlockId>, V: set<BlockId>, u: Node, d: Node)
    requires var b := |s.blocks|; var s2 := DeferTry(s, u);
      && PadsOk(s2, V) && CurOk(s2, V) && Ordinary(s2, V, b) && Ordinary(s2, V, b + 2)
      && b + 1 in V && b + 1 !in s2.pads && U == V - {b + 1}
    requires PlainExpr(d)
    ensures PadStep(DeferTry(s, u), V, DeferTail(s, u, d), U)
  {
    hide PadsOk, CurOk, Kept, LowerInsts, Lower, Put, Append, Ordinary, DeferTry, Flat;
    var b := |s.blocks|;
    var s2 := DeferTry(s, u);
    CurIs(s2, V);
    StepPad(s2, V, b + 1, b + 2, Some(b + 2));
    var s3 := DeferCatch(s, u);
    StepInsts(s3, U, Flat(d));
    LowerSimple(s3, d);
    var s5 := Lower(s3, d);
    StepTrans(s2, V, s3, U, s5, U);
    KeptOrdinary(s2, V, s5, U, b);
    KeptOrdinary(s2, V, s5, U, b + 2);
    StepAppend(s5, U, b + 2, Br(b));
    var s6 := Append(s5, b + 2, Br(b));
    StepTrans(s2, V, s5, U, s6, U);
    if s2.cur.Some? { KeptOrdinary(s2, V, s6, U, s2.cur.value); }
    StepFields(s6, U, DeferTail(s, u, d));
    StepTrans(s2, V, s6, U, DeferTail(s, u, d), U);
  }

  lemma StepDefer(s: State, U: set<BlockId>, u: Node, d: Node)
    requires PadsOk(s, U) && CurOk(s, U) && PlainExpr(u) && PlainExpr(d)
    ensures PadStep(s, U, Lower(s, Defer(u, d)), U)
  {
    hide PadsOk, CurOk, Kept, Lower, Ordinary, DeferTry, DeferTail;
    var b := |s.blocks|;
    PadsIn(s, U);
    var V := U + {b + 1};
    assert V - {b + 1} == U;
    StepDeferTry(s, U, u);
    StepDeferTail(s, U, V, u, d);
    StepTrans(s, U, DeferTry(s, u), V, DeferTail(s, u, d), U);
    DeferIs(s, u, d);
  }

  lemma {:induction false} StepTry(s: State, U: set<BlockId>, n: Node, p: Pos)
    requires PadsOk(s, U) && CurOk(s, U) && Wf(n, p, true, true, false)
    ensures var b := |s.blocks|; var V := U + {b}; var t := TryPart(s, n);
      && PadStep(s, U, t, V) && Ordinary(t, V, b + 1) && t.pads == s.pads
    decreases n, 2
  {
    hide PadsOk, CurOk, Kept, Fresh, Ordinary, Lower, Wf, BrIfLive;
    var b := |s.blocks|;
    PadsIn(s, U);
    var V := U + {b};
    var s1 := Fresh(s, 2);
    StepFresh(s, U, 2, {b});
    CurIs(s1, V);
    var s2 := TryStart(s);
    StepFields(s1, V, s2);
    StepTrans(s, U, s1, V, s2, V);
    KeptOrdinary(s1, V, s2, V, b + 1);
    StepNode(s2, V, n, p, true, true, false);
    var s3 := Lower(s2, n);
    StepTrans(s, U, s2, V, s3, V);
    KeptOrdinary(s2, V, s3, V, b + 1);
    StepClose(s3, V, b + 1);
    var s4 := BrIfLive(s3, b + 1);
    CurIs(s4, V);
    StepFields(s4, V, TryPart(s, n));
    StepTrans(s3, V, s4, V, TryPart(s, n), V);
    StepTrans(s, U, s3, V, TryPart(s, n), V);
    KeptOrdinary(s3, V, TryPart(s, n), V, b + 1);
  }

  lemma StepCatchStart(s3: State, V: set<BlockId>, b: BlockId, to: BlockId)
    requires PadsOk(s3, V) && CurOk(s3, V) && b in V && b !in s3.pads && Ordinary(s3, V, to)
    ensures var k := |s3.blocks|; var t := CatchStart(s3, b); var W := V - {b} + {k + 1};
      PadStep(s3, V, t, W) && Ordinary(t, W, to)
  {
    hide PadsOk, CurOk, Kept, Ordinary;
    var k := |s3.blocks|;
    PadsIn(s3, V);
    var s4 := Fresh(s3, 1);
    StepFresh(s3, V, 1, {});
    assert V + {} == V;
    StepPad(s4, V, b, k, Some(k));
    var U := V - {b};
    var s5 := Put(Put(Goes(s4, b), LandingPad), Br(k)).(cur := Some(k));
    StepTrans(s3, V, s4, V, s5, U);
    assert s5.cur == Some(k) && |s5.blocks| == k + 1;
    CurIs(s5, U);
    StepFresh(s5, U, 1, {k + 1});
    var W := U + {k + 1};
    var s6 := Fresh(s5, 1);
    StepTrans(s3, V, s5, U, s6, W);
    CurIs(s6, W);
    PadsIn(s5, U);
    var t := CatchStart(s3, b);
    assert t == s6.(pads := s3.pads + [k + 1]);
    StepFields(s6, W, t);
    StepTrans(s3, V, s6, W, t, W);
    KeptOrdinary(s3, V, t, W, to);
  }

  lemma {:induction false} StepCatch(s3: State, V: set<BlockId>, b: BlockId, n: Node)
    requires PadsOk(s3, V) && CurOk(s3, V) && b in V && b !in s3.pads && Ordinary(s3, V, b + 1)
    requires Wf(n, Start, true, true, false)
    ensures var t := Goes(CatchPart(s3, b, n), b + 1); PadStep(s3, V, t, V - {b})
    decreases n, 2
  {
    hide PadsOk, CurOk, Kept, Ordinary, Lower, Wf, BrIfLive, CatchStart;
    var k := |s3.blocks|;
    PadsIn(s3, V);
    var U := V - {b};
    var W := U + {k + 1};
    StepCatchStart(s3, V, b, b + 1);
    var s5 := CatchStart(s3, b);
    StepNode(s5, W, n, Start, true, true, false);
    var s6 := Lower(s5, n);
    StepTrans(s3, V, s5, W, s6, W);
    KeptOrdinary(s5, W, s6, W, b + 1);
    StepClose(s6, W, b + 1);
    var s6' := BrIfLive(s6, b + 1);
    StepTrans(s3, V, s6, W, s6', W);
    CurIs(s6', W);
    CatchPads(s3, V, b, n, W);
    var s7 := CatchEnd(s3, b, n);
    StepFields(s6', W, s7);
    StepTrans(s3, V, s6', W, s7, W);
    KeptOrdinary(s3, V, s7, W, b + 1);
    StepPad(s7, W, k + 1, b + 1, Some(b + 1));
    assert W - {k + 1} == U;
    StepTrans(s3, V, s7, W, Goes(CatchPart(s3, b, n), b + 1), U);
  }

  // The pads below the one taken off the stack are still to be written.
  lemma CatchPads(s3: State, V: set<BlockId>, b: BlockId, n: Node, W: set<BlockId>)
    requires PadsOk(s3, V) && b !in s3.pads && W == V - {b} + {|s3.blocks| + 1}
    ensures forall i | 0 <= i < |s3.pads| :: s3.pads[i] in W && s3.pads[i] != |s3.blocks| + 1
  {
  }

  lemma {:induction false} StepExcep(s: State, U: set<BlockId>, n: Node, p: Pos)
    requires n.Excep? && PadsOk(s, U) && CurOk(s, U) && Wf(n, p, false, false, true)
    ensures PadStep(s, U, Lower(s, n), U)
    decreases n, 0
  {
    hide PadsOk, CurOk, Kept, Ordinary, Lower, Wf, TryPart, CatchPart, LowerInsts;
    ExcepUnfolds(n, p);
    var b := |s.blocks|;
    PadsIn(s, U);
    var V := U + {b};
    StepTry(s, U, n.body, p);
    var s3 := TryPart(s, n.body);
    StepCatch(s3, V, b, n.onexc);
    assert V - {b} == U;
    var s9 := Goes(CatchPart(s3, b, n.onexc), b + 1);
    StepTrans(s, U, s3, V, s9, U);
    StepNode(s9, U, n.fin, Moved, false, false, false);
    var t := Lower(s9, n.fin);
    StepTrans(s, U, s9, U, t, U);
    if t.cached.Some? {
      var r := LowerInsts(t, Flat(t.cached.value));
      StepInsts(t, U, Flat(t.cached.value));
      StepTrans(s, U, t, U, r, U);
      CurIs(r, U);
      StepFields(r, U, r.(cached := None));
      StepTrans(s, U, r, U, r.(cached := None), U);
    }
    ExcepIs(s, n);
  }

  // ----- whole functions -----

  predicate BeginsWithPad(g: seq<Code>, b: BlockId) {
    b < |g| && g[b] != [] && g[b][0].LandingPad?
  }

  // Exception edges lead to landing pads; no other branch does, nor does the function begin with one;
  // and a landing pad is the first instruction of its block.
  lemma PadsExactly(n: Node)
    requires Body(n)
    ensures var g := Compile(n).blocks;
      && !BeginsWithPad(g, 0)
      && forall b, i | 0 <= b < |g| && 0 <= i < |g[b]| ::
           match g[b][i]
           case Invoke(_, cont, pad) => BeginsWithPad(g, pad) && !BeginsWithPad(g, cont)
           case Br(to) => !BeginsWithPad(g, to)
           case CondBr(_, yes, no) => !BeginsWithPad(g, yes) && !BeginsWithPad(g, no)
           case SwitchBr(_, other, arms) =>
             !BeginsWithPad(g, other) && forall k | 0 <= k < |arms| :: !BeginsWithPad(g, arms[k].1)
           case LandingPad => i == 0
           case _ => true
  {
    hide Lower, Wf;
    var s := Begin();
    assert PadsOk(s, {}) && CurOk(s, {});
    StepNode(s, {}, n, Start, false, false, true);
    var t := Lower(s, n);
    StepRefl(t, {});
    StepPut(t, {}, RetZero);
    var r := Fixup(t);
    StepTrans(s, {}, t, {}, r, {});
    assert Ordinary(s, {}, 0);
    KeptOrdinary(s, {}, r, {}, 0);
    forall b, i | 0 <= b < |r.blocks| && 0 <= i < |r.blocks[b]|
      ensures InstrOk(r, {}, r.blocks[b][i]) && (r.blocks[b][i].LandingPad? ==> i == 0)
    {
      assert CodeOk(r, {}, r.blocks[b]);
    }
  }

  predicate AtPad(g: seq<Code>, c: Conf) {
    c.At? && c.b < |g| && c.i < |g[c.b]| && g[c.b][c.i].LandingPad?
  }

  // So in a run control comes to a landing pad in just those steps in which a call throws and is caught.
  lemma PadsAreForThrows(e: Env, n: Node, c: Conf)
    requires Body(n) && c.At?
    ensures var g := Compile(n).blocks; var d := Step(e, g, c);
      d.At? ==> (AtPad(g, d) <==> |d.h| > |c.h| && d.h[|d.h| - 1].Threw?)
  {
    hide Compile;
    PadsExactly(n);
    var g := Compile(n).blocks;
    var d := Step(e, g, c);
    if d.At? {
      match g[c.b][c.i]
      case Plain(_) => assert d.i > 0;
      case Invoke(_, cont, pad) => assert !BeginsWithPad(g, cont) && BeginsWithPad(g, pad);
      case Br(to) => assert !BeginsWithPad(g, to);
      case CondBr(_, yes, no) => assert !BeginsWithPad(g, yes) && !BeginsWithPad(g, no);
      case SwitchBr(v, other, arms) => ArmIsOneOf(arms, other, e.choose(v, c.h));
      case LandingPad => assert d.i > 0;
    }
  }

  lemma {:induction false} ArmIsOneOf(arms: seq<(int, BlockId)>, other: BlockId, x: int)
    ensures var to := Arm(arms, other, x); to == other || exists k :: 0 <= k < |arms| && arms[k].1 == to
    decreases arms
  {
    if arms != [] && arms[0].0 != x {
      ArmIsOneOf(arms[1..], other, x);
      var to := Arm(arms, other, x);
      if to != other {
        var k :| 0 <= k < |arms[1..]| && arms[1..][k].1 == to;
        assert arms[k + 1].1 == to;
      }
    }
  }
}
