/** Which blocks of a lowered function are closed: all of them, exactly when no switch case falls out
    of a block other than its own and every goto target is defined. */
module LoweringClosed {
  import opened Wrappers
  import opened StmtTree
  import opened Cfg
  import opened Lowering
  import opened LoweringFrame
  import opened LoweringWalk
  import opened LoweringSim
  import opened LoweringCorrect

  // Block b is open and nothing will ever close it: it is not the current block, not set aside
  // in P, and not the block of a label still to be defined.
  ghost predicate Loose(s: State, D: set<Label>, P: set<BlockId>, b: BlockId) {
    && b < |s.blocks| && !Ended(s, b) && s.cur != Some(b) && b !in P
    && (forall l :: l in s.labels && l !in D ==> s.labels[l] != b)
  }

  ghost predicate NoneNew(s: State, D: set<Label>, P: set<BlockId>, t: State, D': set<Label>, P': set<BlockId>) {
    forall b :: Loose(t, D', P', b) ==> Loose(s, D, P, b)
  }

  ghost predicate NoneLost(s: State, D: set<Label>, P: set<BlockId>, t: State, D': set<Label>, P': set<BlockId>) {
    forall b :: Loose(s, D, P, b) ==> Loose(t, D', P', b)
  }

  ghost predicate Leaks(s: State, D: set<Label>, P: set<BlockId>) {
    exists b :: Loose(s, D, P, b)
  }

  // The blocks in P are out of the way of a walk from s.
  ghost predicate Aside(s: State, D: set<Label>, P: set<BlockId>) {
    forall x :: x in P ==>
      x < |s.blocks| && s.cur != Some(x) && forall l :: l in s.labels && l !in D ==> s.labels[l] != x
  }

  // From s to t nothing is lost, and something is left open just when `safe` fails.
  ghost predicate Leaves(s: State, D: set<Label>, P: set<BlockId>, t: State, D': set<Label>, P': set<BlockId>,
                         safe: bool) {
    && NoneLost(s, D, P, t, D', P')
    && (if safe then NoneNew(s, D, P, t, D', P') else Leaks(t, D', P'))
  }

  lemma LeavesThen(s: State, D: set<Label>, P: set<BlockId>, t: State, D1: set<Label>, P1: set<BlockId>, safe: bool,
                   u: State, D2: set<Label>, P2: set<BlockId>, safe1: bool)
    requires Leaves(s, D, P, t, D1, P1, safe) && Leaves(t, D1, P1, u, D2, P2, safe1)
    ensures Leaves(s, D, P, u, D2, P2, safe && safe1)
  {
    if !safe {
      var b: BlockId :| Loose(t, D1, P1, b);
      assert Loose(u, D2, P2, b);
    }
  }

  // A walk closes no loose block, and keeps the blocks set aside out of the way.
  lemma WalkLoses(s: State, t: State, L: set<Label>, D: set<Label>, P: set<BlockId>)
    requires Inv(s, D) && D !! L && Walked(s, t, L, D) && Aside(s, D, P)
    ensures NoneLost(s, D, P, t, D + L, P) && Aside(t, D + L, P)
  {
    forall b: BlockId | Loose(s, D, P, b)
      ensures Loose(t, D + L, P, b)
    {
      assert b !in Touch(s, L);
    }
    forall x | x in P
      ensures t.cur != Some(x) && x < |t.blocks|
    {
      assert x !in Touch(s, L);
    }
  }

  ghost predicate LabelsIn(s: State) {
    forall l :: l in s.labels ==> s.labels[l] < |s.blocks|
  }

  // The current block is open and belongs to no label still to be defined.
  ghost predicate Calm(s: State, D: set<Label>) {
    && LabelsIn(s) && OpenCur(s)
    && (s.cur.Some? ==> s.cur.value < |s.blocks| && forall l :: l in s.labels && l !in D ==> s.labels[l] != s.cur.value)
  }

  lemma InvCalm(s: State, D: set<Label>)
    requires Inv(s, D) && OpenCur(s)
    ensures Calm(s, D)
  {
  }

  // ----- single steps -----

  // Straight-line code leaves nothing open.
  lemma InstLeaves(s: State, i: Inst, D: set<Label>, P: set<BlockId>)
    requires Calm(s, D) && Aside(s, D, P)
    ensures var t := LowerInst(s, i); Leaves(s, D, P, t, D, P, true) && Aside(t, D, P) && (i != Ret ==> Calm(t, D))
  {
    var t := LowerInst(s, i);
    if s.cur.Some? {
      var c := s.cur.value;
      assert t.blocks[c][..|s.blocks[c]|] == s.blocks[c];
      if MayThrow(i) && s.pads != [] {
        assert t.blocks[c][|t.blocks[c]| - 1] == Invoke(i, |s.blocks|, s.pads[|s.pads| - 1]);
        assert t.blocks[|s.blocks|] == [];
      } else {
        assert t.blocks[c][|t.blocks[c]| - 1] == Plain(i);
      }
    }
    forall b: BlockId | b < |s.blocks| && s.cur != Some(b)
      ensures t.blocks[b] == s.blocks[b]
    {
    }
  }

  lemma {:induction false} InstsLeave(s: State, insts: seq<Inst>, D: set<Label>, P: set<BlockId>)
    requires Calm(s, D) && Aside(s, D, P)
    requires forall k :: 0 <= k < |insts| - 1 ==> insts[k] != Ret
    ensures var t := LowerInsts(s, insts);
      Leaves(s, D, P, t, D, P, true) && Aside(t, D, P) && (Ret !in insts ==> Calm(t, D))
    decreases insts
  {
    hide Calm, Aside, Leaves, LowerInst, Ended, OpenCur;
    if insts == [] {
      SameLeaves(s, D, P);
    } else {
      var t := LowerInst(s, insts[0]);
      InstLeaves(s, insts[0], D, P);
      if |insts| > 1 {
        InstsLeave(t, insts[1..], D, P);
        LeavesThen(s, D, P, t, D, P, true, LowerInsts(t, insts[1..]), D, P, true);
      } else {
        assert insts[1..] == [];
      }
    }
  }

  lemma SameLeaves(s: State, D: set<Label>, P: set<BlockId>)
    ensures Leaves(s, D, P, s, D, P, true)
  {
  }

  lemma FreshLeaves(t: State, n: nat, D: set<Label>, P: set<BlockId>)
    requires LabelsIn(t) && Aside(t, D, P) && (t.cur.Some? ==> t.cur.value < |t.blocks|)
    ensures var u := Fresh(t, n); var Q := P + Range(|t.blocks|, n);
      Leaves(t, D, P, u, D, Q, true) && Aside(u, D, Q) && LabelsIn(u)
  {
    var u := Fresh(t, n);
    forall b: BlockId | b < |t.blocks|
      ensures Ended(t, b) == Ended(u, b)
    {
    }
  }

  // Close the current block and go on in one set aside.
  lemma PutGoesLeaves(t: State, i: Instr, x: BlockId, D: set<Label>, P: set<BlockId>)
    requires Aside(t, D, P) && IsTerm(i) && x in P && LabelsIn(t) && (t.cur.Some? ==> t.cur.value < |t.blocks|)
    ensures var u := Goes(Put(t, i), x);
      Leaves(t, D, P, u, D, P - {x}, true) && Aside(u, D, P - {x}) && LabelsIn(u)
      && (!Ended(t, x) ==> Calm(u, D))
  {
    var u := Goes(Put(t, i), x);
    assert t.cur != Some(x) && Ended(u, x) == Ended(t, x);
    if t.cur.Some? {
      var c := t.cur.value;
      assert u.blocks[c][|u.blocks[c]| - 1] == i;
    }
    forall b: BlockId | Loose(u, D, P - {x}, b)
      ensures Loose(t, D, P, b)
    {
    }
  }

  lemma CloseGoesLeaves(t: State, to: BlockId, x: BlockId, D: set<Label>, P: set<BlockId>)
    requires Aside(t, D, P) && OpenCur(t) && x in P && LabelsIn(t) && (t.cur.Some? ==> t.cur.value < |t.blocks|)
    ensures var u := Goes(Close(t, to), x);
      Leaves(t, D, P, u, D, P - {x}, true) && Aside(u, D, P - {x}) && LabelsIn(u)
  {
    PutGoesLeaves(t, Br(to), x, D, P);
    assert Close(t, to) == Put(t, Br(to));
  }

  // Set the current block aside and go on in another one.
  lemma ParkLeaves(t: State, x: BlockId, D: set<Label>, P: set<BlockId>)
    requires Aside(t, D, P) && x in P && t.cur.Some? && t.cur.value < |t.blocks| && LabelsIn(t)
    requires forall l :: l in t.labels && l !in D ==> t.labels[l] != t.cur.value
    ensures var u := Goes(t, x); var Q := P - {x} + {t.cur.value};
      Leaves(t, D, P, u, D, Q, true) && Aside(u, D, Q) && LabelsIn(u)
  {
  }

  lemma PadLeaves(t: State, D: set<Label>, P: set<BlockId>)
    requires Aside(t, D, P) && LabelsIn(t) && t.cur.Some? && t.cur.value < |t.blocks|
    ensures var u := Put(t, LandingPad); Leaves(t, D, P, u, D, P, true) && Aside(u, D, P) && LabelsIn(u)
  {
    var u := Put(t, LandingPad);
    forall b: BlockId | b < |t.blocks| && t.cur != Some(b)
      ensures Ended(t, b) == Ended(u, b)
    {
    }
  }

  // Only the code, the labels and the current block matter.
  lemma FieldsLeave(s: State, t: State, D: set<Label>, P: set<BlockId>)
    requires s.blocks == t.blocks && s.labels == t.labels && s.cur == t.cur
    ensures Leaves(s, D, P, t, D, P, true) && (Aside(s, D, P) ==> Aside(t, D, P)) && (LabelsIn(s) ==> LabelsIn(t))
  {
    forall b: BlockId
      ensures Loose(s, D, P, b) == Loose(t, D, P, b)
    {
    }
  }

  // A landing pad in the block x, taken from those set aside.
  lemma PadBlockLeaves(t: State, to: BlockId, y: BlockId, D: set<Label>, P: set<BlockId>)
    requires Aside(t, D, P) && LabelsIn(t) && t.cur.Some? && t.cur.value < |t.blocks| && y in P
    ensures var u := Goes(Put(Put(t, LandingPad), Br(to)), y);
      Leaves(t, D, P, u, D, P - {y}, true) && Aside(u, D, P - {y}) && LabelsIn(u)
  {
    hide Leaves, Aside, LabelsIn;
    PadLeaves(t, D, P);
    var t1 := Put(t, LandingPad);
    PutGoesLeaves(t1, Br(to), y, D, P);
    LeavesThen(t, D, P, t1, D, P, true, Goes(Put(t1, Br(to)), y), D, P - {y}, true);
  }

  // ----- nodes -----

  ghost predicate Clear(s: State, D: set<Label>, P: set<BlockId>, t: State, D': set<Label>, P': set<BlockId>,
                        safe: bool) {
    Leaves(s, D, P, t, D', P', safe) && Aside(t, D', P')
  }

  lemma ClosedNode(s: State, n: Node, p: Pos, pad: bool, fin: bool, tail: bool, D: set<Label>, P: set<BlockId>)
    requires Ready(s, D, Defs(n), p, pad, fin) && Wf(n, p, pad, fin, tail) && Aside(s, D, P)
    requires tail ==> !fin && s.cached.None?
    ensures Clear(s, D, P, Lower(s, n), D + Defs(n), P, SafeSwitches(n, pad))
    decreases n, 4
  {
    hide Inv, Mod, Touch, Leaves, Aside, IfReady, DeferReady, TryReady, Ended, OpenCur, Clear;
    match n
    case Expr(kids, insts, _) => ClosedExpr(s, n, p, pad, fin, D, P);
    case ExprStmt(x) => ClosedNode(s, x, p, pad, fin, false, D, P);
    case Block(stmts) => ClosedSeq(s, stmts, p, pad, fin, tail, D, P);
    case If(c, t, f) => ClosedIf(s, n, p, pad, fin, D, P);
    case Switch(v, vals, bodies) => ClosedSwitch(s, n, p, pad, fin, D, P);
    case Return(x) => SimpleHasNoLabels(x); ClosedReturn(s, x, p, pad, fin, D, P);
    case Goto(l) => ClosedGoto(s, l, D, P);
    case LabelDef(l) => ClosedLabel(s, l, D, P);
    case Defer(u, d) => ClosedDefer(s, n, p, pad, fin, D, P);
    case Excep(b, c, f) => ClosedExcep(s, n, p, D, P);
  }

  lemma ClosedExpr(s: State, n: Node, p: Pos, pad: bool, fin: bool, D: set<Label>, P: set<BlockId>)
    requires n.Expr? && Ready(s, D, Defs(n), p, pad, fin) && Wf(n, p, pad, fin, false) && Aside(s, D, P)
    ensures Clear(s, D, P, Lower(s, n), D + Defs(n), P, SafeSwitches(n, pad))
    decreases n, 3
  {
    hide Inv, Mod, Touch, Leaves, Aside, Ended, OpenCur, Calm, LowerSeq, LowerInsts, DefsSeq, WfSeq, SafeSwitchesSeq,
      EndSeq;
    ClosedSeq(s, n.kids, p, pad, fin, false, D, P);
    FrameSeq(s, n.kids, p, pad, fin, false, D);
    var t := LowerSeq(s, n.kids);
    var D1 := D + DefsSeq(n.kids);
    InvCalm(t, D1);
    InstsLeave(t, n.insts, D1, P);
    LeavesThen(s, D, P, t, D1, P, SafeSwitches(n, pad), LowerInsts(t, n.insts), D1, P, true);
  }

  lemma ClosedSeq(s: State, ns: seq<Node>, p: Pos, pad: bool, fin: bool, tail: bool, D: set<Label>, P: set<BlockId>)
    requires Ready(s, D, DefsSeq(ns), p, pad, fin) && WfSeq(ns, p, pad, fin, tail) && Aside(s, D, P)
    requires tail ==> !fin && s.cached.None?
    ensures Clear(s, D, P, LowerSeq(s, ns), D + DefsSeq(ns), P, SafeSwitchesSeq(ns, pad))
    decreases ns, 5
  {
    hide Inv, Mod, Touch, Leaves, Aside, Ended, OpenCur, Lower, Defs, Wf, SafeSwitches, End;
    if ns == [] {
      SameLeaves(s, D, P);
      assert D + DefsSeq(ns) == D;
    } else {
      var n := ns[0];
      var t := Lower(s, n);
      var last := |ns| == 1;
      ClosedNode(s, n, p, pad, fin, tail && last, D, P);
      FrameNode(s, n, p, pad, fin, tail && last, D);
      if last {
        assert ns[1..] == [];
        assert LowerSeq(s, ns) == t && DefsSeq(ns) == Defs(n);
      } else {
        var D1 := D + Defs(n);
        ClosedSeq(t, ns[1..], End(n, p, pad), pad, fin, tail, D1, P);
        assert D1 + DefsSeq(ns[1..]) == D + DefsSeq(ns);
        LeavesThen(s, D, P, t, D1, P, SafeSwitches(n, pad), LowerSeq(s, ns), D + DefsSeq(ns), P,
          SafeSwitchesSeq(ns[1..], pad));
      }
    }
  }

  lemma ClosedReturn(s: State, x: Node, p: Pos, pad: bool, fin: bool, D: set<Label>, P: set<BlockId>)
    requires Ready(s, D, {}, p, pad, fin) && Wf(Return(x), p, pad, fin, false) && Aside(s, D, P)
    ensures Clear(s, D, P, Lower(s, Return(x)), D + Defs(Return(x)), P, true)
  {
    SimpleHasNoLabels(x);
    assert D + Defs(Return(x)) == D;
    var u := Lower(s, Return(x));
    if fin {
      if s.cur.Some? {
        var c := s.cur.value;
        assert u.blocks[c][|u.blocks[c]| - 1] == Br(s.fin.value);
      }
    } else {
      LowerSimple(s, x);
      var t := LowerInsts(s, Flat(x));
      WalkReturnExpr(s, x, D);
      WalkLoses(s, t, {}, D, P);
      var xs := ReturnFlat(x);
      InvCalm(s, D);
      InstsLeave(s, Flat(x), D, P) by { assert forall k :: 0 <= k < |xs| ==> Flat(x)[k] == xs[k]; }
      assert D + {} == D;
      DiesLeaves(t, D, P);
      LeavesThen(s, D, P, t, D, P, true, u, D, P, true);
    }
  }

  lemma DiesLeaves(t: State, D: set<Label>, P: set<BlockId>)
    requires Aside(t, D, P) && (t.cur.Some? ==> Ended(t, t.cur.value))
    ensures Clear(t, D, P, Dies(t), D, P, true)
  {
  }

  lemma ClosedGoto(s: State, l: Label, D: set<Label>, P: set<BlockId>)
    requires Inv(s, D) && OpenCur(s) && Aside(s, D, P)
    ensures Clear(s, D, P, Lower(s, Goto(l)), D + Defs(Goto(l)), P, true)
  {
    hide Inv, Aside, Leaves, Close, LabelBlock, OpenCur, Dies;
    assert D + Defs(Goto(l)) == D;
    var s1 := LabelBlock(s, l);
    LabelLeaves(s, l, D, P);
    LabelBlockOpen(s, l, D);
    CloseDiesLeaves(s1, s1.labels[l], D, P);
    GotoIs(s, l);
    LeavesThen(s, D, P, s1, D, P, true, Dies(Close(s1, s1.labels[l])), D, P, true);
  }

  lemma GotoIs(s: State, l: Label)
    ensures l in LabelBlock(s, l).labels
    ensures Lower(s, Goto(l)) == Dies(Close(LabelBlock(s, l), LabelBlock(s, l).labels[l]))
  {
  }

  lemma LabelBlockOpen(s: State, l: Label, D: set<Label>)
    requires Inv(s, D) && OpenCur(s)
    ensures var s1 := LabelBlock(s, l); OpenCur(s1) && l in s1.labels && (s1.cur.Some? ==> s1.cur.value < |s1.blocks|)
  {
  }

  lemma CloseDiesLeaves(t: State, to: BlockId, D: set<Label>, P: set<BlockId>)
    requires Aside(t, D, P) && OpenCur(t) && (t.cur.Some? ==> t.cur.value < |t.blocks|)
    ensures Clear(t, D, P, Dies(Close(t, to)), D, P, true)
  {
    var u := Dies(Close(t, to));
    if t.cur.Some? {
      var c := t.cur.value;
      assert u.blocks[c][|u.blocks[c]| - 1] == Br(to);
    }
    forall b: BlockId | Loose(u, D, P, b)
      ensures Loose(t, D, P, b)
    {
    }
  }

  lemma LabelLeaves(s: State, l: Label, D: set<Label>, P: set<BlockId>)
    requires Inv(s, D) && Aside(s, D, P)
    ensures var s1 := LabelBlock(s, l); Clear(s, D, P, s1, D, P, true)
  {
    var s1 := LabelBlock(s, l);
    assert l !in s.labels ==> s1.labels[l] == |s.blocks|;
    forall b: BlockId | Loose(s1, D, P, b)
      ensures Loose(s, D, P, b)
    {
    }
    forall b: BlockId | Loose(s, D, P, b)
      ensures Loose(s1, D, P, b)
    {
      assert s1.blocks[b] == s.blocks[b];
    }
  }

  lemma LabelBlockFacts(s: State, l: Label, D: set<Label>)
    requires Inv(s, D) && OpenCur(s)
    ensures Inv(LabelBlock(s, l), D) && l in LabelBlock(s, l).labels
  {
    hide Inv, Mod, Touch, Prog, OpenCur;
    WalkLabelBlock(s, l, {}, D);
    ProgInv(s, LabelBlock(s, l), Book(Touch(s, {}), D, {}, {}, {}));
  }

  lemma ClosedLabel(s: State, l: Label, D: set<Label>, P: set<BlockId>)
    requires Inv(s, D) && OpenCur(s) && Aside(s, D, P) && l !in D
    ensures Clear(s, D, P, Lower(s, LabelDef(l)), D + Defs(LabelDef(l)), P, true)
  {
    hide Inv, Mod, Touch, Leaves, Aside, Ended, OpenCur, Prog, LabelBlock;
    LabelBlockFacts(s, l, D);
    var s1 := LabelBlock(s, l);
    LabelLeaves(s, l, D, P);
    var b1 := s1.labels[l];
    LabelIs(s, l);
    LabelPutLeaves(s1, l, D, P);
    LeavesThen(s, D, P, s1, D, P, true, Goes(Put(s1, Br(b1)), b1), D + {l}, P, true);
  }

  lemma LabelPutLeaves(s1: State, l: Label, D: set<Label>, P: set<BlockId>)
    requires Inv(s1, D) && l in s1.labels && l !in D && Aside(s1, D, P)
    ensures var b := s1.labels[l]; Clear(s1, D, P, Goes(Put(s1, Br(b)), b), D + {l}, P, true)
  {
    var b1 := s1.labels[l];
    var u := Goes(Put(s1, Br(b1)), b1);
    if s1.cur.Some? {
      var c := s1.cur.value;
      assert u.blocks[c][|u.blocks[c]| - 1] == Br(b1);
    }
    forall b: BlockId | Loose(u, D + {l}, P, b)
      ensures Loose(s1, D, P, b)
    {
    }
  }

  // ----- if -----

  lemma InvFacts(s: State, D: set<Label>)
    requires Inv(s, D)
    ensures LabelsIn(s) && (s.cur.Some? ==> s.cur.value < |s.blocks|)
    ensures s.cur.Some? ==> forall l :: l in s.labels && l !in D ==> s.labels[l] != s.cur.value
  {
  }

  lemma NodeInv(s: State, n: Node, p: Pos, pad: bool, fin: bool, tail: bool, D: set<Label>)
    requires Ready(s, D, Defs(n), p, pad, fin) && Wf(n, p, pad, fin, tail)
    requires tail ==> !fin && s.cached.None?
    ensures var t := Lower(s, n);
      && Inv(t, D + Defs(n)) && LabelsIn(t) && (t.cur.Some? ==> t.cur.value < |t.blocks|)
      && (!tail ==> OpenCur(t)) && t.pads == s.pads && t.fin == s.fin && (t.cur.None? <==> End(n, p, pad) == Dead)
  {
    hide Inv, Mod, Touch, Wf, Lower, Defs, LabelsIn, OpenCur;
    FrameNode(s, n, p, pad, fin, tail, D);
    InvFacts(Lower(s, n), D + Defs(n));
  }

  lemma ClosedIf(s: State, n: Node, p: Pos, pad: bool, fin: bool, D: set<Label>, P: set<BlockId>)
    requires n.If? && Ready(s, D, Defs(n), p, pad, fin) && Wf(n, p, pad, fin, false) && Aside(s, D, P)
    ensures Clear(s, D, P, Lower(s, n), D + Defs(n), P, SafeSwitches(n, pad))
    decreases n, 3
  {
    hide Inv, Mod, Touch, Lower, Wf, Defs, Gotos, FirstReturn, End, Leaves, Aside, Ended, OpenCur, Fresh, Put, Goes,
      Close, LabelsIn, SafeSwitches, Lowered, Ready;
    var If(c, t, f) := n;
    IfUnfolds(c, t, f, p, pad, fin);
    SubReady(s, D, Defs(n), Defs(c), p, pad, fin);
    FrameIf(s, n, p, pad, fin, D);
    var s1 := Lower(s, c);
    var v := Val(c);
    var b := |s1.blocks|;
    var D1 := D + Defs(c);
    ClosedNode(s, c, p, pad, fin, false, D, P);
    NodeInv(s, c, p, pad, fin, false, D);
    // to the true branch
    FreshLeaves(s1, 3, D1, P);
    var Q := P + Range(b, 3);
    var s2 := Fresh(s1, 3);
    LeavesThen(s, D, P, s1, D1, P, SafeSwitches(c, pad), s2, D1, Q, true);
    FreshFields(s1, 3);
    PutGoesLeaves(s2, CondBr(v, b, b + 2), b, D1, Q);
    var sT := IfThen(s1, v);
    LeavesThen(s, D, P, s2, D1, Q, SafeSwitches(c, pad), sT, D1, Q - {b}, true);
    ClosedNode(sT, t, Start, pad, fin, false, D1, Q - {b});
    NodeInv(sT, t, Start, pad, fin, false, D1);
    var s4 := Lower(sT, t);
    var D2 := D1 + Defs(t);
    LeavesThen(s, D, P, sT, D1, Q - {b}, SafeSwitches(c, pad), s4, D2, Q - {b}, SafeSwitches(t, pad));
    // to the false branch
    CloseGoesLeaves(s4, b + 1, b + 2, D2, Q - {b});
    var sF := IfElse(s1, v, t);
    var Q2 := Q - {b} - {b + 2};
    LeavesThen(s, D, P, s4, D2, Q - {b}, SafeSwitches(c, pad) && SafeSwitches(t, pad), sF, D2, Q2, true);
    ClosedNode(sF, f, Start, pad, fin, false, D2, Q2);
    NodeInv(sF, f, Start, pad, fin, false, D2);
    var s5 := Lower(sF, f);
    var D3 := D2 + Defs(f);
    LeavesThen(s, D, P, sF, D2, Q2, SafeSwitches(c, pad) && SafeSwitches(t, pad), s5, D3, Q2, SafeSwitches(f, pad));
    // to the end
    CloseGoesLeaves(s5, b + 1, b + 1, D3, Q2);
    AsideBelow(s1, D1, P);
    assert Q2 - {b + 1} == P;
    assert D3 == D + Defs(n);
    IfTailIs(s, c, t, f);
    LeavesThen(s, D, P, s5, D3, Q2, SafeSwitches(n, pad), Lower(s, n), D3, P, true);
  }

  lemma FreshFields(s: State, n: nat)
    requires s.cur.Some? ==> s.cur.value < |s.blocks|
    ensures var t := Fresh(s, n); t.cur == s.cur && |t.blocks| == |s.blocks| + n && SameFields(s, t)
  {
  }

  lemma AsideBelow(s: State, D: set<Label>, P: set<BlockId>)
    requires Aside(s, D, P)
    ensures forall x :: x in P ==> x < |s.blocks|
  {
  }

  // ----- switch -----

  // Go on in a block set aside, from no block.
  lemma ResumeLeaves(t: State, x: BlockId, D: set<Label>, P: set<BlockId>)
    requires Aside(Dies(t), D, P) && x in P && LabelsIn(t)
    ensures Leaves(Dies(t), D, P, Goes(t, x), D, P - {x}, true) && Aside(Goes(t, x), D, P - {x})
  {
  }

  // Set the current block aside and go nowhere.
  lemma SetAsideLeaves(t: State, D: set<Label>, P: set<BlockId>)
    requires Aside(t, D, P) && t.cur.Some? && t.cur.value < |t.blocks|
    requires forall l :: l in t.labels && l !in D ==> t.labels[l] != t.cur.value
    ensures var Q := P + {t.cur.value}; Leaves(t, D, P, Dies(t), D, Q, true) && Aside(Dies(t), D, Q)
  {
  }

  // A case body is left by its branch to the epilog, by having ended elsewhere, or, when the walk
  // has wandered into another block, with that block open for good.
  lemma BodyEnds(t: State, b: BlockId, epilog: BlockId, D: set<Label>, P: set<BlockId>, q: Pos)
    requires Aside(t, D, P) && OpenCur(t) && (t.cur.Some? ==> t.cur.value < |t.blocks|) && b < |t.blocks|
    requires t.cur != Some(b) ==> Ended(t, b)
    requires (t.cur.None? <==> q == Dead) && (t.cur == Some(b) <==> q == Start)
    requires forall l :: l in t.labels && l !in D && t.cur.Some? ==> t.labels[l] != t.cur.value
    ensures var u := if Ended(t, b) then t else Append(t, b, Br(epilog));
      Clear(t, D, P, Dies(u), D, P, q != Moved)
  {
    var u := if Ended(t, b) then t else Append(t, b, Br(epilog));
    if t.cur == Some(b) {
      assert u.blocks[b][|u.blocks[b]| - 1] == Br(epilog);
    }
    if q == Moved {
      assert Loose(Dies(u), D, P, t.cur.value);
    }
  }

  lemma ClosedBody(s: State, n: Node, b: BlockId, epilog: BlockId, pad: bool, fin: bool, D: set<Label>, P: set<BlockId>)
    requires Ready(Goes(s, b), D, Defs(n), Start, pad, fin) && Wf(n, Start, pad, fin, false)
    requires Aside(Dies(s), D, P) && b in P && b < |s.blocks| && LabelsIn(s)
    ensures Clear(Dies(s), D, P, Dies(CaseTail(s, n, b, epilog)), D + Defs(n), P - {b},
                  SafeSwitches(n, pad) && End(n, Start, pad) != Moved)
    decreases n, 5
  {
    hide Inv, Mod, Touch, Lower, Wf, Defs, End, Leaves, Aside, OpenCur, LabelsIn, SafeSwitches, Ready;
    var s1 := Goes(s, b);
    var t := Lower(s1, n);
    var D1 := D + Defs(n);
    var Q := P - {b};
    ResumeLeaves(s, b, D, P);
    ClosedNode(s1, n, Start, pad, fin, false, D, Q);
    NodeInv(s1, n, Start, pad, fin, false, D);
    FrameNode(s1, n, Start, pad, fin, false, D);
    InvFacts(t, D1);
    LeavesThen(Dies(s), D, P, s1, D, Q, true, t, D1, Q, SafeSwitches(n, pad));
    WalkedLonger(s1, t, Defs(n), D);
    BodyEnds(t, b, epilog, D1, Q, End(n, Start, pad));
    LeavesThen(Dies(s), D, P, t, D1, Q, SafeSwitches(n, pad), Dies(CaseTail(s, n, b, epilog)), D1, Q,
      End(n, Start, pad) != Moved);
  }

  lemma WalkedLonger(s: State, t: State, L: set<Label>, D: set<Label>)
    requires Walked(s, t, L, D)
    ensures |s.blocks| <= |t.blocks|
  {
  }

  lemma ClosedBodies(s0: State, s: State, ns: seq<Node>, b: BlockId, epilog: BlockId, pad: bool, fin: bool, k: Book,
                     P: set<BlockId>)
    requires Prog(s0, s, k) && Range(b, |ns|) <= k.R && epilog < |s.blocks|
    requires k.D !! DefsSeq(ns) && LabelBlocks(s0, DefsSeq(ns)) <= k.T
    requires (pad <==> s.pads != []) && (fin <==> s.fin.Some?) && WfBodies(ns, pad, fin)
    requires Aside(Dies(s), k.D, P) && Range(b, |ns|) <= P
    ensures Clear(Dies(s), k.D, P, Dies(LowerBodies(s, ns, b, epilog)), k.D + DefsSeq(ns), P - Range(b, |ns|),
      SafeBodies(ns, pad))
    decreases ns, 6
  {
    hide Inv, Mod, Touch, Prog, LabelBlocks, Lower, Wf, Defs, End, Leaves, Aside, LabelsIn, Ready, CaseTail,
      LowerBodies, SafeSwitches, Gotos, FirstReturn, FirstReturnSeq;
    if ns == [] {
      assert k.D + DefsSeq(ns) == k.D && P - Range(b, 0) == P;
      assert LowerBodies(s, ns, b, epilog) == s by { NoBodies(s, b, epilog); }
      SameLeaves(Dies(s), k.D, P);
    } else {
      LabelBlocksPart(s0, Defs(ns[0]), DefsSeq(ns));
      LabelBlocksPart(s0, DefsSeq(ns[1..]), DefsSeq(ns));
      assert b in Range(b, |ns|);
      FrameBody(s0, s, ns[0], b, epilog, pad, fin, k);
      ReservedIn(s0, s, b, k);
      ProgInv(s0, s, k);
      InvFacts(s, k.D);
      ClosedBody(s, ns[0], b, epilog, pad, fin, k.D, P);
      var t := CaseTail(s, ns[0], b, epilog);
      var k1 := Book(k.T, k.D + Defs(ns[0]), k.R - {b}, k.E + {b}, k.P);
      var safe := SafeSwitches(ns[0], pad) && End(ns[0], Start, pad) != Moved;
      assert Range(b + 1, |ns| - 1) <= P - {b};
      ClosedBodies(s0, t, ns[1..], b + 1, epilog, pad, fin, k1, P - {b});
      BodiesIs(s, ns, b, epilog);
      assert k1.D + DefsSeq(ns[1..]) == k.D + DefsSeq(ns);
      assert P - {b} - Range(b + 1, |ns| - 1) == P - Range(b, |ns|);
      LeavesThen(Dies(s), k.D, P, Dies(t), k1.D, P - {b}, safe,
                 Dies(LowerBodies(s, ns, b, epilog)), k.D + DefsSeq(ns), P - Range(b, |ns|), SafeBodies(ns[1..], pad));
    }
  }

  lemma SwitchStartLeaves(s1: State, m: nat, D: set<Label>, P: set<BlockId>)
    requires Aside(s1, D, P) && LabelsIn(s1) && s1.cur.Some? && s1.cur.value < |s1.blocks|
    requires forall l :: l in s1.labels && l !in D ==> s1.labels[l] != s1.cur.value
    ensures var Q := P + Range(|s1.blocks|, m + 1) + {s1.cur.value}; var s2 := BodiesStart(s1, m);
      Clear(s1, D, P, s2, D, Q, true) && s2 == Dies(s2)
  {
    hide Leaves, Aside, LabelsIn, Fresh;
    var s2 := Fresh(s1, m + 1);
    var Q := P + Range(|s1.blocks|, m + 1);
    FreshLeaves(s1, m + 1, D, P);
    FreshFields(s1, m + 1);
    SetAsideLeaves(s2, D, Q);
    LeavesThen(s1, D, P, s2, D, Q, true, Dies(s2), D, Q + {s1.cur.value}, true);
  }

  // From the bodies to the end: the switch instruction closes the block it was set aside in.
  lemma SwitchEndLeaves(s3: State, c: BlockId, i: Instr, x: BlockId, D: set<Label>, P: set<BlockId>)
    requires Aside(Dies(s3), D, P) && LabelsIn(s3) && c in P && x in P && x != c && IsTerm(i)
    ensures Clear(Dies(s3), D, P, Goes(Put(Goes(s3, c), i), x), D, P - {c} - {x}, true)
  {
    AsideBelow(Dies(s3), D, P);
    hide Leaves, Aside, Put;
    ResumeLeaves(s3, c, D, P);
    PutGoesLeaves(Goes(s3, c), i, x, D, P - {c});
    LeavesThen(Dies(s3), D, P, Goes(s3, c), D, P - {c}, true, Goes(Put(Goes(s3, c), i), x), D, P - {c} - {x}, true);
  }

  lemma AllUsed(P: set<BlockId>, b: BlockId, m: nat, c: BlockId)
    requires c !in P && forall x :: x in P ==> x < b
    ensures P + Range(b, m + 1) + {c} - Range(b, m) - {c} - {b + m} == P
  {
  }

  lemma ClosedSwitch(s: State, n: Node, p: Pos, pad: bool, fin: bool, D: set<Label>, P: set<BlockId>)
    requires n.Switch? && Ready(s, D, Defs(n), p, pad, fin) && Wf(n, p, pad, fin, false) && Aside(s, D, P)
    ensures Clear(s, D, P, Lower(s, n), D + Defs(n), P, SafeSwitches(n, pad))
    decreases n, 3
  {
    hide Inv, Mod, Touch, Prog, LabelBlocks, Lower, LowerBodies, Wf, WfBodies, Defs, DefsSeq, Gotos, FirstReturn,
      FirstReturnSeq, End, Leaves, Aside, Ended, OpenCur, Put, LabelsIn, SafeSwitches, SafeBodies, Lowered, Ready,
      BodiesStart, Arms, Range, Loose, DefaultCase, Flat, Simple, OrElse, Dies, Targets;
    var m := |n.bodies|;
    SwitchUnfolds(n, p, pad, fin);
    SubReady(s, D, Defs(n), Defs(n.sel), p, pad, fin);
    ReadyIs(s, D, Defs(n), p, pad, fin);
    var k := SwitchBook(s, n, p, pad, fin, D);
    var s1 := Lower(s, n.sel);
    var b := |s1.blocks|;
    var c := s1.cur.value;
    var D1 := D + Defs(n.sel);
    ClosedNode(s, n.sel, p, pad, fin, false, D, P);
    NodeInv(s, n.sel, p, pad, fin, false, D);
    InvFacts(s1, D1);
    var s2 := BodiesStart(s1, m);
    var Q := P + Range(b, m + 1) + {c};
    SwitchStartLeaves(s1, m, D1, P);
    LeavesThen(s, D, P, s1, D1, P, SafeSwitches(n.sel, pad), s2, D1, Q, true);
    LabelBlocksPart(s, DefsSeq(n.bodies), Defs(n));
    BodiesStartBlocks(s1, m);
    var k2 := BodiesBook(s1, m, k);
    ClosedBodies(s, s2, n.bodies, b, b + m, pad, fin, k2, Q);
    FrameBodies(s, s2, n.bodies, b, b + m, pad, fin, k2);
    var s3 := LowerBodies(s2, n.bodies, b, b + m);
    var D2 := D1 + DefsSeq(n.bodies);
    var Q2 := Q - Range(b, m);
    LeavesThen(s, D, P, s2, D1, Q, SafeSwitches(n.sel, pad), Dies(s3), D2, Q2, SafeBodies(n.bodies, pad));
    ProgInv(s, s3, Book(k2.T, k2.D + DefsSeq(n.bodies), k2.R - Range(b, m), k2.E + Range(b, m), k2.P));
    InvFacts(s3, D2);
    var i := SwitchBr(Val(n.sel), b + DefaultCase(n.vals), Arms(n.vals, b));
    SwitchEndLeaves(s3, c, i, b + m, D2, Q2);
    SwitchEnd(s, n);
    AsideBelow(s1, D1, P);
    AsideNotCur(s1, D1, P);
    AllUsed(P, b, m, c);
    assert D2 == D + Defs(n);
    LeavesThen(s, D, P, Dies(s3), D2, Q2, SafeSwitches(n, pad), Lower(s, n), D2, P, true);
  }

  lemma AsideNotCur(s: State, D: set<Label>, P: set<BlockId>)
    requires Aside(s, D, P)
    ensures forall x :: x in P ==> s.cur != Some(x)
  {
  }

  // ----- defer -----

  lemma ClosedDefer(s: State, n: Node, p: Pos, pad: bool, fin: bool, D: set<Label>, P: set<BlockId>)
    requires n.Defer? && Ready(s, D, Defs(n), p, pad, fin) && Wf(n, p, pad, fin, false) && Aside(s, D, P)
    ensures Clear(s, D, P, Lower(s, n), D + Defs(n), P, SafeSwitches(n, pad))
  {
    hide Inv, Mod, Touch, Lower, Leaves, Aside, Calm, Ended, OpenCur, LabelsIn, LowerInsts, DeferReady, DeferTail,
      DeferTry, DeferCatch, Fresh, Put;
    var Defer(u, d) := n;
    SimpleHasNoLabels(u);
    SimpleHasNoLabels(d);
    assert D + Defs(n) == D;
    FrameDefer(s, n, p, pad, fin, D);
    InvFacts(s, D);
    var b := |s.blocks|;
    var Q := P + Range(b, 3);
    // the finish block
    FreshLeaves(s, 3, D, P);
    FreshFields(s, 3);
    PutGoesLeaves(Fresh(s, 3), Br(b), b, D, Q);
    LeavesThen(s, D, P, Fresh(s, 3), D, Q, true, DeferStart(s), D, Q - {b}, true);
    assert !Ended(Fresh(s, 3), b) by { FreshOpen(s, 3, b); }
    // the undefer call
    DeferTryLeaves(s, u, D, Q - {b});
    LeavesThen(s, D, P, DeferStart(s), D, Q - {b}, true, DeferTry(s, u), D, Q - {b}, true);
    DeferCatchLeaves(s, n, D, Q - {b});
    AsideNotCur(DeferTry(s, u), D, Q - {b});
    var c := DeferTry(s, u).cur.value;
    AsideBelow(s, D, P);
    assert Q - {b} - {b + 1} + {c} - {b + 2} - {c} == P;
    LeavesThen(s, D, P, DeferTry(s, u), D, Q - {b}, true, Lower(s, n), D, P, true);
  }

  lemma FreshOpen(s: State, n: nat, b: BlockId)
    requires |s.blocks| <= b < |s.blocks| + n
    ensures !Ended(Fresh(s, n), b)
  {
  }

  lemma DeferTryLeaves(s: State, u: Node, D: set<Label>, Q: set<BlockId>)
    requires PlainExpr(u) && Calm(DeferStart(s), D) && Aside(DeferStart(s), D, Q)
    ensures Clear(DeferStart(s), D, Q, DeferTry(s, u), D, Q, true) && Calm(DeferTry(s, u), D)
  {
    hide Lower, Leaves, Aside, LabelsIn, LowerInsts, DeferStart;
    var s1 := DeferStart(s).(pads := s.pads + [|s.blocks| + 1]);
    FieldsLeave(DeferStart(s), s1, D, Q);
    LowerSimple(s1, u);
    var t := LowerInsts(s1, Flat(u));
    assert Calm(s1, D) by { CalmFields(DeferStart(s), s1, D); }
    InstsLeave(s1, Flat(u), D, Q);
    FieldsLeave(t, DeferTry(s, u), D, Q);
    CalmFields(t, DeferTry(s, u), D);
    LeavesThen(DeferStart(s), D, Q, s1, D, Q, true, t, D, Q, true);
    LeavesThen(DeferStart(s), D, Q, t, D, Q, true, DeferTry(s, u), D, Q, true);
  }

  lemma CalmFields(s: State, t: State, D: set<Label>)
    requires Calm(s, D) && s.blocks == t.blocks && s.labels == t.labels && s.cur == t.cur
    ensures Calm(t, D)
  {
  }

  lemma CalmIs(s: State, D: set<Label>)
    requires Calm(s, D)
    ensures LabelsIn(s)
    ensures s.cur.Some? ==>
              s.cur.value < |s.blocks| && forall l :: l in s.labels && l !in D ==> s.labels[l] != s.cur.value
  {
  }

  // From the end of the undefer call, set aside, through the landing pad and the catch block, and back.
  lemma DeferCatchLeaves(s: State, n: Node, D: set<Label>, Q: set<BlockId>)
    requires n.Defer? && PlainExpr(n.checkdefer) && DeferReady(s, n.undefer, n.checkdefer)
    requires var s2 := DeferTry(s, n.undefer); var b := |s.blocks|;
      Calm(s2, D) && Aside(s2, D, Q) && b + 1 in Q && b + 2 in Q
    ensures var b := |s.blocks|; var c := DeferTry(s, n.undefer).cur;
      c.Some? && Clear(DeferTry(s, n.undefer), D, Q, Lower(s, n), D, Q - {b + 1} + {c.value} - {b + 2} - {c.value},
        true)
  {
    hide Lower, Leaves, Aside, LabelsIn, LowerInsts, DeferTry, DeferCatch, DeferReady, Put, Append, Calm, Ended;
    var b := |s.blocks|;
    DeferEnd(s, n);
    DeferCatchIs(s, n);
    var s2 := DeferTry(s, n.undefer);
    var c := s2.cur.value;
    CalmIs(s2, D);
    AsideNotCur(s2, D, Q);
    AsideBelow(s2, D, Q);
    ParkLeaves(s2, b + 1, D, Q);
    var Q1 := Q - {b + 1} + {c};
    var t := Goes(s2, b + 1);
    PadBlockLeaves(t, b + 2, b + 2, D, Q1);
    var s3 := DeferCatch(s, n.undefer);
    var Q2 := Q1 - {b + 2};
    LeavesThen(s2, D, Q, t, D, Q1, true, s3, D, Q2, true);
    assert !Ended(s3, b + 2) by { EmptyOpen(s3, b + 2); }
    CatchCalm(t, b + 2, D, Q1);
    LowerSimple(s3, n.checkdefer);
    var s5 := LowerInsts(s3, Flat(n.checkdefer));
    InstsLeave(s3, Flat(n.checkdefer), D, Q2);
    LeavesThen(s2, D, Q, s3, D, Q2, true, s5, D, Q2, true);
    PutIs(s5, Br(b));
    CalmIs(s5, D);
    PutGoesLeaves(s5, Br(b), c, D, Q2);
    LeavesThen(s2, D, Q, s5, D, Q2, true, Goes(Put(s5, Br(b)), c), D, Q2 - {c}, true);
  }

  lemma EmptyOpen(s: State, b: BlockId)
    requires b < |s.blocks| && s.blocks[b] == []
    ensures !Ended(s, b)
  {
  }

  lemma CatchCalm(t: State, y: BlockId, D: set<Label>, P: set<BlockId>)
    requires Aside(t, D, P) && LabelsIn(t) && t.cur.Some? && t.cur.value < |t.blocks| && y in P
    requires !Ended(Goes(Put(Put(t, LandingPad), Br(y)), y), y)
    ensures Calm(Goes(Put(Put(t, LandingPad), Br(y)), y), D)
  {
  }

  // ----- try statements -----

  ghost predicate EndedCur(t: State) {
    t.cur.Some? ==> t.cur.value < |t.blocks| && Ended(t, t.cur.value)
  }

  lemma PutEndLeaves(t: State, i: Instr, D: set<Label>, P: set<BlockId>)
    requires Aside(t, D, P) && IsTerm(i) && LabelsIn(t) && (t.cur.Some? ==> t.cur.value < |t.blocks|)
    ensures var u := Put(t, i); Leaves(t, D, P, u, D, P, true) && Aside(u, D, P) && LabelsIn(u) && EndedCur(u)
  {
    var u := Put(t, i);
    forall b: BlockId | b < |t.blocks| && t.cur != Some(b)
      ensures Ended(t, b) == Ended(u, b)
    {
    }
  }

  lemma GoesLeaves(t: State, x: BlockId, D: set<Label>, P: set<BlockId>)
    requires Aside(t, D, P) && EndedCur(t) && x in P && LabelsIn(t)
    ensures var u := Goes(t, x); Leaves(t, D, P, u, D, P - {x}, true) && Aside(u, D, P - {x}) && LabelsIn(u)
  {
  }

  lemma FreshEnded(t: State, n: nat)
    requires EndedCur(t)
    ensures EndedCur(Fresh(t, n))
  {
  }

  // A walk closed by a branch, if it is still alive.
  lemma BrLeaves(t: State, to: BlockId, D: set<Label>, P: set<BlockId>, pads: seq<BlockId>, fin: Option<BlockId>)
    requires Inv(t, D) && OpenCur(t) && Aside(t, D, P)
    ensures var u := BrIfLive(t, to).(pads := pads, fin := fin);
      Leaves(t, D, P, u, D, P, true) && Aside(u, D, P) && LabelsIn(u) && EndedCur(u)
  {
    InvFacts(t, D);
    hide Inv, Leaves, Aside, Put, OpenCur;
    PutEndLeaves(t, Br(to), D, P);
    var u := BrIfLive(t, to);
    if t.cur.None? { PutDead(t, Br(to)); }
    FieldsLeave(u, u.(pads := pads, fin := fin), D, P);
    EndedFields(u, u.(pads := pads, fin := fin));
    LeavesThen(t, D, P, u, D, P, true, u.(pads := pads, fin := fin), D, P, true);
  }

  lemma PutDead(t: State, i: Instr)
    requires t.cur.None?
    ensures Put(t, i) == t
  {
  }

  lemma EndedFields(s: State, t: State)
    requires EndedCur(s) && s.blocks == t.blocks && s.cur == t.cur
    ensures EndedCur(t)
  {
  }

  lemma BodyReady(s: State, n: Node, p: Pos, D: set<Label>)
    requires n.Excep? && TryReady(s, n, p, D)
    ensures Ready(TryStart(s), D, Defs(n.body), p, true, true)
  {
  }

  lemma TryLeaves(s: State, n: Node, p: Pos, D: set<Label>, P: set<BlockId>)
    requires n.Excep? && TryReady(s, n, p, D) && Wf(n.body, p, true, true, false)
    requires Ready(s, D, Defs(n.body), p, false, false) && Aside(s, D, P)
    ensures var b := |s.blocks|; var s3 := TryPart(s, n.body); var Q := P + Range(b, 2);
      && Clear(s, D, P, s3, D + Defs(n.body), Q, SafeSwitches(n.body, true))
      && LabelsIn(s3) && EndedCur(s3)
    decreases n, 2
  {
    hide Inv, Mod, Touch, Lower, Wf, Defs, Leaves, Aside, OpenCur, Ended, LabelsIn, SafeSwitches, Fresh, TryReady,
      Ready, EndedCur, Gotos, FirstReturn, CatchStart, CatchEnd, CatchPart;
    ReadyIs(s, D, Defs(n.body), p, false, false);
    InvFacts(s, D);
    BodyReady(s, n, p, D);
    var b := |s.blocks|;
    var Q := P + Range(b, 2);
    var s0 := TryStart(s);
    FreshLeaves(s, 2, D, P);
    FieldsLeave(Fresh(s, 2), s0, D, Q);
    LeavesThen(s, D, P, Fresh(s, 2), D, Q, true, s0, D, Q, true);
    ClosedNode(s0, n.body, p, true, true, false, D, Q);
    NodeInv(s0, n.body, p, true, true, false, D);
    var t := Lower(s0, n.body);
    var D1 := D + Defs(n.body);
    LeavesThen(s, D, P, s0, D, Q, true, t, D1, Q, SafeSwitches(n.body, true));
    BrLeaves(t, b + 1, D1, Q, s.pads, t.fin);
    TryPartIs(s, n.body);
    LeavesThen(s, D, P, t, D1, Q, SafeSwitches(n.body, true), TryPart(s, n.body), D1, Q, true);
  }

  lemma TryPartIs(s: State, body: Node)
    ensures var t := Lower(TryStart(s), body);
      TryPart(s, body) == BrIfLive(t, |s.blocks| + 1).(pads := s.pads, fin := t.fin)
  {
    hide Lower;
  }

  lemma CatchStartLeaves(s3: State, b: BlockId, D: set<Label>, Q: set<BlockId>)
    requires Aside(s3, D, Q) && LabelsIn(s3) && EndedCur(s3) && b in Q
    ensures var j := |s3.blocks|; var s5 := CatchStart(s3, b); var Q1 := Q - {b} + Range(j, 2) - {j};
      Clear(s3, D, Q, s5, D, Q1, true)
  {
    var j := |s3.blocks|;
    AsideBelow(s3, D, Q);
    hide Leaves, Aside, LabelsIn, EndedCur, Put;
    EndedIn(s3);
    FreshLeaves(s3, 1, D, Q);
    FreshEnded(s3, 1);
    var t1 := Fresh(s3, 1);
    var Q1 := Q + Range(j, 1);
    GoesLeaves(t1, b, D, Q1);
    var t2 := Goes(t1, b);
    LeavesThen(s3, D, Q, t1, D, Q1, true, t2, D, Q1 - {b}, true);
    PadLeaves(t2, D, Q1 - {b});
    var t3 := Put(t2, LandingPad);
    LeavesThen(s3, D, Q, t2, D, Q1 - {b}, true, t3, D, Q1 - {b}, true);
    PutLength(t2, LandingPad);
    PutLength(t3, Br(j));
    PutEndLeaves(t3, Br(j), D, Q1 - {b});
    var t4 := Put(t3, Br(j));
    LeavesThen(s3, D, Q, t3, D, Q1 - {b}, true, t4, D, Q1 - {b}, true);
    EndedIn(t4);
    FreshLeaves(t4, 1, D, Q1 - {b});
    FreshEnded(t4, 1);
    var Q2 := Q1 - {b} + Range(j + 1, 1);
    var t5 := Fresh(t4, 1);
    LeavesThen(s3, D, Q, t4, D, Q1 - {b}, true, t5, D, Q2, true);
    GoesLeaves(t5, j, D, Q2);
    LeavesThen(s3, D, Q, t5, D, Q2, true, Goes(t5, j), D, Q2 - {j}, true);
    assert Q2 - {j} == Q - {b} + Range(j, 2) - {j};
    var s5 := CatchStart(s3, b);
    FieldsLeave(Goes(t5, j), s5, D, Q2 - {j});
    LeavesThen(s3, D, Q, Goes(t5, j), D, Q2 - {j}, true, s5, D, Q2 - {j}, true);
  }

  lemma EndedIn(t: State)
    requires EndedCur(t)
    ensures t.cur.Some? ==> t.cur.value < |t.blocks|
  {
  }

  lemma PutLength(t: State, i: Instr)
    ensures |Put(t, i).blocks| == |t.blocks| && Put(t, i).cur == t.cur
  {
  }

  // From the catch code to the finally block, by way of the second landing pad.
  lemma CatchPadLeaves(s7: State, j: BlockId, b: BlockId, D: set<Label>, Q: set<BlockId>)
    requires Aside(s7, D, Q) && LabelsIn(s7) && EndedCur(s7) && j in Q && b in Q && j != b
    ensures Clear(s7, D, Q, Goes(Put(Put(Goes(s7, j), LandingPad), Br(b)), b), D, Q - {j} - {b}, true)
  {
    AsideBelow(s7, D, Q);
    hide Leaves, Aside, LabelsIn, EndedCur, Put;
    GoesLeaves(s7, j, D, Q);
    var u := Goes(s7, j);
    PadBlockLeaves(u, b, b, D, Q - {j});
    LeavesThen(s7, D, Q, u, D, Q - {j}, true, Goes(Put(Put(u, LandingPad), Br(b)), b), D, Q - {j} - {b}, true);
  }

  lemma CatchLeaves(s: State, n: Node, p: Pos, D: set<Label>, Q: set<BlockId>)
    requires n.Excep? && TryReady(s, n, p, D) && Wf(n.onexc, Start, true, true, false)
    requires var s3 := TryPart(s, n.body); var D1 := D + Defs(n.body); var b := |s.blocks|;
      Aside(s3, D1, Q) && LabelsIn(s3) && EndedCur(s3) && b in Q && b + 1 in Q
    ensures var b := |s.blocks|; var s3 := TryPart(s, n.body); var D1 := D + Defs(n.body);
      var s9 := Goes(CatchPart(s3, b, n.onexc), b + 1);
      Clear(s3, D1, Q, s9, D1 + Defs(n.onexc), Q - {b} - {b + 1}, SafeSwitches(n.onexc, true))
    decreases n, 2
  {
    hide Inv, Mod, Touch, Lower, Wf, Defs, Leaves, Aside, OpenCur, Ended, LabelsIn, SafeSwitches, TryReady, Ready,
      EndedCur, CatchStart, TryPart, CatchEnd, Put, End;
    var b := |s.blocks|;
    var s3 := TryPart(s, n.body);
    var D1 := D + Defs(n.body);
    var j := |s3.blocks|;
    var s5 := CatchStart(s3, b);
    TryReadyCatch(s, n, p, D);
    AsideBelow(s3, D1, Q);
    var safe := SafeSwitches(n.onexc, true);
    CatchStartLeaves(s3, b, D1, Q);
    var Q1 := Q - {b} + Range(j, 2) - {j};
    ClosedNode(s5, n.onexc, Start, true, true, false, D1, Q1);
    NodeInv(s5, n.onexc, Start, true, true, false, D1);
    var t := Lower(s5, n.onexc);
    var D2 := D1 + Defs(n.onexc);
    LeavesThen(s3, D1, Q, s5, D1, Q1, true, t, D2, Q1, safe);
    BrLeaves(t, b + 1, D2, Q1, s3.pads, None);
    var s7 := CatchEnd(s3, b, n.onexc);
    assert s7 == BrIfLive(t, b + 1).(pads := s3.pads, fin := None) by { CatchEndIs(s3, b, n.onexc); }
    LeavesThen(s3, D1, Q, t, D2, Q1, safe, s7, D2, Q1, true);
    CatchPadLeaves(s7, j + 1, b + 1, D2, Q1);
    assert Q1 - {j + 1} - {b + 1} == Q - {b} - {b + 1};
    LeavesThen(s3, D1, Q, s7, D2, Q1, safe, Goes(CatchPart(s3, b, n.onexc), b + 1), D2, Q - {b} - {b + 1}, true);
  }

  lemma CatchEndIs(s3: State, b: BlockId, onexc: Node)
    ensures CatchEnd(s3, b, onexc) == BrIfLive(Lower(CatchStart(s3, b), onexc), b + 1).(pads := s3.pads, fin := None)
  {
  }

  lemma TryReadyCatch(s: State, n: Node, p: Pos, D: set<Label>)
    requires n.Excep? && TryReady(s, n, p, D)
    ensures Ready(CatchStart(TryPart(s, n.body), |s.blocks|), D + Defs(n.body), Defs(n.onexc), Start, true, true)
  {
    hide Ready, CatchStart, CatchEnd, CatchPart, TryPart, TryStart, Defs, Goes;
  }

  lemma FinLeaves(s: State, n: Node, p: Pos, D: set<Label>, P: set<BlockId>)
    requires n.Excep? && TryReady(s, n, p, D) && Wf(n.fin, Moved, false, false, false)
    requires FirstReturn(n).Some? ==> ReturnExpr(FirstReturn(n).value)
    requires var b := |s.blocks|; var s9 := Goes(CatchPart(TryPart(s, n.body), b, n.onexc), b + 1);
      Aside(s9, D + Defs(n.body) + Defs(n.onexc), P)
    ensures var b := |s.blocks|; var s9 := Goes(CatchPart(TryPart(s, n.body), b, n.onexc), b + 1);
      var D2 := D + Defs(n.body) + Defs(n.onexc);
      Clear(s9, D2, P, LowerCached(Lower(s9, n.fin)), D2 + Defs(n.fin), P, SafeSwitches(n.fin, false))
    decreases n, 2
  {
    var b := |s.blocks|;
    var s9 := Goes(CatchPart(TryPart(s, n.body), b, n.onexc), b + 1);
    var D2 := D + Defs(n.body) + Defs(n.onexc);
    assert Ready(s9, D2, Defs(n.fin), Moved, false, false) && s9.cached == FirstReturn(n);
    hide Inv, Mod, Touch, Lower, LowerInsts, Wf, Defs, Leaves, Aside, OpenCur, Ended, LabelsIn, SafeSwitches, TryReady,
      Ready, CatchPart, TryPart, FirstReturn, ReturnExpr, Calm;
    ClosedNode(s9, n.fin, Moved, false, false, false, D2, P);
    NodeInv(s9, n.fin, Moved, false, false, false, D2);
    CachedKept(s9, n.fin, D2);
    var t := Lower(s9, n.fin);
    var D3 := D2 + Defs(n.fin);
    if t.cached.Some? {
      var ops := Flat(t.cached.value);
      var xs := ReturnFlat(t.cached.value);
      assert forall k :: 0 <= k < |xs| ==> ops[k] == xs[k];
      InvCalm(t, D3);
      InstsLeave(t, ops, D3, P);
      var v := LowerInsts(t, ops);
      LeavesThen(s9, D2, P, t, D3, P, SafeSwitches(n.fin, false), v, D3, P, true);
      FieldsLeave(v, v.(cached := None), D3, P);
      LeavesThen(s9, D2, P, v, D3, P, SafeSwitches(n.fin, false), v.(cached := None), D3, P, true);
    }
  }

  lemma CachedKept(s: State, n: Node, D: set<Label>)
    requires Ready(s, D, Defs(n), Moved, false, false) && Wf(n, Moved, false, false, false)
    ensures Lower(s, n).cached == s.cached
  {
    hide Inv, Mod, Touch, Wf, Lower, Defs;
    FrameNode(s, n, Moved, false, false, false, D);
  }

  lemma ClosedExcep(s: State, n: Node, p: Pos, D: set<Label>, P: set<BlockId>)
    requires n.Excep? && Ready(s, D, Defs(n), p, false, false) && Wf(n, p, false, false, true)
    requires s.cached.None? && Aside(s, D, P)
    ensures Clear(s, D, P, Lower(s, n), D + Defs(n), P, SafeSwitches(n, false))
    decreases n, 3
  {
    hide Inv, Mod, Touch, Lower, Wf, Defs, Gotos, Leaves, Aside, OpenCur, Ended, LabelsIn, SafeSwitches, TryReady,
      Ready, CatchPart, TryPart, FirstReturn, ReturnExpr, UniformReturns, LowerCached, Lowered, EndedCur, End, Goes;
    var b := |s.blocks|;
    ExcepUnfolds(n, p);
    FirstReturnWf(n, p, false, false, true);
    ReadyIs(s, D, Defs(n), p, false, false);
    SubReady(s, D, Defs(n), Defs(n.body), p, false, false);
    FrameExcep(s, n, p, D);
    var s3 := TryPart(s, n.body);
    var s9 := Goes(CatchPart(s3, b, n.onexc), b + 1);
    var D1 := D + Defs(n.body);
    var D2 := D1 + Defs(n.onexc);
    var Q := P + Range(b, 2);
    TryLeaves(s, n, p, D, P);
    CatchLeaves(s, n, p, D, Q);
    var safe := SafeSwitches(n.body, true) && SafeSwitches(n.onexc, true);
    AsideBelow(s, D, P);
    assert Q - {b} - {b + 1} == P;
    LeavesThen(s, D, P, s3, D1, Q, SafeSwitches(n.body, true), s9, D2, P, SafeSwitches(n.onexc, true));
    FinLeaves(s, n, p, D, P);
    ExcepIs(s, n);
    FinPartIs(CatchPart(s3, b, n.onexc), b, n.fin);
    assert D2 + Defs(n.fin) == D + Defs(n);
    LeavesThen(s, D, P, s9, D2, P, safe, Lower(s, n), D + Defs(n), P, SafeSwitches(n.fin, false));
  }

  // ----- the whole function -----

  // Every block ends in a terminator and has no other, and every branch stays in the function.
  ghost predicate AllClosed(g: seq<Code>) {
    forall b :: 0 <= b < |g| ==> Terminated(g[b]) && TermLast(g[b]) && TargetsOk(g[b], |g|)
  }

  // The lowering of a well-formed body closes every block just when no switch case is left in
  // another block than its own and every goto target is defined.
  lemma ClosedExactly(n: Node)
    requires Wf(n, Start, false, false, true)
    ensures AllClosed(Compile(n).blocks) <==> SafeSwitches(n, false) && Gotos(n) <= Defs(n)
  {
    hide Mod, Touch, Wf, Lower, Defs, Gotos, SafeSwitches, End, FirstReturn;
    var s := Begin();
    var t := Lower(s, n);
    BeginReady(n);
    assert Aside(s, {}, {});
    ClosedNode(s, n, Start, false, false, true, {}, {});
    FrameNode(s, n, Start, false, false, true, {});
    assert {} + Defs(n) == Defs(n);
    assert forall b: BlockId :: !Loose(s, {}, {}, b);
    EndOfFunction(n, t, Compile(n));
  }

  lemma EndOfFunction(n: Node, t: State, u: State)
    requires Inv(t, Defs(n)) && t.labels.Keys == Defs(n) + Gotos(n) && u == Fixup(t)
    requires if SafeSwitches(n, false) then forall b :: !Loose(t, Defs(n), {}, b) else Leaks(t, Defs(n), {})
    ensures AllClosed(u.blocks) <==> SafeSwitches(n, false) && Gotos(n) <= Defs(n)
  {
    FixupTidy(t, u, Defs(n));
    if !SafeSwitches(n, false) {
      var b: BlockId :| Loose(t, Defs(n), {}, b);
      assert u.blocks[b] == t.blocks[b] && !Terminated(u.blocks[b]);
    } else if !(Gotos(n) <= Defs(n)) {
      var l :| l in Gotos(n) && l !in Defs(n);
      assert l in t.labels;
      var b := t.labels[l];
      assert t.blocks[b] == [] && t.cur != Some(b);
      assert u.blocks[b] == t.blocks[b] && !Terminated(u.blocks[b]);
    } else {
      forall b: BlockId | b < |u.blocks|
        ensures Terminated(u.blocks[b])
      {
        assert !Loose(t, Defs(n), {}, b);
      }
    }
  }

  lemma FixupTidy(t: State, u: State, D: set<Label>)
    requires Inv(t, D) && u == Fixup(t)
    ensures |u.blocks| == |t.blocks|
    ensures forall b :: 0 <= b < |u.blocks| ==> TermLast(u.blocks[b]) && TargetsOk(u.blocks[b], |u.blocks|)
    ensures forall b :: 0 <= b < |u.blocks| && t.cur != Some(b) ==> u.blocks[b] == t.blocks[b]
    ensures t.cur.Some? ==> t.cur.value < |u.blocks| && Terminated(u.blocks[t.cur.value])
  {
    if t.cur.Some? {
      var c := t.cur.value;
      assert TermLast(t.blocks[c]) && TargetsOk(t.blocks[c], |t.blocks|);
      if !Ended(t, c) {
        assert u.blocks[c] == t.blocks[c] + [RetZero];
        assert forall i :: 0 <= i < |t.blocks[c]| ==> !IsTerm(t.blocks[c][i]);
      }
    }
  }
}
