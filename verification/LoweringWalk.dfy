/** Every walk keeps the invariant, touches only its own blocks, and ends where the tree says. */
module LoweringWalk {
  import opened Wrappers
  import opened StmtTree
  import opened Cfg
  import opened Lowering
  import opened LoweringFrame

  // What the walk of a node asks of the state it starts in.
  ghost predicate Ready(s: State, D: set<Label>, L: set<Label>, p: Pos, pad: bool, fin: bool) {
    && Inv(s, D) && OpenCur(s) && D !! L
    && (pad <==> s.pads != []) && (fin <==> s.fin.Some?) && (p == Dead <==> s.cur.None?)
  }

  // What it gives: L and G are the labels the node defines and jumps to, p and q the positions
  // before and after, r the expression of its first return statement.
  ghost predicate Lowered(s: State, t: State, D: set<Label>, L: set<Label>, G: set<Label>,
                          p: Pos, q: Pos, r: Option<Node>, tail: bool) {
    && Walked(s, t, L, D)
    && t.labels.Keys == s.labels.Keys + L + G
    && (!tail ==> OpenCur(t))
    && (t.cur.None? <==> q == Dead)
    && (s.cur.Some? && p == Start ==> (t.cur == s.cur <==> q == Start))
    && t.cached == (if s.fin.Some? then OrElse(s.cached, r) else s.cached)
  }

  // ----- instructions -----

  lemma WalkInst(s: State, i: Inst, D: set<Label>)
    requires Inv(s, D) && OpenCur(s)
    ensures var t := LowerInst(s, i);
      && Walked(s, t, {}, D) && SameFields(s, t)
      && (if i == Ret then s.cur.Some? ==> t.cur == s.cur && Ended(t, t.cur.value) else OpenCur(t))
      && (s.cur.Some? ==> t.cur.Some? && (t.cur == s.cur <==> !(s.pads != [] && MayThrow(i))))
      && (s.cur.None? ==> t == s)
  {
    var k := Book(Touch(s, {}), D, {}, {}, {});
    assert D + {} == D;
    ProgStart(s, {}, D);
    if s.cur.Some? && MayThrow(i) && s.pads != [] {
      var b := |s.blocks|;
      ProgFresh(s, s, 1, k);
      var s1 := Fresh(s, 1);
      var j := Invoke(i, b, s.pads[|s.pads| - 1]);
      var k1 := k.(R := k.R + Range(b, 1));
      ProgPut(s, s1, j, k1);
      var k2 := k1.(E := k.E + {s.cur.value});
      ProgGoes(s, Put(s1, j), b, k2);
      ProgEnd(s, LowerInst(s, i), {}, D, k2.(R := k2.R - {b}));
    } else {
      ProgPut(s, s, Plain(i), k);
      ProgEnd(s, LowerInst(s, i), {}, D, k.(E := if IsTerm(Plain(i)) && s.cur.Some? then k.E + {s.cur.value} else k.E));
    }
  }

  lemma {:induction false} WalkInsts(s: State, insts: seq<Inst>, D: set<Label>)
    requires Inv(s, D) && OpenCur(s) && Ret !in insts
    ensures var t := LowerInsts(s, insts);
      && Walked(s, t, {}, D) && SameFields(s, t) && OpenCur(t)
      && (s.cur.Some? ==> t.cur.Some? && (t.cur == s.cur <==> !(s.pads != [] && Throws(insts))))
      && (s.cur.None? ==> t == s)
    decreases insts
  {
    hide Inv, Mod, Touch, Ended, OpenCur, LowerInst;
    if insts == [] {
      WalkedRefl(s, D);
    } else {
      var none: set<Label> := {};
      assert none + none == none && D + none == D;
      var t := LowerInst(s, insts[0]);
      WalkInst(s, insts[0], D);
      assert insts == [insts[0]] + insts[1..];
      WalkInsts(t, insts[1..], D);
      WalkedTrans(s, t, LowerInsts(t, insts[1..]), none, none, D);
    }
  }

  // ----- straight-line expressions -----

  lemma {:induction false} SimpleHasNoLabels(n: Node)
    requires Simple(n)
    ensures Defs(n) == {} && Gotos(n) == {} && FirstReturn(n) == None
    decreases n, 0
  {
    SimpleSeqHasNoLabels(n.kids);
  }

  lemma {:induction false} SimpleSeqHasNoLabels(ns: seq<Node>)
    requires SimpleSeq(ns)
    ensures DefsSeq(ns) == {} && GotosSeq(ns) == {} && FirstReturnSeq(ns) == None
    decreases ns, 1
  {
    if ns != [] {
      SimpleHasNoLabels(ns[0]);
      SimpleSeqHasNoLabels(ns[1..]);
    }
  }

  lemma {:induction false} LowerInstsAppend(s: State, xs: seq<Inst>, ys: seq<Inst>)
    ensures LowerInsts(s, xs + ys) == LowerInsts(LowerInsts(s, xs), ys)
    decreases xs
  {
    if xs == [] {
      assert xs + ys == ys;
    } else {
      assert (xs + ys)[1..] == xs[1..] + ys;
      LowerInstsAppend(LowerInst(s, xs[0]), xs[1..], ys);
    }
  }

  lemma {:induction false} LowerSimple(s: State, n: Node)
    requires Simple(n)
    ensures Lower(s, n) == LowerInsts(s, Flat(n))
    decreases n, 0
  {
    LowerSimpleSeq(s, n.kids);
    LowerInstsAppend(s, FlatSeq(n.kids), n.insts);
  }

  lemma {:induction false} LowerSimpleSeq(s: State, ns: seq<Node>)
    requires SimpleSeq(ns)
    ensures LowerSeq(s, ns) == LowerInsts(s, FlatSeq(ns))
    decreases ns, 1
  {
    if ns != [] {
      LowerSimple(s, ns[0]);
      LowerSimpleSeq(Lower(s, ns[0]), ns[1..]);
      LowerInstsAppend(s, Flat(ns[0]), FlatSeq(ns[1..]));
    }
  }

  // A return expression is some instructions, none a return, and then the return.
  lemma ReturnFlat(e: Node) returns (xs: seq<Inst>)
    requires ReturnExpr(e)
    ensures Flat(e) == xs + [Ret] && Ret !in xs
  {
    var ys := e.insts[..|e.insts| - 1];
    xs := FlatSeq(e.kids) + ys;
    assert e.insts == ys + [Ret];
    assert Flat(e) == xs + [Ret];
  }

  lemma WalkReturnExpr(s: State, e: Node, D: set<Label>)
    requires Inv(s, D) && OpenCur(s) && ReturnExpr(e)
    ensures var t := LowerInsts(s, Flat(e));
      && Walked(s, t, {}, D) && SameFields(s, t)
      && (t.cur.None? <==> s.cur.None?)
      && (t.cur.Some? ==> Ended(t, t.cur.value))
      && (s.pads == [] ==> t.cur == s.cur)
  {
    hide Inv, Mod, Touch, Ended, OpenCur, LowerInst, ReturnExpr;
    var none: set<Label> := {};
    assert none + none == none && D + none == D;
    var xs := ReturnFlat(e);
    WalkInsts(s, xs, D);
    var t := LowerInsts(s, xs);
    LowerInstsAppend(s, xs, [Ret]);
    WalkInst(t, Ret, D);
    assert LowerInsts(t, [Ret]) == LowerInsts(LowerInst(t, Ret), []) == LowerInst(t, Ret);
    WalkedTrans(s, t, LowerInst(t, Ret), none, none, D);
  }

  lemma WalkedDies(s: State, t: State, L: set<Label>, D: set<Label>)
    requires Walked(s, t, L, D) && (s.cur.Some? ==> Ended(t, s.cur.value))
    ensures Walked(s, Dies(t), L, D)
  {
  }

  lemma FrameReturn(s: State, e: Node, p: Pos, pad: bool, fin: bool, D: set<Label>)
    requires Ready(s, D, {}, p, pad, fin) && Wf(Return(e), p, pad, fin, false)
    ensures Lowered(s, Lower(s, Return(e)), D, Defs(Return(e)), Gotos(Return(e)), p, Dead, Some(e), false)
  {
    hide Inv, Mod, Touch, Prog;
    SimpleHasNoLabels(e);
    assert D + {} == D;
    if fin {
      var i := Br(s.fin.value);
      var s0 := s.(cached := OrElse(s.cached, Some(e)));
      var k := Book(Touch(s, {}), D, {}, {}, {});
      ProgStart(s, {}, D);
      FieldsInRange(s, D);
      ProgFields(s, s, s.pads, s.fin, s0.cached, k);
      assert s.(pads := s.pads, fin := s.fin, cached := s0.cached) == s0;
      ProgPut(s, s0, i, k);
      var k1 := k.(E := k.E + {s.cur.value});
      ProgDies(s, Put(s0, i), k1);
      ProgEnd(s, Lower(s, Return(e)), {}, D, k1);
    } else {
      LowerSimple(s, e);
      WalkReturnExpr(s, e, D);
      WalkedDies(s, Lower(s, e), {}, D);
    }
  }

  lemma FieldsInRange(s: State, D: set<Label>)
    requires Inv(s, D)
    ensures forall i :: 0 <= i < |s.pads| ==> s.pads[i] < |s.blocks|
    ensures s.fin.Some? ==> s.fin.value < |s.blocks|
    ensures s.cur.Some? ==> s.cur.value < |s.blocks|
  {
  }

  // ----- gotos and labels -----

  // A block just made is given to a label.
  lemma NewLabel(s: State, t: State, l: Label, k: Book)
    requires s.cur.Some? ==> s.cur.value < |s.blocks|
    requires Prog(s, t, k.(R := {|s.blocks|})) && |t.blocks| == |s.blocks| + 1 && l !in t.labels && l !in s.labels
      && l !in k.D
    requires k.R == {} && k.P == {}
    ensures Prog(s, t.(labels := t.labels[l := |s.blocks|]), k)
  {
    assert Reserved(s, t, |s.blocks|);
  }

  lemma KnownLabel(s: State, l: Label, L: set<Label>)
    requires l in s.labels && l in L
    ensures s.labels[l] in Touch(s, L)
  {
  }

  lemma WalkLabelBlock(s: State, l: Label, L: set<Label>, D: set<Label>)
    requires Inv(s, D) && OpenCur(s)
    ensures var t := LabelBlock(s, l); var k := Book(Touch(s, L), D, {}, {}, {});
      && Prog(s, t, k) && OpenCur(t)
      && t.(blocks := [], labels := map[]) == s.(blocks := [], labels := map[])
      && t.labels.Keys == s.labels.Keys + {l}
      && (l in L ==> t.labels[l] in Touch(s, L) || t.labels[l] >= |s.blocks|)
      && t.labels[l] < |t.blocks|
      && (forall x :: x in t.labels && x !in D && s.cur.Some? ==> t.labels[x] != s.cur.value)
  {
    hide Mod, Touch, TargetsOk, TermLast, LabelBlocks;
    var k := Book(Touch(s, L), D, {}, {}, {});
    ProgStart(s, L, D);
    if l !in s.labels {
      ProgFresh(s, s, 1, k);
      NewLabel(s, Fresh(s, 1), l, k);
    } else if l in L {
      assert LabelBlock(s, l) == s;
      KnownLabel(s, l, L);
    }
  }

  lemma FrameGoto(s: State, l: Label, p: Pos, D: set<Label>)
    requires Inv(s, D) && OpenCur(s)
    ensures Lowered(s, Lower(s, Goto(l)), D, Defs(Goto(l)), Gotos(Goto(l)), p, Dead, None, false)
  {
    hide Inv, Mod, Touch, Prog;
    var t := LabelBlock(s, l);
    var k := Book(Touch(s, {}), D, {}, {}, {});
    WalkLabelBlock(s, l, {}, D);
    assert D + {} == D;
    assert s.labels.Keys + {} + {l} == s.labels.Keys + {l};
    if t.cur.Some? {
      ProgPut(s, t, Br(t.labels[l]), k);
      var k1 := k.(E := k.E + {s.cur.value});
      ProgDies(s, Put(t, Br(t.labels[l])), k1);
      ProgEnd(s, Lower(s, Goto(l)), {}, D, k1);
    } else {
      ProgDies(s, t, k);
      ProgEnd(s, Lower(s, Goto(l)), {}, D, k);
    }
  }

  // A label's own block becomes the current one, and the label counts as defined.
  lemma ProgLabel(s: State, t: State, l: Label, k: Book)
    requires Prog(s, t, k) && k.R == {} && k.P == {} && l in t.labels
    requires t.labels[l] in k.T || t.labels[l] >= |s.blocks|
    ensures Prog(s, Goes(t, t.labels[l]), k.(D := k.D + {l}))
    ensures l !in k.D ==> OpenCur(Goes(t, t.labels[l]))
  {
  }

  lemma FrameLabel(s: State, l: Label, p: Pos, D: set<Label>)
    requires Inv(s, D) && OpenCur(s) && l !in D
    ensures Lowered(s, Lower(s, LabelDef(l)), D, Defs(LabelDef(l)), Gotos(LabelDef(l)), p, Moved, None, false)
  {
    hide Inv, Mod, Touch, Prog;
    var t := LabelBlock(s, l);
    var k := Book(Touch(s, {l}), D, {}, {}, {});
    WalkLabelBlock(s, l, {l}, D);
    assert s.labels.Keys + {l} + {} == s.labels.Keys + {l};
    ProgPut(s, t, Br(t.labels[l]), k);
    var k1 := k.(E := if s.cur.Some? then k.E + {s.cur.value} else k.E);
    ProgLabel(s, Put(t, Br(t.labels[l])), l, k1);
    ProgEnd(s, Lower(s, LabelDef(l)), {l}, D, k1.(D := D + {l}));
  }

  // ----- walking every node -----

  lemma {:induction false} EndNotStart(n: Node, p: Pos, pad: bool)
    requires p != Start
    ensures End(n, p, pad) != Start
    decreases n, 0
  {
    match n
    case Expr(kids, insts, _) => EndSeqNotStart(kids, p, pad);
    case ExprStmt(e) => EndNotStart(e, p, pad);
    case Block(stmts) => EndSeqNotStart(stmts, p, pad);
    case Excep(_, _, f) => EndNotStart(f, Moved, false);
    case _ =>
  }

  lemma {:induction false} EndSeqNotStart(ns: seq<Node>, p: Pos, pad: bool)
    requires p != Start
    ensures EndSeq(ns, p, pad) != Start
    decreases ns, 1
  {
    if ns != [] {
      EndNotStart(ns[0], p, pad);
      EndSeqNotStart(ns[1..], End(ns[0], p, pad), pad);
    }
  }

  lemma FrameNode(s: State, n: Node, p: Pos, pad: bool, fin: bool, tail: bool, D: set<Label>)
    requires Ready(s, D, Defs(n), p, pad, fin) && Wf(n, p, pad, fin, tail)
    requires tail ==> !fin && s.cached.None?
    ensures Lowered(s, Lower(s, n), D, Defs(n), Gotos(n), p, End(n, p, pad), FirstReturn(n), tail)
    decreases n, 4
  {
    hide Inv, Mod, Touch, IfReady, DeferReady, TryReady, Ended, OpenCur, Lower, Defs, Gotos, FirstReturn, Ready, Walked;
    match n
    case Expr(_, _, _) => FrameExpr(s, n, p, pad, fin, tail, D);
    case If(_, _, _) => FrameIf(s, n, p, pad, fin, D);
    case Switch(_, _, _) => FrameSwitch(s, n, p, pad, fin, D);
    case Defer(_, _) => FrameDefer(s, n, p, pad, fin, D);
    case Excep(_, _, _) => PadOrFin(s, D, Defs(n), p, pad, fin); FrameExcep(s, n, p, D);
    case _ => FrameStmt(s, n, p, pad, fin, tail, D);
  }

  lemma PadOrFin(s: State, D: set<Label>, L: set<Label>, p: Pos, pad: bool, fin: bool)
    requires Ready(s, D, L, p, pad, fin)
    ensures (pad <==> s.pads != []) && (fin <==> s.fin.Some?)
  {
  }

  lemma FrameStmt(s: State, n: Node, p: Pos, pad: bool, fin: bool, tail: bool, D: set<Label>)
    requires n.ExprStmt? || n.Block? || n.Return? || n.Goto? || n.LabelDef?
    requires Ready(s, D, Defs(n), p, pad, fin) && Wf(n, p, pad, fin, tail)
    requires tail ==> !fin && s.cached.None?
    ensures Lowered(s, Lower(s, n), D, Defs(n), Gotos(n), p, End(n, p, pad), FirstReturn(n), tail)
    decreases n, 3
  {
    hide Inv, Mod, Touch, Ended, OpenCur, LowerSeq, WfSeq, DefsSeq, GotosSeq, EndSeq, FirstReturnSeq, Walked;
    match n
    case ExprStmt(e) => FrameNode(s, e, p, pad, fin, false, D);
    case Block(stmts) => FrameSeq(s, stmts, p, pad, fin, tail, D);
    case Return(e) =>
      SimpleHasNoLabels(e);
      FrameReturn(s, e, p, pad, fin, D);
    case Goto(l) => FrameGoto(s, l, p, D);
    case LabelDef(l) => FrameLabel(s, l, p, D);
  }

  lemma FrameExpr(s: State, n: Node, p: Pos, pad: bool, fin: bool, tail: bool, D: set<Label>)
    requires n.Expr? && Ready(s, D, Defs(n), p, pad, fin) && Wf(n, p, pad, fin, tail)
    requires tail ==> !fin && s.cached.None?
    ensures Lowered(s, Lower(s, n), D, Defs(n), Gotos(n), p, End(n, p, pad), FirstReturn(n), tail)
    decreases n, 3
  {
    hide Inv, Mod, Touch, Ended, OpenCur, LowerSeq, WfSeq, DefsSeq, GotosSeq, EndSeq, FirstReturnSeq;
    var Expr(kids, insts, _) := n;
    FrameSeq(s, kids, p, pad, fin, false, D);
    var t := LowerSeq(s, kids);
    WalkInsts(t, insts, D + DefsSeq(kids));
    var none: set<Label> := {};
    assert DefsSeq(kids) + none == DefsSeq(kids);
    WalkedTrans(s, t, LowerInsts(t, insts), DefsSeq(kids), none, D);
    if p != Start { EndSeqNotStart(kids, p, pad); }
  }

  // What follows a node starts from what the node leaves.
  lemma ReadyNext(s: State, t: State, D: set<Label>, L: set<Label>, K: set<Label>, G: set<Label>, p: Pos, q: Pos,
                  r: Option<Node>, pad: bool, fin: bool)
    requires Ready(s, D, L, p, pad, fin) && Lowered(s, t, D, L, G, p, q, r, false) && D !! K && L !! K
    ensures Ready(t, D + L, K, q, pad, fin)
    ensures !fin && s.cached.None? ==> t.cached.None?
  {
    hide Inv, Mod, Touch, Ended;
  }

  lemma SeqUnfolds(s: State, ns: seq<Node>, p: Pos, pad: bool)
    requires ns != []
    ensures DefsSeq(ns) == Defs(ns[0]) + DefsSeq(ns[1..]) && GotosSeq(ns) == Gotos(ns[0]) + GotosSeq(ns[1..])
    ensures LowerSeq(s, ns) == LowerSeq(Lower(s, ns[0]), ns[1..])
      && EndSeq(ns, p, pad) == EndSeq(ns[1..], End(ns[0], p, pad), pad)
    ensures FirstReturnSeq(ns) == OrElse(FirstReturn(ns[0]), FirstReturnSeq(ns[1..]))
    ensures |ns| == 1 ==>
      DefsSeq(ns) == Defs(ns[0]) && GotosSeq(ns) == Gotos(ns[0]) && LowerSeq(s, ns) == Lower(s, ns[0])
    ensures |ns| == 1 ==> EndSeq(ns, p, pad) == End(ns[0], p, pad) && FirstReturnSeq(ns) == FirstReturn(ns[0])
  {
    hide Defs, Gotos, Lower, End, FirstReturn;
    if |ns| == 1 { assert ns[1..] == []; }
  }

  // The second of two after the first.
  lemma LoweredThen(s: State, t: State, u: State, D: set<Label>, L: set<Label>, K: set<Label>, G: set<Label>,
                    H: set<Label>,
                    p: Pos, q: Pos, z: Pos, r: Option<Node>, r': Option<Node>, tail: bool)
    requires Inv(s, D) && D !! L && D !! K && L !! K && (q != Start ==> z != Start)
    requires Lowered(s, t, D, L, G, p, q, r, false) && Lowered(t, u, D + L, K, H, q, z, r', tail)
    ensures Lowered(s, u, D, L + K, G + H, p, z, OrElse(r, r'), tail)
  {
    hide Inv, Mod, Touch, OpenCur;
    WalkedTrans(s, t, u, L, K, D);
    Unions2(s.labels.Keys, L, G, K, H);
  }

  lemma FrameSeq(s: State, ns: seq<Node>, p: Pos, pad: bool, fin: bool, tail: bool, D: set<Label>)
    requires Ready(s, D, DefsSeq(ns), p, pad, fin) && WfSeq(ns, p, pad, fin, tail)
    requires tail ==> !fin && s.cached.None?
    ensures Lowered(s, LowerSeq(s, ns), D, DefsSeq(ns), GotosSeq(ns), p, EndSeq(ns, p, pad), FirstReturnSeq(ns), tail)
    decreases ns, 5
  {
    if ns == [] {
      hide Inv, Mod, Touch;
      WalkedRefl(s, D);
    } else {
      FrameSeqStep(s, ns, p, pad, fin, tail, D);
    }
  }

  lemma FrameSeqStep(s: State, ns: seq<Node>, p: Pos, pad: bool, fin: bool, tail: bool, D: set<Label>)
    requires ns != [] && Ready(s, D, DefsSeq(ns), p, pad, fin) && WfSeq(ns, p, pad, fin, tail)
    requires tail ==> !fin && s.cached.None?
    ensures Lowered(s, LowerSeq(s, ns), D, DefsSeq(ns), GotosSeq(ns), p, EndSeq(ns, p, pad), FirstReturnSeq(ns), tail)
    decreases ns, 4
  {
    hide Inv, Mod, Touch, Ended, Wf, Lower, End, Defs, Gotos, FirstReturn, Lowered, LowerSeq, EndSeq, FirstReturnSeq,
      GotosSeq;
    var n, rest := ns[0], ns[1..];
    SeqUnfolds(s, ns, p, pad);
    assert Ready(s, D, Defs(n), p, pad, fin);
    FrameNode(s, n, p, pad, fin, tail && |ns| == 1, D);
    if |ns| > 1 {
      var t := Lower(s, n);
      var q := End(n, p, pad);
      ReadyNext(s, t, D, Defs(n), DefsSeq(rest), Gotos(n), p, q, FirstReturn(n), pad, fin);
      FrameSeq(t, rest, q, pad, fin, tail, D + Defs(n));
      if q != Start { EndSeqNotStart(rest, q, pad); }
      LoweredThen(s, t, LowerSeq(t, rest), D, Defs(n), DefsSeq(rest), Gotos(n), GotosSeq(rest), p, q,
        EndSeq(rest, q, pad),
                  FirstReturn(n), FirstReturnSeq(rest), tail);
    }
  }

  // One branch of a statement: lowered into the reserved block b, closed towards `to`.
  lemma FrameBranch(s0: State, s: State, n: Node, b: BlockId, to: BlockId, pad: bool, fin: bool, k: Book)
    requires Prog(s0, s, k) && b in k.R && to < |s.blocks| && k.D !! Defs(n) && LabelBlocks(s0, Defs(n)) <= k.T
    requires (pad <==> s.pads != []) && (fin <==> s.fin.Some?) && Wf(n, Start, pad, fin, false)
    ensures var u := Close(Lower(Goes(s, b), n), to);
      && Prog(s0, u, Book(k.T, k.D + Defs(n), k.R - {b}, k.E + {b}, k.P))
      && u.labels.Keys == s.labels.Keys + Defs(n) + Gotos(n)
      && u.pads == s.pads && u.fin == s.fin && |s.blocks| <= |u.blocks|
      && u.cached == (if s.fin.Some? then OrElse(s.cached, FirstReturn(n)) else s.cached)
      && Ready(Goes(s, b), k.D, Defs(n), Start, pad, fin) && b < |Goes(s, b).blocks| && Goes(s, b).blocks[b] == []
    decreases n, 6
  {
    hide Inv, Mod, Touch, Wf, Lower, Defs, Gotos, FirstReturn, End;
    var s1 := Goes(s, b);
    ProgGoes(s0, s, b, k);
    var k1 := k.(R := k.R - {b});
    assert Ready(s1, k.D, Defs(n), Start, pad, fin);
    FrameNode(s1, n, Start, pad, fin, false, k.D);
    var t := Lower(s1, n);
    ProgWalk(s0, s1, t, Defs(n), k1);
    var k2 := k1.(D := k.D + Defs(n));
    if t.cur.Some? {
      ProgPut(s0, t, Br(to), if t.cur == s1.cur then k2 else k2.(E := k.E + {b}));
    }
  }

  // With s1 the state after the condition: where the true and the false branch start, and the end.
  ghost function IfThen(s1: State, v: int): State {
    var b := |s1.blocks|;
    Goes(Put(Fresh(s1, 3), CondBr(v, b, b + 2)), b)
  }

  ghost function IfElse(s1: State, v: int, t: Node): State {
    var b := |s1.blocks|;
    Goes(Close(Lower(IfThen(s1, v), t), b + 1), b + 2)
  }

  ghost function IfTail(s1: State, v: int, t: Node, f: Node): State {
    var b := |s1.blocks|;
    Goes(Close(Lower(IfElse(s1, v, t), f), b + 1), b + 1)
  }

  // What the branches of an if statement find.
  ghost predicate IfReady(s1: State, v: int, t: Node, f: Node, D: set<Label>, pad: bool, fin: bool) {
    var b := |s1.blocks|;
    && Ready(IfThen(s1, v), D, Defs(t), Start, pad, fin) && IfThen(s1, v).blocks[b] == []
    && Ready(IfElse(s1, v, t), D + Defs(t), Defs(f), Start, pad, fin) && IfElse(s1, v, t).blocks[b + 2] == []
    && b + 1 < |IfTail(s1, v, t, f).blocks| && IfTail(s1, v, t, f).blocks[b + 1] == []
  }

  // The two branches of an if statement, once its condition has been lowered.
  lemma FrameBranches(s: State, s1: State, n: Node, t: Node, f: Node, pad: bool, fin: bool, k: Book)
    returns (E: set<BlockId>)
    requires n.If? && t == n.thn && f == n.els
    requires Prog(s, s1, k) && OpenCur(s1) && s1.cur.Some? && k.R == {}
    requires k.D !! Defs(t) && k.D !! Defs(f) && Defs(t) !! Defs(f)
    requires LabelBlocks(s, Defs(t)) <= k.T && LabelBlocks(s, Defs(f)) <= k.T
    requires (pad <==> s1.pads != []) && (fin <==> s1.fin.Some?)
    requires Wf(t, Start, pad, fin, false) && Wf(f, Start, pad, fin, false)
    ensures var u := IfTail(s1, Val(n.cond), t, f);
      && k.E + {s1.cur.value} <= E && Prog(s, u, Book(k.T, k.D + Defs(t) + Defs(f), {}, E, k.P))
      && OpenCur(u) && u.cur.Some? && u.cur.value >= |s1.blocks|
      && u.pads == s1.pads && u.fin == s1.fin && IfReady(s1, Val(n.cond), t, f, k.D, pad, fin)
      && u.labels.Keys == s1.labels.Keys + (Defs(t) + Defs(f)) + (Gotos(t) + Gotos(f))
      && u.cached == (if s1.fin.Some? then OrElse(s1.cached, OrElse(FirstReturn(t), FirstReturn(f))) else s1.cached)
    decreases n, 1
  {
    hide Inv, Mod, Touch, Prog, LabelBlocks, Lower, Wf, Defs, Gotos, FirstReturn, End, Close, Goes, Put, Fresh, OpenCur,
      Ended;
    var b := |s1.blocks|;
    var i := CondBr(Val(n.cond), b, b + 2);
    ProgFresh(s, s1, 3, k);
    var s2 := Fresh(s1, 3);
    var k2 := k.(R := k.R + Range(b, 3));
    ProgPut(s, s2, i, k2);
    var s3 := Put(s2, i);
    var k3 := k2.(E := k2.E + {s1.cur.value});
    FrameBranch(s, s3, t, b, b + 1, pad, fin, k3);
    var s4 := Close(Lower(Goes(s3, b), t), b + 1);
    var k4 := Book(k.T, k3.D + Defs(t), k3.R - {b}, k3.E + {b}, k.P);
    FrameBranch(s, s4, f, b + 2, b + 1, pad, fin, k4);
    var s5 := Close(Lower(Goes(s4, b + 2), f), b + 1);
    var k5 := Book(k.T, k4.D + Defs(f), k4.R - {b + 2}, k4.E + {b + 2}, k.P);
    ProgGoes(s, s5, b + 1, k5);
    assert k5.R - {b + 1} == {};
    E := k5.E;
    assert Prog(s, IfTail(s1, Val(n.cond), t, f), Book(k.T, k.D + Defs(t) + Defs(f), {}, k5.E, k.P));
  }

  lemma IfUnfolds(c: Node, t: Node, f: Node, p: Pos, pad: bool, fin: bool)
    ensures var n := If(c, t, f);
      && Defs(n) == Defs(c) + Defs(t) + Defs(f) && Gotos(n) == Gotos(c) + Gotos(t) + Gotos(f)
      && FirstReturn(n) == OrElse(FirstReturn(c), OrElse(FirstReturn(t), FirstReturn(f)))
      && SafeSwitches(n, pad) == (SafeSwitches(c, pad) && SafeSwitches(t, pad) && SafeSwitches(f, pad))
      && (Wf(n, p, pad, fin, false) ==>
            && c.Expr? && Wf(c, p, pad, fin, false) && End(c, p, pad) != Dead
            && Wf(t, Start, pad, fin, false) && Wf(f, Start, pad, fin, false)
            && Defs(c) !! Defs(t) && Defs(c) !! Defs(f) && Defs(t) !! Defs(f))
  {
  }

  lemma FrameIf(s: State, n: Node, p: Pos, pad: bool, fin: bool, D: set<Label>)
    requires n.If? && Ready(s, D, Defs(n), p, pad, fin) && Wf(n, p, pad, fin, false)
    ensures Lowered(s, Lower(s, n), D, Defs(n), Gotos(n), p, Moved, FirstReturn(n), false)
    ensures IfReady(Lower(s, n.cond), Val(n.cond), n.thn, n.els, D + Defs(n.cond), pad, fin)
    decreases n, 2
  {
    hide Inv, Mod, Touch, Prog, LabelBlocks, OpenCur, Ended, IfTail, IfReady, Lower, Wf, Defs, Gotos, FirstReturn, End;
    var If(c, t, f) := n;
    IfUnfolds(c, t, f, p, pad, fin);
    assert Ready(s, D, Defs(c), p, pad, fin);
    FrameNode(s, c, p, pad, fin, false, D);
    var s1 := Lower(s, c);
    LabelBlocksPart(s, Defs(c), Defs(n));
    LabelBlocksPart(s, Defs(t), Defs(n));
    LabelBlocksPart(s, Defs(f), Defs(n));
    ProgStart(s, Defs(n), D);
    var k0 := Book(Touch(s, Defs(n)), D, {}, {}, {});
    ProgWalk(s, s, s1, Defs(c), k0);
    var k1 := if s.cur.Some? && s1.cur != s.cur then k0.(D := k0.D + Defs(c), E := k0.E + {s.cur.value})
              else k0.(D := k0.D + Defs(c));
    var E := FrameBranches(s, s1, n, t, f, pad, fin, k1);
    var u := IfTail(s1, Val(c), t, f);
    assert k1.D + Defs(t) + Defs(f) == D + Defs(n);
    ProgEnd(s, u, Defs(n), D, Book(k1.T, D + Defs(n), {}, E, {}));
    WalkedGrows(s, s1, Defs(c), D);
    assert Lower(s, n) == u by { IfTailIs(s, c, t, f); }
  }

  lemma IfTailIs(s: State, c: Node, t: Node, f: Node)
    ensures Lower(s, If(c, t, f)) == IfTail(Lower(s, c), Val(c), t, f)
  {
    hide Put, Goes, Fresh, Close;
  }

  lemma WalkedGrows(s: State, t: State, L: set<Label>, D: set<Label>)
    requires Inv(s, D) && Walked(s, t, L, D)
    ensures |s.blocks| <= |t.blocks| && (s.cur.Some? ==> s.cur.value < |s.blocks|)
  {
  }

  // ----- switch -----

  // The bodies of a switch, lowered into the reserved blocks b, b + 1, ...
  lemma FrameBodies(s0: State, s: State, ns: seq<Node>, b: BlockId, epilog: BlockId, pad: bool, fin: bool, k: Book)
    requires Prog(s0, s, k) && Range(b, |ns|) <= k.R && epilog < |s.blocks|
    requires k.D !! DefsSeq(ns) && LabelBlocks(s0, DefsSeq(ns)) <= k.T
    requires (pad <==> s.pads != []) && (fin <==> s.fin.Some?) && WfBodies(ns, pad, fin)
    ensures var u := LowerBodies(s, ns, b, epilog);
      && Prog(s0, u, Book(k.T, k.D + DefsSeq(ns), k.R - Range(b, |ns|), k.E + Range(b, |ns|), k.P))
      && u.labels.Keys == s.labels.Keys + DefsSeq(ns) + GotosSeq(ns)
      && u.pads == s.pads && u.fin == s.fin && |s.blocks| <= |u.blocks|
      && u.cached == (if s.fin.Some? then OrElse(s.cached, FirstReturnSeq(ns)) else s.cached)
      && (forall x :: x in k.P ==> x < |s.blocks| && s.blocks[x] == u.blocks[x])
    decreases ns, 7
  {
    hide Inv, Mod, Touch, Prog, LabelBlocks, Lower, Wf, Defs, Gotos, FirstReturn, End, Goes;
    if ns == [] {
      ParkedIn(s0, s, k);
      assert k.R - Range(b, 0) == k.R && k.E + Range(b, 0) == k.E && k.D + DefsSeq(ns) == k.D;
      assert s.labels.Keys + {} + {} == s.labels.Keys;
    } else {
      LabelBlocksPart(s0, Defs(ns[0]), DefsSeq(ns));
      LabelBlocksPart(s0, DefsSeq(ns[1..]), DefsSeq(ns));
      FrameBody(s0, s, ns[0], b, epilog, pad, fin, k);
      var t := CaseTail(s, ns[0], b, epilog);
      var k1 := Book(k.T, k.D + Defs(ns[0]), k.R - {b}, k.E + {b}, k.P);
      FrameBodies(s0, t, ns[1..], b + 1, epilog, pad, fin, k1);
      assert k1.R - Range(b + 1, |ns| - 1) == k.R - Range(b, |ns|);
      assert k1.E + Range(b + 1, |ns| - 1) == k.E + Range(b, |ns|);
      assert k1.D + DefsSeq(ns[1..]) == k.D + DefsSeq(ns);
      Unions2(s.labels.Keys, Defs(ns[0]), Gotos(ns[0]), DefsSeq(ns[1..]), GotosSeq(ns[1..]));
    }
  }

  lemma Unions2<T>(a: set<T>, l: set<T>, g: set<T>, m: set<T>, h: set<T>)
    ensures a + l + g + m + h == a + (l + m) + (g + h)
  {
  }

  ghost function CaseTail(s: State, n: Node, b: BlockId, epilog: BlockId): State {
    var s1 := Lower(Goes(s, b), n);
    if Ended(s1, b) then s1 else Append(s1, b, Br(epilog))
  }

  lemma NoBodies(s: State, b: BlockId, epilog: BlockId)
    ensures LowerBodies(s, [], b, epilog) == s
  {
  }

  lemma FrameBody(s0: State, s: State, n: Node, b: BlockId, epilog: BlockId, pad: bool, fin: bool, k: Book)
    requires Prog(s0, s, k) && b in k.R && epilog < |s.blocks| && k.D !! Defs(n) && LabelBlocks(s0, Defs(n)) <= k.T
    requires (pad <==> s.pads != []) && (fin <==> s.fin.Some?) && Wf(n, Start, pad, fin, false)
    ensures var u := CaseTail(s, n, b, epilog);
      && Prog(s0, u, Book(k.T, k.D + Defs(n), k.R - {b}, k.E + {b}, k.P))
      && u.labels.Keys == s.labels.Keys + Defs(n) + Gotos(n)
      && u.pads == s.pads && u.fin == s.fin && |s.blocks| <= |u.blocks|
      && u.cached == (if s.fin.Some? then OrElse(s.cached, FirstReturn(n)) else s.cached)
      && Ready(Goes(s, b), k.D, Defs(n), Start, pad, fin) && b < |Goes(s, b).blocks| && Goes(s, b).blocks[b] == []
      && (forall x :: x in k.P ==> x < |s.blocks| && s.blocks[x] == u.blocks[x])
    decreases n, 6
  {
    hide Inv, Mod, Touch, Prog, LabelBlocks, Lower, Wf, Defs, Gotos, FirstReturn, End;
    var s1 := Goes(s, b);
    ProgGoes(s0, s, b, k);
    var k1 := k.(R := k.R - {b});
    ParkedIn(s0, s, k);
    assert Ready(s1, k.D, Defs(n), Start, pad, fin) by { ProgInv(s0, s1, k1); }
    FrameNode(s1, n, Start, pad, fin, false, k.D);
    var t := Lower(s1, n);
    ProgWalk(s0, s1, t, Defs(n), k1);
    var k2 := k1.(D := k.D + Defs(n));
    if t.cur == Some(b) {
      ProgPut(s0, t, Br(epilog), k2);
    } else {
      assert Ended(t, b);
    }
  }

  lemma ProgInv(s: State, t: State, k: Book)
    requires Prog(s, t, k)
    ensures Inv(t, k.D)
  {
  }

  ghost function SwitchTail(s1: State, n: Node): State
    requires n.Switch?
  {
    var b := |s1.blocks|;
    var s2 := LowerBodies(Fresh(s1, |n.bodies| + 1), n.bodies, b, b + |n.bodies|);
    var s3 := Put(s2.(cur := s1.cur), SwitchBr(Val(n.sel), b + DefaultCase(n.vals), Arms(n.vals, b)));
    Goes(s3, b + |n.bodies|)
  }

  lemma SwitchTailIs(s: State, n: Node)
    requires n.Switch?
    ensures Lower(s, n) == SwitchTail(Lower(s, n.sel), n)
  {
  }

  // The state the bodies start in: a block for each, one for the epilog, the switch block set aside.
  ghost function BodiesStart(s1: State, m: nat): State {
    Dies(Fresh(s1, m + 1))
  }

  ghost function BodiesBook(s1: State, m: nat, k: Book): Book
    requires s1.cur.Some?
  {
    k.(R := k.R + Range(|s1.blocks|, m + 1), P := k.P + {s1.cur.value})
  }

  lemma {:induction false} ArmsInRange(vals: seq<seq<int>>, b: BlockId)
    ensures forall k :: 0 <= k < |Arms(vals, b)| ==> b <= Arms(vals, b)[k].1 < b + |vals|
    decreases vals
  {
    if vals != [] { ArmsInRange(vals[1..], b + 1); }
  }

  lemma FrameSwitchTail(s: State, s1: State, n: Node, pad: bool, fin: bool, k: Book)
    returns (E: set<BlockId>)
    requires n.Switch? && Prog(s, s1, k) && OpenCur(s1) && s1.cur.Some? && k.R == {} && k.P == {}
      && |n.vals| == |n.bodies|
    requires k.D !! DefsSeq(n.bodies) && LabelBlocks(s, DefsSeq(n.bodies)) <= k.T
    requires (pad <==> s1.pads != []) && (fin <==> s1.fin.Some?) && WfBodies(n.bodies, pad, fin)
    ensures var u := SwitchTail(s1, n);
      && k.E + {s1.cur.value} <= E && Prog(s, u, Book(k.T, k.D + DefsSeq(n.bodies), {}, E, {}))
      && Prog(s, BodiesStart(s1, |n.bodies|), BodiesBook(s1, |n.bodies|, k))
      && BodiesStart(s1, |n.bodies|).pads == s1.pads && BodiesStart(s1, |n.bodies|).fin == s1.fin
      && s1.cur.value < |s1.blocks| && u.blocks[u.cur.value] == []
      && OpenCur(u) && u.cur.Some? && u.cur.value >= |s1.blocks|
      && u.pads == s1.pads && u.fin == s1.fin
      && u.labels.Keys == s1.labels.Keys + DefsSeq(n.bodies) + GotosSeq(n.bodies)
      && u.cached == (if s1.fin.Some? then OrElse(s1.cached, FirstReturnSeq(n.bodies)) else s1.cached)
    decreases n, 1
  {
    hide Inv, Mod, Touch, Prog, LabelBlocks, Lower, LowerBodies, BodiesStart, Wf, WfBodies, DefsSeq, GotosSeq,
      FirstReturnSeq, Goes, Put, Fresh, OpenCur, Ended;
    var b := |s1.blocks|;
    var m := |n.bodies|;
    ProgFresh(s, s1, m + 1, k);
    var s2 := Fresh(s1, m + 1);
    var k2 := k.(R := k.R + Range(b, m + 1));
    var c := s1.cur.value;
    ProgParkAside(s, s2, k2);
    var k3 := k2.(P := k.P + {c});
    BodiesStartIs(s1, m);
    FrameBodies(s, s2.(cur := None), n.bodies, b, b + m, pad, fin, k3);
    LowerBodiesCur(s2, None, n.bodies, b, b + m);
    var s3 := LowerBodies(s2.(cur := None), n.bodies, b, b + m);
    var k4 := Book(k.T, k.D + DefsSeq(n.bodies), k3.R - Range(b, m), k.E + Range(b, m), k3.P);
    ProgUnpark(s, s3, c, k4);
    var s4 := s3.(cur := s1.cur);
    var i := SwitchBr(Val(n.sel), b + DefaultCase(n.vals), Arms(n.vals, b));
    ArmsInRange(n.vals, b);
    var k5 := k4.(P := k4.P - {c});
    ProgPut(s, s4, i, k5);
    var k6 := k5.(E := k5.E + {c});
    ProgGoes(s, Put(s4, i), b + m, k6);
    assert k6.R - {b + m} == {} && k6.P == {};
    E := k6.E;
    assert Prog(s, Goes(Put(s4, i), b + m), Book(k.T, k.D + DefsSeq(n.bodies), {}, k6.E, {}));
    assert SwitchTail(s1, n) == Goes(Put(s4, i), b + m);
  }

  lemma BodiesStartIs(s1: State, m: nat)
    ensures BodiesStart(s1, m) == Fresh(s1, m + 1).(cur := None)
  {
  }

  // Where the bodies are lowered from does not matter, only where the walk ends is affected.
  lemma LowerBodiesCur(s: State, c: Option<BlockId>, ns: seq<Node>, b: BlockId, epilog: BlockId)
    ensures LowerBodies(s.(cur := c), ns, b, epilog).(cur := None) == LowerBodies(s, ns, b, epilog).(cur := None)
  {
    if ns != [] {
      assert Goes(s.(cur := c), b) == Goes(s, b);
    }
  }

  lemma ProgParkAside(s: State, t: State, k: Book)
    requires Prog(s, t, k) && OpenCur(t) && t.cur.Some?
    ensures Prog(s, Dies(t), k.(P := k.P + {t.cur.value}))
  {
    assert forall x :: x in k.R ==> Reserved(s, t, x);
    var k1 := k.(P := k.P + {t.cur.value});
    forall x | x in k.R
      ensures Reserved(s, Dies(t), x)
    {
    }
    forall x | x in k1.P
      ensures Parked(s, Dies(t), k1, x)
    {
      if x in k.P { assert Parked(s, t, k, x); }
    }
  }

  lemma SwitchUnfolds(n: Node, p: Pos, pad: bool, fin: bool)
    requires n.Switch?
    ensures Defs(n) == Defs(n.sel) + DefsSeq(n.bodies) && Gotos(n) == Gotos(n.sel) + GotosSeq(n.bodies)
    ensures FirstReturn(n) == OrElse(FirstReturn(n.sel), FirstReturnSeq(n.bodies))
    ensures SafeSwitches(n, pad) == (SafeSwitches(n.sel, pad) && SafeBodies(n.bodies, pad))
    ensures Wf(n, p, pad, fin, false) ==>
            && n.sel.Expr? && Wf(n.sel, p, pad, fin, false) && End(n.sel, p, pad) != Dead
            && |n.vals| == |n.bodies| && WfBodies(n.bodies, pad, fin)
            && (forall i, j :: 0 <= i < j < |n.vals| ==> n.vals[i] != [] || n.vals[j] != [])
            && Defs(n.sel) !! DefsSeq(n.bodies)
  {
  }

  lemma FrameSwitch(s: State, n: Node, p: Pos, pad: bool, fin: bool, D: set<Label>)
    requires n.Switch? && Ready(s, D, Defs(n), p, pad, fin) && Wf(n, p, pad, fin, false)
    ensures Lowered(s, Lower(s, n), D, Defs(n), Gotos(n), p, Moved, FirstReturn(n), false)
    decreases n, 2
  {
    hide Inv, Mod, Touch, Prog, LabelBlocks, OpenCur, Ended, SwitchTail, Lower, Wf, Defs, Gotos, FirstReturn, End;
    var v, bodies := n.sel, n.bodies;
    SwitchUnfolds(n, p, pad, fin);
    assert Ready(s, D, Defs(v), p, pad, fin);
    FrameNode(s, v, p, pad, fin, false, D);
    var s1 := Lower(s, v);
    LabelBlocksPart(s, Defs(v), Defs(n));
    LabelBlocksPart(s, DefsSeq(bodies), Defs(n));
    ProgStart(s, Defs(n), D);
    var k0 := Book(Touch(s, Defs(n)), D, {}, {}, {});
    ProgWalk(s, s, s1, Defs(v), k0);
    var k1 := if s.cur.Some? && s1.cur != s.cur then k0.(D := k0.D + Defs(v), E := k0.E + {s.cur.value})
              else k0.(D := k0.D + Defs(v));
    var E := FrameSwitchTail(s, s1, n, pad, fin, k1);
    var u := SwitchTail(s1, n);
    assert k1.D + DefsSeq(bodies) == D + Defs(n);
    ProgEnd(s, u, Defs(n), D, Book(k1.T, D + Defs(n), {}, E, {}));
    WalkedGrows(s, s1, Defs(v), D);
    Unions2(s.labels.Keys, Defs(v), Gotos(v), DefsSeq(bodies), GotosSeq(bodies));
    assert Lower(s, n) == u by { SwitchTailIs(s, n); }
  }

  // ----- defer -----

  lemma ReservedIn(s: State, t: State, b: BlockId, k: Book)
    requires Prog(s, t, k) && b in k.R
    ensures |s.blocks| <= b < |t.blocks| && t.blocks[b] == [] && t.cur != Some(b)
  {
    assert Reserved(s, t, b);
  }

  // A landing pad, written into the reserved block b: it leads to block `to`.
  lemma ProgPad(s: State, t: State, b: BlockId, to: BlockId, k: Book)
    requires Prog(s, t, k) && b in k.R && to < |t.blocks|
    ensures var u := Put(Put(Goes(t, b), LandingPad), Br(to));
      && Prog(s, u, k.(R := k.R - {b}, E := k.E + {b}))
      && SameFields(t, u) && u.cur == Some(b) && |u.blocks| == |t.blocks|
  {
    hide Inv, Mod, Prog, Goes, Put;
    ProgGoes(s, t, b, k);
    var k1 := k.(R := k.R - {b});
    var t1 := Goes(t, b);
    ProgPut(s, t1, LandingPad, k1);
    ProgPut(s, Put(t1, LandingPad), Br(to), k1);
  }

  // Straight-line code walked from the current block.
  lemma ProgInsts(s: State, t: State, insts: seq<Inst>, k: Book)
    requires Prog(s, t, k) && OpenCur(t) && Ret !in insts && t.cur.Some?
    ensures var u := LowerInsts(t, insts);
      && SameFields(t, u) && u.cur.Some? && OpenCur(u) && |t.blocks| <= |u.blocks|
      && (u.cur == t.cur <==> !(t.pads != [] && Throws(insts)))
      && Prog(s, u, k)
      && (forall x :: x in k.P ==> x < |t.blocks| && t.blocks[x] == u.blocks[x])
      && (u.cur != t.cur ==> Prog(s, u, k.(E := k.E + {t.cur.value})) && u.cur.value >= |s.blocks|)
  {
    ProgInv(s, t, k);
    WalkInsts(t, insts, k.D);
    assert LabelBlocks(s, {}) == {} && k.D + {} == k.D;
    ProgWalk(s, t, LowerInsts(t, insts), {}, k);
  }

  // The parts of a defer statement: the finish block, the undefer call, and the catch block.
  ghost function DeferStart(s: State): State {
    Goes(Put(Fresh(s, 3), Br(|s.blocks|)), |s.blocks|)
  }

  ghost function DeferTry(s: State, u: Node): State {
    Lower(DeferStart(s).(pads := s.pads + [|s.blocks| + 1]), u).(pads := s.pads)
  }

  ghost function DeferCatch(s: State, u: Node): State {
    var b := |s.blocks|;
    Goes(Put(Put(Goes(DeferTry(s, u), b + 1), LandingPad), Br(b + 2)), b + 2)
  }

  ghost function DeferTail(s: State, u: Node, d: Node): State {
    var b := |s.blocks|;
    Append(Lower(DeferCatch(s, u), d), b + 2, Br(b)).(cur := DeferTry(s, u).cur)
  }

  lemma DeferIs(s: State, u: Node, d: Node)
    ensures Lower(s, Defer(u, d)) == DeferTail(s, u, d)
  {
    hide Put, Fresh, Goes, Append;
  }

  // What the parts of a defer statement find.
  ghost predicate DeferReady(s: State, u: Node, d: Node) {
    var b := |s.blocks|;
    var s1 := DeferStart(s);
    var s2 := DeferTry(s, u);
    var s3 := DeferCatch(s, u);
    var s5 := Lower(s3, d);
    && b + 2 < |s1.blocks| && s1.blocks[b] == [] && s1.fin == s.fin
    && b + 1 < |s2.blocks| && s2.blocks[b + 1] == [] && s2.cur.Some?
    && b + 2 < |s3.blocks| && s3.blocks[b + 2] == [] && s3.pads == s.pads
    && s5.cur == Some(b + 2)
    && s2.cur.value < |s2.blocks| && s2.cur.value < |s5.blocks| && s5.blocks[s2.cur.value] == s2.blocks[s2.cur.value]
    && s2.cur.value != b + 2
  }

  lemma FrameDefer(s: State, n: Node, p: Pos, pad: bool, fin: bool, D: set<Label>)
    requires n.Defer? && Ready(s, D, Defs(n), p, pad, fin) && Wf(n, p, pad, fin, false)
    ensures Lowered(s, Lower(s, n), D, Defs(n), Gotos(n), p, Moved, FirstReturn(n), false)
    ensures DeferReady(s, n.undefer, n.checkdefer)
  {
    hide Inv, Mod, Touch, Prog, LabelBlocks, LowerInsts, Ended, Put, Fresh, Goes, DeferTail;
    var Defer(u, d) := n;
    SimpleHasNoLabels(u);
    SimpleHasNoLabels(d);
    var none: set<Label> := {};
    assert D + none == D && s.labels.Keys + none + none == s.labels.Keys && none + none == none;
    var b := |s.blocks|;
    FieldsInRange(s, D);
    ProgStart(s, none, D);
    var k0 := Book(Touch(s, none), D, {}, {}, {});
    ProgFresh(s, s, 3, k0);
    var s0 := Fresh(s, 3);
    var k1 := k0.(R := k0.R + Range(b, 3));
    ProgPut(s, s0, Br(b), k1);
    var k2 := if s.cur.Some? then k1.(E := k1.E + {s.cur.value}) else k1;
    ProgGoes(s, Put(s0, Br(b)), b, k2);
    var k3 := k2.(R := k2.R - {b});
    assert k3.R == {b + 1, b + 2};
    FrameDeferTry(s, u, k3);
    var E := FrameDeferTail(s, u, d, k3);
    ProgEnd(s, DeferTail(s, u, d), none, D, Book(k3.T, k3.D, {}, E, {}));
    DeferIs(s, u, d);
  }

  lemma FrameDeferTry(s: State, u: Node, k: Book)
    requires var s1 := DeferStart(s); var b := |s.blocks|;
      Prog(s, s1, k) && s1.cur == Some(b) && OpenCur(s1) && SameFields(s, s1) && k.R == {b + 1, b + 2}
    requires PlainExpr(u)
    ensures var s2 := DeferTry(s, u);
      && Prog(s, s2, k) && OpenCur(s2) && s2.cur.Some? && s2.cur.value >= |s.blocks|
      && SameFields(s, s2)
  {
    hide Inv, Mod, Touch, Prog, LabelBlocks, LowerInsts, DeferStart;
    var b := |s.blocks|;
    var s1 := DeferStart(s);
    ReservedIn(s, s1, b + 1, k);
    PadsInRange(s, s1, k);
    ProgFields(s, s1, s.pads + [b + 1], s1.fin, s1.cached, k);
    var s1' := s1.(pads := s.pads + [b + 1]);
    LowerSimple(s1', u);
    ProgInsts(s, s1', Flat(u), k);
    var t2 := Lower(s1', u);
    ProgFields(s, t2, s.pads, t2.fin, t2.cached, k);
  }

  lemma FrameDeferTail(s: State, u: Node, d: Node, k: Book)
    returns (E: set<BlockId>)
    requires k.P == {} && var b := |s.blocks|; k.R == {b + 1, b + 2}
    requires var s2 := DeferTry(s, u);
      Prog(s, s2, k) && OpenCur(s2) && s2.cur.Some? && s2.cur.value >= |s.blocks| && SameFields(s, s2)
    requires PlainExpr(d) && (s.pads != [] ==> !Throws(Flat(d)))
    ensures var t := DeferTail(s, u, d); var b := |s.blocks|; var s2 := DeferTry(s, u); var s3 := DeferCatch(s, u);
      var s5 := Lower(s3, d);
      && k.E <= E && Prog(s, t, Book(k.T, k.D, {}, E, {}))
      && OpenCur(t) && t.cur.Some? && t.cur.value >= |s.blocks|
      && SameFields(s, t)
      && b + 1 < |s2.blocks| && s2.blocks[b + 1] == []
      && b + 2 < |s3.blocks| && s3.blocks[b + 2] == [] && s3.pads == s.pads
      && s5.cur == Some(b + 2)
      && s2.cur.value < |s2.blocks| && s2.cur.value < |s5.blocks|
      && s5.blocks[s2.cur.value] == s2.blocks[s2.cur.value]
      && s2.cur.value != b + 2
  {
    hide Inv, Mod, Touch, Prog, LabelBlocks, LowerInsts, Lower, Goes, Put, Append, DeferTry, Ended;
    var b := |s.blocks|;
    var s2 := DeferTry(s, u);
    ReservedIn(s, s2, b + 1, k);
    ReservedIn(s, s2, b + 2, k);
    var c := s2.cur.value;
    ProgPark(s, s2, b + 1, k);
    var k2 := k.(R := k.R - {b + 1}, P := k.P + {c});
    ProgPut(s, Goes(s2, b + 1), LandingPad, k2);
    ProgPut(s, Put(Goes(s2, b + 1), LandingPad), Br(b + 2), k2);
    var s3 := Put(Put(Goes(s2, b + 1), LandingPad), Br(b + 2));
    var k3 := k2.(E := k2.E + {b + 1});
    ProgGoes(s, s3, b + 2, k3);
    var k4 := k3.(R := k3.R - {b + 2});
    LowerSimple(Goes(s3, b + 2), d);
    ProgInsts(s, Goes(s3, b + 2), Flat(d), k4);
    var s5 := Lower(Goes(s3, b + 2), d);
    ProgPut(s, s5, Br(b), k4);
    PutIs(s5, Br(b));
    var k5 := k4.(E := k4.E + {b + 2});
    ParkedIn(s, s5, k4);
    ProgUnpark(s, Append(s5, b + 2, Br(b)), c, k5);
    assert k5.P - {c} == {} && k5.R == {};
    E := k5.E;
    assert Prog(s, DeferTail(s, u, d), Book(k.T, k.D, {}, k5.E, {}));
  }

  lemma PutIs(s: State, i: Instr)
    requires s.cur.Some?
    ensures Put(s, i) == Append(s, s.cur.value, i)
  {
  }

  lemma PadsInRange(s: State, t: State, k: Book)
    requires Prog(s, t, k)
    ensures forall i :: 0 <= i < |t.pads| ==> t.pads[i] < |t.blocks|
    ensures t.fin.Some? ==> t.fin.value < |t.blocks|
  {
  }

  // ----- try statements -----

  // The three parts of a try statement: its body, its catch code with both landing pads,
  // and its finally code with the delayed return.
  ghost function TryPart(s: State, body: Node): State {
    BrIfLive(Lower(TryStart(s), body), |s.blocks| + 1).(pads := s.pads)
  }

  ghost function CatchEnd(s3: State, b: BlockId, onexc: Node): State {
    BrIfLive(Lower(CatchStart(s3, b), onexc), b + 1).(pads := s3.pads, fin := None)
  }

  ghost function CatchPart(s3: State, b: BlockId, onexc: Node): State {
    Put(Put(Goes(CatchEnd(s3, b, onexc), |s3.blocks| + 1), LandingPad), Br(b + 1))
  }

  ghost function FinPart(s8: State, b: BlockId, fin: Node): State {
    LowerCached(Lower(Goes(s8, b + 1), fin))
  }

  // What the parts of a try statement find.
  ghost predicate TryReady(s: State, n: Node, p: Pos, D: set<Label>)
    requires n.Excep?
  {
    var b := |s.blocks|;
    var s3 := TryPart(s, n.body);
    var k := |s3.blocks|;
    var s5 := CatchStart(s3, b);
    var s7 := CatchEnd(s3, b, n.onexc);
    var s9 := Goes(CatchPart(s3, b, n.onexc), b + 1);
    && Ready(TryStart(s), D, Defs(n.body), p, true, true)
    && b < |s3.blocks| && s3.blocks[b] == []
    && Ready(s5, D + Defs(n.body), Defs(n.onexc), Start, true, true) && k < |s5.blocks| && s5.blocks[k] == []
    && k + 1 < |s7.blocks| && s7.blocks[k + 1] == []
    && Ready(s9, D + Defs(n.body) + Defs(n.onexc), Defs(n.fin), Moved, false, false)
    && b + 1 < |s9.blocks| && s9.blocks[b + 1] == []
    && s9.cached == FirstReturn(n)
  }

  lemma ExcepIs(s: State, n: Node)
    requires n.Excep?
    ensures var b := |s.blocks|;
      Lower(s, n) == FinPart(CatchPart(TryPart(s, n.body), b, n.onexc), b, n.fin)
  {
    hide Put, Goes, Fresh, LowerCached, TryStart, CatchStart, BrIfLive;
  }

  lemma FrameTry(s: State, n: Node, p: Pos, k: Book)
    returns (E: set<BlockId>)
    requires n.Excep? && Prog(s, s, k) && k.R == {} && k.P == {} && s.pads == [] && s.fin == None && s.cached == None
    requires Ready(s, k.D, Defs(n.body), p, false, false) && Wf(n.body, p, true, true, false)
    requires LabelBlocks(s, Defs(n.body)) <= k.T
    ensures var b := |s.blocks|; var u := TryPart(s, n.body);
      && (s.cur.Some? ==> s.cur.value in E)
      && Prog(s, u, Book(k.T, k.D + Defs(n.body), {b, b + 1}, E, {}))
      && u.pads == [] && u.fin == Some(b + 1) && u.cached == FirstReturn(n.body)
      && Ready(TryStart(s), k.D, Defs(n.body), p, true, true)
      && u.labels.Keys == s.labels.Keys + Defs(n.body) + Gotos(n.body)
    decreases n, 1
  {
    hide Inv, Mod, Touch, Prog, LabelBlocks, Lower, Wf, Defs, Gotos, FirstReturn, Put, Fresh;
    var b := |s.blocks|;
    ProgFresh(s, s, 2, k);
    var s0 := Fresh(s, 2);
    var k1 := k.(R := k.R + Range(b, 2));
    ProgFields(s, s0, [b], Some(b + 1), s0.cached, k1);
    var s1 := s0.(fin := Some(b + 1), pads := s.pads + [b]);
    assert s.pads + [b] == [b];
    assert s1 == s0.(pads := [b], fin := Some(b + 1), cached := s0.cached);
    assert s1 == TryStart(s);
    ProgInv(s, s1, k1);
    FrameNode(s1, n.body, p, true, true, false, k.D);
    var s2 := Lower(s1, n.body);
    ProgWalk(s, s1, s2, Defs(n.body), k1);
    var k2 := if s.cur.Some? && s2.cur != s.cur then k1.(D := k1.D + Defs(n.body), E := k1.E + {s.cur.value})
              else k1.(D := k1.D + Defs(n.body));
    ReservedIn(s, s2, b + 1, k2);
    ProgPut(s, s2, Br(b + 1), k2);
    var k3 := if s2.cur.Some? then k2.(E := k2.E + {s2.cur.value}) else k2;
    var s3 := BrIfLive(s2, b + 1);
    PadsInRange(s, s3, k3);
    ProgFields(s, s3, [], s3.fin, s3.cached, k3);
    assert k3.R == {b, b + 1};
    E := k3.E;
    assert Prog(s, TryPart(s, n.body), Book(k.T, k.D + Defs(n.body), {b, b + 1}, k3.E, {}));
  }

  // The landing pad is in place, and block j + 1 is kept for the pad of the catch code.
  lemma FrameCatchStart(s: State, s3: State, b: BlockId, k: Book)
    returns (k4: Book)
    requires Prog(s, s3, k) && k.R == {b, b + 1} && k.P == {} && s3.pads == [] && s3.fin == Some(b + 1)
    ensures var j := |s3.blocks|; var s5 := CatchStart(s3, b);
      && k4 == Book(k.T, k.D, {b + 1, j + 1}, k.E + {b}, {}) && Prog(s, s5, k4)
      && b < j && s3.blocks[b] == [] && |s5.blocks| == j + 2 && s5.blocks[j] == []
      && s5.cur == Some(j) && OpenCur(s5) && s5.pads == [j + 1]
      && s5.labels == s3.labels && s5.fin == s3.fin && s5.cached == s3.cached
  {
    hide Inv, Mod, Touch, Prog, Lower, Put, Fresh, Goes;
    var j := |s3.blocks|;
    ReservedIn(s, s3, b, k);
    ReservedIn(s, s3, b + 1, k);
    ProgFresh(s, s3, 1, k);
    var k1 := k.(R := k.R + Range(j, 1));
    ProgPad(s, Fresh(s3, 1), b, j, k1);
    var s4 := Put(Put(Goes(Fresh(s3, 1), b), LandingPad), Br(j));
    var k2 := k1.(R := k1.R - {b}, E := k1.E + {b});
    ProgFresh(s, s4, 1, k2);
    var k3 := k2.(R := k2.R + Range(j + 1, 1));
    ProgGoes(s, Fresh(s4, 1), j, k3);
    var s5 := Goes(Fresh(s4, 1), j);
    k4 := k3.(R := k3.R - {j});
    ProgFields(s, s5, [j + 1], s5.fin, s5.cached, k4);
    assert s3.pads + [j + 1] == [j + 1];
    assert s5.(pads := s3.pads + [j + 1]) == CatchStart(s3, b);
    assert k4.R == {b + 1, j + 1};
  }

  lemma FrameCatch(s: State, s3: State, b: BlockId, n: Node, k: Book)
    returns (E: set<BlockId>)
    requires n.Excep? && Prog(s, s3, k) && k.R == {b, b + 1} && k.P == {}
    requires s3.pads == [] && s3.fin == Some(b + 1) && k.D !! Defs(n.onexc)
    requires Wf(n.onexc, Start, true, true, false) && LabelBlocks(s, Defs(n.onexc)) <= k.T
    ensures var u := CatchPart(s3, b, n.onexc);
      && k.E <= E && Prog(s, u, Book(k.T, k.D + Defs(n.onexc), {b + 1}, E, {}))
      && u.pads == [] && u.fin == None && u.cached == OrElse(s3.cached, FirstReturn(n.onexc))
      && var j := |s3.blocks|; var s5 := CatchStart(s3, b); var s7 := CatchEnd(s3, b, n.onexc);
      && b < |s3.blocks| && s3.blocks[b] == []
      && Ready(s5, k.D, Defs(n.onexc), Start, true, true) && j < |s5.blocks| && s5.blocks[j] == []
      && j + 1 < |s7.blocks| && s7.blocks[j + 1] == []
      && u.labels.Keys == s3.labels.Keys + Defs(n.onexc) + Gotos(n.onexc)
    decreases n, 1
  {
    hide Inv, Mod, Touch, Prog, LabelBlocks, Lower, Wf, Defs, Gotos, FirstReturn, Put, Fresh, Goes;
    var j := |s3.blocks|;
    var k4 := FrameCatchStart(s, s3, b, k);
    var s5' := CatchStart(s3, b);
    ProgInv(s, s5', k4);
    FrameNode(s5', n.onexc, Start, true, true, false, k.D);
    var s6 := Lower(s5', n.onexc);
    ProgWalk(s, s5', s6, Defs(n.onexc), k4);
    var k5 := k4.(D := k4.D + Defs(n.onexc));
    ReservedIn(s, s6, b + 1, k5);
    ProgPut(s, s6, Br(b + 1), k5);
    var k6 := if s6.cur.Some? then k5.(E := k5.E + {s6.cur.value}) else k5;
    var s7 := BrIfLive(s6, b + 1);
    ProgFields(s, s7, [], None, s7.cached, k6);
    var s7' := s7.(pads := s3.pads, fin := None);
    assert s7' == s7.(pads := [], fin := None, cached := s7.cached);
    ReservedIn(s, s7', j + 1, k6);
    assert s7' == CatchEnd(s3, b, n.onexc);
    ProgPad(s, s7', j + 1, b + 1, k6);
    var k7 := k6.(R := k6.R - {j + 1}, E := k6.E + {j + 1});
    assert k7.R == {b + 1};
    E := k7.E;
    assert Prog(s, CatchPart(s3, b, n.onexc), Book(k.T, k.D + Defs(n.onexc), {b + 1}, k7.E, {}));
  }

  lemma FrameFin(s: State, s8: State, b: BlockId, n: Node, k: Book)
    requires n.Excep? && Prog(s, s8, k) && k.R == {b + 1} && k.P == {}
    requires s8.pads == [] && s8.fin == None && k.D !! Defs(n.fin)
    requires Wf(n.fin, Moved, false, false, false) && LabelBlocks(s, Defs(n.fin)) <= k.T
    requires s8.cached.Some? ==> ReturnExpr(s8.cached.value)
    requires s.cur.Some? ==> s.cur.value in k.E
    ensures var u := FinPart(s8, b, n.fin);
      && Prog(s, u, Book(k.T, k.D + Defs(n.fin), {}, k.E, {}))
      && u.pads == [] && u.fin == None && u.cached == None
      && u.labels.Keys == s8.labels.Keys + Defs(n.fin) + Gotos(n.fin)
      && (u.cur.None? <==> End(n.fin, Moved, false) == Dead)
      && (s.cur.Some? ==> u.cur != s.cur)
      && var s9 := Goes(s8, b + 1);
      && Ready(s9, k.D, Defs(n.fin), Moved, false, false) && b + 1 < |s9.blocks| && s9.blocks[b + 1] == []
      && s9.cached == s8.cached
    decreases n, 1
  {
    hide Inv, Mod, Touch, LabelBlocks, Lower, LowerInsts, Wf, Defs, Gotos, FirstReturn, ReturnExpr;
    ProgGoes(s, s8, b + 1, k);
    var k1 := k.(R := k.R - {b + 1});
    var t := Goes(s8, b + 1);
    ProgInv(s, t, k1);
    FrameNode(t, n.fin, Moved, false, false, false, k.D);
    var s9 := Lower(t, n.fin);
    ProgWalk(s, t, s9, Defs(n.fin), k1);
    var k2 := k1.(D := k1.D + Defs(n.fin));
    assert k2.R == {};
    assert s.cur.Some? ==> Ended(s9, s.cur.value);
    if s9.cached.Some? {
      ProgInv(s, s9, k2);
      WalkReturnExpr(s9, s9.cached.value, k2.D);
      var s10 := LowerInsts(s9, Flat(s9.cached.value));
      assert LabelBlocks(s, {}) <= k2.T by { LabelBlocksPart(s, {}, Defs(n.fin)); }
      assert k2.D + {} == k2.D;
      ProgWalk(s, s9, s10, {}, k2);
      PadsInRange(s, s10, k2);
      ProgFields(s, s10, s10.pads, s10.fin, None, k2);
    }
  }

  // The return statement found first is a proper one.
  lemma {:induction false} FirstReturnWf(n: Node, p: Pos, pad: bool, fin: bool, tail: bool)
    requires Wf(n, p, pad, fin, tail)
    ensures FirstReturn(n).Some? ==> ReturnExpr(FirstReturn(n).value)
    decreases n, 0
  {
    match n
    case Expr(kids, _, _) => FirstReturnWfSeq(kids, p, pad, fin, false);
    case ExprStmt(e) => FirstReturnWf(e, p, pad, fin, false);
    case Block(stmts) => FirstReturnWfSeq(stmts, p, pad, fin, tail);
    case If(c, t, f) =>
      FirstReturnWf(c, p, pad, fin, false);
      FirstReturnWf(t, Start, pad, fin, false);
      FirstReturnWf(f, Start, pad, fin, false);
    case Switch(v, _, bodies) =>
      FirstReturnWf(v, p, pad, fin, false);
      FirstReturnWfBodies(bodies, pad, fin);
    case Defer(u, d) =>
      SimpleHasNoLabels(u);
      SimpleHasNoLabels(d);
    case Excep(b, c, _) =>
      FirstReturnWf(b, p, true, true, false);
      FirstReturnWf(c, Start, true, true, false);
    case _ =>
  }

  lemma {:induction false} FirstReturnWfSeq(ns: seq<Node>, p: Pos, pad: bool, fin: bool, tail: bool)
    requires WfSeq(ns, p, pad, fin, tail)
    ensures FirstReturnSeq(ns).Some? ==> ReturnExpr(FirstReturnSeq(ns).value)
    decreases ns, 1
  {
    if ns != [] {
      FirstReturnWf(ns[0], p, pad, fin, tail && |ns| == 1);
      FirstReturnWfSeq(ns[1..], End(ns[0], p, pad), pad, fin, tail);
    }
  }

  lemma {:induction false} FirstReturnWfBodies(ns: seq<Node>, pad: bool, fin: bool)
    requires WfBodies(ns, pad, fin)
    ensures FirstReturnSeq(ns).Some? ==> ReturnExpr(FirstReturnSeq(ns).value)
    decreases ns, 1
  {
    if ns != [] {
      FirstReturnWf(ns[0], Start, pad, fin, false);
      FirstReturnWfBodies(ns[1..], pad, fin);
    }
  }

  lemma ReadyIs(s: State, D: set<Label>, L: set<Label>, p: Pos, pad: bool, fin: bool)
    requires Ready(s, D, L, p, pad, fin)
    ensures Inv(s, D) && OpenCur(s) && D !! L
    ensures (pad <==> s.pads != []) && (fin <==> s.fin.Some?) && (p == Dead <==> s.cur.None?)
  {
  }

  lemma ReadyPart(s: State, D: set<Label>, L: set<Label>, K: set<Label>, p: Pos, pad: bool, fin: bool)
    requires Ready(s, D, L, p, pad, fin) && K <= L
    ensures Ready(s, D, K, p, pad, fin)
  {
  }

  lemma ExcepUnfolds(n: Node, p: Pos)
    requires n.Excep?
    ensures Defs(n) == Defs(n.body) + Defs(n.onexc) + Defs(n.fin)
      && Gotos(n) == Gotos(n.body) + Gotos(n.onexc) + Gotos(n.fin)
    ensures FirstReturn(n) == OrElse(FirstReturn(n.body), FirstReturn(n.onexc))
    ensures SafeSwitches(n, false)
         == (SafeSwitches(n.body, true) && SafeSwitches(n.onexc, true) && SafeSwitches(n.fin, false))
    ensures Wf(n, p, false, false, true) ==>
              && Wf(n.body, p, true, true, false) && Wf(n.onexc, Start, true, true, false)
                && Wf(n.fin, Moved, false, false, false)
              && Defs(n.body) !! Defs(n.onexc) && Defs(n.body) !! Defs(n.fin) && Defs(n.onexc) !! Defs(n.fin)
              && (FirstReturn(n).Some? ==>
                    var ops := Flat(FirstReturn(n).value); UniformReturns(n.body, ops) && UniformReturns(n.onexc, ops))
  {
  }

  lemma FrameExcepParts(s: State, n: Node, p: Pos, D: set<Label>)
    returns (E: set<BlockId>)
    requires n.Excep? && Ready(s, D, Defs(n), p, false, false) && Wf(n, p, false, false, true)
    requires s.cached.None?
    ensures var b := |s.blocks|; var u := FinPart(CatchPart(TryPart(s, n.body), b, n.onexc), b, n.fin);
      && Prog(s, u, Book(Touch(s, Defs(n)), D + Defs(n), {}, E, {}))
      && (s.cur.Some? ==> s.cur.value in E && u.cur != s.cur)
      && u.pads == s.pads && u.fin == s.fin && u.cached == None
      && u.labels.Keys == s.labels.Keys + Defs(n) + Gotos(n)
      && (u.cur.None? <==> End(n.fin, Moved, false) == Dead)
    ensures TryReady(s, n, p, D)
    decreases n, 2
  {
    hide Inv, Mod, Touch, Prog, LabelBlocks, OpenCur, Ended, TryStart, TryPart, CatchStart, CatchEnd, CatchPart,
      FinPart, Ready, Goes, Wf, Defs, Gotos, FirstReturn, End, UniformReturns;
    ExcepUnfolds(n, p);
    assert Inv(s, D) && OpenCur(s) && s.pads == [] && s.fin == None
      && D !! Defs(n) by { ReadyIs(s, D, Defs(n), p, false, false); }
    assert Ready(s, D, Defs(n.body), p, false, false) by { ReadyPart(s, D, Defs(n), Defs(n.body), p, false, false); }
    var b := |s.blocks|;
    LabelBlocksPart(s, Defs(n.body), Defs(n));
    LabelBlocksPart(s, Defs(n.onexc), Defs(n));
    LabelBlocksPart(s, Defs(n.fin), Defs(n));
    ProgStart(s, Defs(n), D);
    var k0 := Book(Touch(s, Defs(n)), D, {}, {}, {});
    var E1 := FrameTry(s, n, p, k0);
    var s3 := TryPart(s, n.body);
    var k1 := Book(k0.T, D + Defs(n.body), {b, b + 1}, E1, {});
    E := FrameCatch(s, s3, b, n, k1);
    var s8 := CatchPart(s3, b, n.onexc);
    var k2 := Book(k0.T, k1.D + Defs(n.onexc), {b + 1}, E, {});
    FirstReturnWf(n, p, false, false, true);
    FrameFin(s, s8, b, n, k2);
    assert k2.D + Defs(n.fin) == D + Defs(n);
    Unions3(s.labels.Keys, Defs(n.body), Gotos(n.body), Defs(n.onexc), Gotos(n.onexc), Defs(n.fin), Gotos(n.fin));
  }

  lemma FrameExcep(s: State, n: Node, p: Pos, D: set<Label>)
    requires n.Excep? && Ready(s, D, Defs(n), p, false, false) && Wf(n, p, false, false, true)
    requires s.cached.None?
    ensures Lowered(s, Lower(s, n), D, Defs(n), Gotos(n), p, End(n, p, false), FirstReturn(n), true)
    ensures TryReady(s, n, p, D)
    decreases n, 3
  {
    hide Inv, Mod, Touch, Prog, LabelBlocks, OpenCur, Ended, TryPart, CatchPart, FinPart, TryReady;
    var E := FrameExcepParts(s, n, p, D);
    var b := |s.blocks|;
    var u := FinPart(CatchPart(TryPart(s, n.body), b, n.onexc), b, n.fin);
    ProgEnd(s, u, Defs(n), D, Book(Touch(s, Defs(n)), D + Defs(n), {}, E, {}));
    EndNotStart(n.fin, Moved, false);
    ExcepIs(s, n);
  }

  lemma Unions3<T>(a: set<T>, l: set<T>, g: set<T>, m: set<T>, h: set<T>, n: set<T>, i: set<T>)
    ensures a + l + g + m + h + n + i == a + (l + m + n) + (g + h + i)
  {
  }
}
