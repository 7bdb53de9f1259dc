/** Running the blocks does what the tree means. */
module LoweringSim {
  import opened Wrappers
  import opened StmtTree
  import opened Cfg
  import opened Lowering
  import opened LoweringFrame
  import opened LoweringWalk
  import opened LoweringGrowth

  // The point just after the code of the current block.
  ghost function Here(s: State, h: Hist): Conf {
    if s.cur.Some? && s.cur.value < |s.blocks| then At(s.cur.value, |s.blocks[s.cur.value]|, h) else Stuck
  }

  // Where a run of a node starts: here, or at a label.
  ghost function Entry(F: State, s: State, at: Option<Label>, h: Hist): Conf {
    if at.None? then Here(s, h) else if at.value in F.labels then At(F.labels[at.value], 0, h) else Stuck
  }

  // Where an exception goes: to the innermost landing pad, or out of the function.
  ghost function Raise(pads: seq<BlockId>, h: Hist): Conf {
    if pads != [] then At(pads[|pads| - 1], 0, h) else Halt(Unwound, h)
  }

  // In the final code F, a run from c0 gets to where the outcome o of a node lowered to t says.
  ghost predicate Follows(e: Env, F: State, c0: Conf, t: State, o: Out, fuel: nat) {
    match o
    case Normal(h) => t.cur.Some? && t.cur.value < |t.blocks| && Reach(e, F.blocks, c0, Here(t, h), 0)
    case Jump(l, h) => l in F.labels && Reach(e, F.blocks, c0, At(F.labels[l], 0, h), 1)
    case Returning(_, h) => t.fin.Some? && Reach(e, F.blocks, c0, At(t.fin.value, 0, h), 0)
    case Returned(h) => Reach(e, F.blocks, c0, Halt(Left, h), 0)
    case Thrown(h) => Reach(e, F.blocks, c0, Raise(t.pads, h), 0)
    case OutOfFuel(h) => Spends(e, F, c0, h, fuel)
  }

  ghost predicate Spends(e: Env, F: State, c0: Conf, h: Hist, fuel: nat) {
    exists b, i :: Reach(e, F.blocks, c0, At(b, i, h), fuel)
  }

  // ----- putting runs together -----

  lemma After(e: Env, F: State, c: Conf, c0: Conf, k: nat, t: State, o: Out, fuel: nat)
    requires Reach(e, F.blocks, c, c0, k) && Follows(e, F, c0, t, o, fuel)
    ensures Follows(e, F, c, t, o, fuel + k)
    ensures Follows(e, F, c, t, o, fuel)
  {
    match o
    case Normal(h) => ReachTrans(e, F.blocks, c, c0, Here(t, h), k, 0); ReachLess(e, F, c, Here(t, h), k, 0);
    case Jump(l, h) =>
      ReachTrans(e, F.blocks, c, c0, At(F.labels[l], 0, h), k, 1);
      ReachLess(e, F, c, At(F.labels[l], 0, h), k + 1, 1);
    case Returning(_, h) =>
      ReachTrans(e, F.blocks, c, c0, At(t.fin.value, 0, h), k, 0);
      ReachLess(e, F, c, At(t.fin.value, 0, h), k, 0);
    case Returned(h) => ReachTrans(e, F.blocks, c, c0, Halt(Left, h), k, 0); ReachLess(e, F, c, Halt(Left, h), k, 0);
    case Thrown(h) => ReachTrans(e, F.blocks, c, c0, Raise(t.pads, h), k, 0);
      ReachLess(e, F, c, Raise(t.pads, h), k, 0);
    case OutOfFuel(h) =>
      var b, i :| Reach(e, F.blocks, c0, At(b, i, h), fuel);
      ReachTrans(e, F.blocks, c, c0, At(b, i, h), k, fuel);
      ReachLess(e, F, c, At(b, i, h), k + fuel, fuel);
  }

  lemma ReachLess(e: Env, F: State, c: Conf, d: Conf, j: nat, k: nat)
    requires Reach(e, F.blocks, c, d, j) && k <= j
    ensures Reach(e, F.blocks, c, d, k)
  {
  }

  lemma Then(e: Env, F: State, c0: Conf, t: State, h: Hist, u: State, o: Out, fuel: nat)
    requires Follows(e, F, c0, t, Normal(h), fuel) && Follows(e, F, Here(t, h), u, o, fuel)
    ensures Follows(e, F, c0, u, o, fuel)
  {
    After(e, F, c0, Here(t, h), 0, u, o, fuel);
  }

  // An outcome other than normal completion passes every enclosing statement of the same context.
  lemma Exit(e: Env, F: State, c0: Conf, t: State, u: State, o: Out, fuel: nat)
    requires Follows(e, F, c0, t, o, fuel) && !o.Normal?
    requires (t.pads == u.pads && t.fin == u.fin) || o.Jump? || o.Returned? || o.OutOfFuel?
    ensures Follows(e, F, c0, u, o, fuel)
  {
  }

  // ----- single instructions -----

  // What has just been put is what the final code holds there.
  lemma PutAt(s: State, i: Instr, F: State)
    requires s.cur.Some? && s.cur.value < |s.blocks| && Grows(Put(s, i), F)
    ensures var c := s.cur.value; var j := |s.blocks[c]|;
      c < |F.blocks| && j < |F.blocks[c]| && F.blocks[c][j] == i
  {
    var c := s.cur.value;
    var t := Put(s, i);
    assert t.blocks[c] == s.blocks[c] + [i];
    assert t.blocks[c] <= F.blocks[c];
    assert t.blocks[c][|s.blocks[c]|] == i;
  }

  lemma PutStep(e: Env, s: State, i: Instr, F: State, h: Hist)
    requires s.cur.Some? && s.cur.value < |s.blocks| && Grows(Put(s, i), F)
    ensures var c := s.cur.value; var j := |s.blocks[c]|;
      c < |F.blocks| && j < |F.blocks[c]| && F.blocks[c][j] == i
      && Reach(e, F.blocks, Here(s, h), Step(e, F.blocks, Here(s, h)), 1)
  {
    PutAt(s, i, F);
    ReachStep(e, F.blocks, Here(s, h));
  }

  lemma {:induction false} InstsFields(s: State, insts: seq<Inst>)
    ensures SameFields(s, LowerInsts(s, insts))
    decreases insts
  {
    if insts != [] { InstsFields(LowerInst(s, insts[0]), insts[1..]); }
  }

  lemma {:induction false} SimInsts(e: Env, F: State, s: State, insts: seq<Inst>, h: Hist, fuel: nat)
    requires s.cur.Some? && s.cur.value < |s.blocks| && Grows(LowerInsts(s, insts), F)
    ensures Follows(e, F, Here(s, h), LowerInsts(s, insts), ExecInsts(e, insts, h), fuel)
    decreases insts
  {
    if insts == [] {
      ReachRefl(e, F.blocks, Here(s, h));
    } else {
      var i := insts[0];
      var t := LowerInst(s, i);
      var u := LowerInsts(s, insts);
      InstsGrow(t, insts[1..]);
      GrowsTrans(t, u, F);
      InstsFields(s, insts);
      SimInst(e, F, s, i, h);
      if i.Ret? {
        ReachLess(e, F, Here(s, h), Halt(Left, h + [Did(Ret)]), 1, 0);
      } else if MayThrow(i) && e.throws(i, h) {
        ReachLess(e, F, Here(s, h), Raise(s.pads, h + [Threw(i)]), 1, 0);
      } else {
        SimInsts(e, F, t, insts[1..], h + [Did(i)], fuel);
        After(e, F, Here(s, h), Here(t, h + [Did(i)]), 1, u, ExecInsts(e, insts[1..], h + [Did(i)]), fuel);
      }
    }
  }

  lemma SimInst(e: Env, F: State, s: State, i: Inst, h: Hist)
    requires s.cur.Some? && s.cur.value < |s.blocks| && Grows(LowerInst(s, i), F)
    ensures LowerInst(s, i).cur.Some? && LowerInst(s, i).cur.value < |LowerInst(s, i).blocks|
    ensures Reach(e, F.blocks, Here(s, h),
              if i.Ret? then Halt(Left, h + [Did(Ret)])
              else if MayThrow(i) && e.throws(i, h) then Raise(s.pads, h + [Threw(i)])
              else Here(LowerInst(s, i), h + [Did(i)]), 1)
  {
    if MayThrow(i) && s.pads != [] {
      var s1 := Fresh(s, 1);
      var j := Invoke(i, |s.blocks|, s.pads[|s.pads| - 1]);
      var s2 := Put(s1, j);
      assert Grows(s2, F);
      PutStep(e, s1, j, F, h);
      assert Here(s1, h) == Here(s, h);
      assert s2.blocks[|s.blocks|] == [];
    } else {
      PutStep(e, s, Plain(i), F, h);
      var t := LowerInst(s, i);
      assert t.blocks[s.cur.value] == s.blocks[s.cur.value] + [Plain(i)];
    }
  }

  // ----- straight-line expressions -----

  lemma {:induction false} ExecInstsAppend(e: Env, xs: seq<Inst>, ys: seq<Inst>, h: Hist)
    ensures ExecInsts(e, xs + ys, h)
         == (var o := ExecInsts(e, xs, h); if o.Normal? then ExecInsts(e, ys, o.h) else o)
    decreases xs
  {
    if xs == [] {
      assert xs + ys == ys;
    } else {
      assert (xs + ys)[1..] == xs[1..] + ys;
      if !xs[0].Ret? && !(MayThrow(xs[0]) && e.throws(xs[0], h)) {
        ExecInstsAppend(e, xs[1..], ys, h + [Did(xs[0])]);
      }
    }
  }

  lemma {:induction false} ExecSimple(e: Env, n: Node, delay: bool, h: Hist, fuel: nat)
    requires Simple(n)
    ensures Exec(e, n, None, delay, h, fuel) == ExecInsts(e, Flat(n), h)
    decreases n, 0
  {
    ExecSimpleSeq(e, n.kids, delay, h, fuel);
    ExecInstsAppend(e, FlatSeq(n.kids), n.insts, h);
  }

  lemma {:induction false} ExecSimpleSeq(e: Env, ns: seq<Node>, delay: bool, h: Hist, fuel: nat)
    requires SimpleSeq(ns)
    ensures ExecSeq(e, ns, None, delay, h, fuel) == ExecInsts(e, FlatSeq(ns), h)
    decreases ns, 1
  {
    if ns != [] {
      ExecSimple(e, ns[0], delay, h, fuel);
      var o := ExecInsts(e, Flat(ns[0]), h);
      if o.Normal? { ExecSimpleSeq(e, ns[1..], delay, o.h, fuel); }
      ExecInstsAppend(e, Flat(ns[0]), FlatSeq(ns[1..]), h);
    }
  }

  // The instructions of a return statement leave the function, unless one of them throws.
  lemma ReturnOutcome(e: Env, x: Node, h: Hist)
    requires ReturnExpr(x)
    ensures var o := ExecInsts(e, Flat(x), h); o.Returned? || o.Thrown?
  {
    var xs := ReturnFlat(x);
    ExecInstsAppend(e, xs, [Ret], h);
    InstsOutcome(e, xs, h);
  }

  lemma {:induction false} InstsOutcome(e: Env, xs: seq<Inst>, h: Hist)
    ensures var o := ExecInsts(e, xs, h); o.Normal? || o.Returned? || o.Thrown?
    decreases xs
  {
    if xs != [] && !xs[0].Ret? && !(MayThrow(xs[0]) && e.throws(xs[0], h)) {
      InstsOutcome(e, xs[1..], h + [Did(xs[0])]);
    }
  }

  // ----- nodes -----

  // What the simulation of a node asks for.
  ghost predicate Sims(F: State, s: State, n: Node, p: Pos, pad: bool, fin: bool, tail: bool, D: set<Label>) {
    && Ready(s, D, Defs(n), p, pad, fin) && Wf(n, p, pad, fin, tail) && SafeSwitches(n, pad)
    && (tail ==> !fin && s.cached.None?)
    && Grows(Lower(s, n), F)
  }

  // A node is run from its start only when control gets there.
  predicate CanStart(s: State, n: Node, at: Option<Label>) {
    From(at, n) && (at.None? ==> s.cur.Some?)
  }

  lemma CurInRange(s: State, D: set<Label>)
    requires Inv(s, D)
    ensures s.cur.Some? ==> s.cur.value < |s.blocks|
  {
  }

  lemma SimNode(e: Env, F: State, s: State, n: Node, at: Option<Label>, p: Pos, pad: bool, fin: bool, tail: bool,
                D: set<Label>, h: Hist, fuel: nat)
    requires Sims(F, s, n, p, pad, fin, tail, D) && CanStart(s, n, at)
    ensures var o := Exec(e, n, at, fin, h, fuel);
      && Follows(e, F, Entry(F, s, at, h), Lower(s, n), o, fuel)
      && (o.Normal? ==> OpenCur(Lower(s, n)))
    decreases fuel, n, 4
  {
    hide Inv, Mod, Touch, Follows, Grows, Lower, Exec, Defs, Gotos, FirstReturn, OpenCur, Ready, Sims, Wf;
    if n.Excep? {
      TryIsLast(F, s, n, p, pad, fin, tail, D);
      SimExcep(e, F, s, n, at, p, D, h, fuel);
    } else if n.Block? {
      SimStmt(e, F, s, n, at, p, pad, fin, tail, D, h, fuel);
    } else {
      NotLast(F, s, n, p, pad, fin, tail, D);
      if n.Expr? {
        SimExpr(e, F, s, n, at, p, pad, fin, D, h, fuel);
      } else if n.If? {
        SimIf(e, F, s, n, at, p, pad, fin, D, h, fuel);
      } else if n.Switch? {
        SimSwitch(e, F, s, n, at, p, pad, fin, D, h, fuel);
      } else if n.Defer? {
        DeferHasNoLabels(F, s, n, p, pad, fin, D);
        SimDefer(e, F, s, n, p, pad, fin, D, h, fuel);
      } else {
        SimStmt(e, F, s, n, at, p, pad, fin, false, D, h, fuel);
      }
    }
  }

  lemma TryIsLast(F: State, s: State, n: Node, p: Pos, pad: bool, fin: bool, tail: bool, D: set<Label>)
    requires n.Excep? && Sims(F, s, n, p, pad, fin, tail, D)
    ensures tail && !pad && !fin
  {
  }

  // Of the others nothing depends on where they stand, and they leave an open block.
  lemma NotLast(F: State, s: State, n: Node, p: Pos, pad: bool, fin: bool, tail: bool, D: set<Label>)
    requires !n.Block? && !n.Excep? && Sims(F, s, n, p, pad, fin, tail, D)
    ensures Sims(F, s, n, p, pad, fin, false, D) && OpenCur(Lower(s, n))
  {
    hide Inv, Mod, Touch, Ready, Lower, SafeSwitches, Defs, Gotos, FirstReturn, End, Walked, OpenCur, Grows;
    FrameNode(s, n, p, pad, fin, false, D);
  }

  lemma DeferHasNoLabels(F: State, s: State, n: Node, p: Pos, pad: bool, fin: bool, D: set<Label>)
    requires n.Defer? && Sims(F, s, n, p, pad, fin, false, D)
    ensures Defs(n) == {}
  {
    SimpleHasNoLabels(n.undefer);
    SimpleHasNoLabels(n.checkdefer);
  }

  lemma SimStmt(e: Env, F: State, s: State, n: Node, at: Option<Label>, p: Pos, pad: bool, fin: bool, tail: bool,
                D: set<Label>, h: Hist, fuel: nat)
    requires n.ExprStmt? || n.Block? || n.Return? || n.Goto? || n.LabelDef?
    requires Sims(F, s, n, p, pad, fin, tail, D) && CanStart(s, n, at) && (tail ==> n.Block?)
    ensures var o := Exec(e, n, at, fin, h, fuel);
      && Follows(e, F, Entry(F, s, at, h), Lower(s, n), o, fuel)
      && (n.Block? || n.ExprStmt? ==> o.Normal? ==> OpenCur(Lower(s, n)))
    decreases fuel, n, 3
  {
    hide Inv, Mod, Touch, Follows, Grows, ExecSeq, LowerSeq, DefsSeq, WfSeq, SafeSwitchesSeq;
    match n
    case ExprStmt(x) => SimNode(e, F, s, x, at, p, pad, fin, false, D, h, fuel);
    case Block(stmts) => SimSeq(e, F, s, stmts, at, p, pad, fin, tail, D, h, fuel);
    case Return(x) => SimReturn(e, F, s, x, at, p, pad, fin, D, h, fuel);
    case Goto(l) => SimGoto(e, F, s, l, at, D, h, fuel);
    case LabelDef(l) => SimLabel(e, F, s, l, at, D, h, fuel);
  }

  lemma SimExpr(e: Env, F: State, s: State, n: Node, at: Option<Label>, p: Pos, pad: bool, fin: bool,
                D: set<Label>, h: Hist, fuel: nat)
    requires n.Expr? && Sims(F, s, n, p, pad, fin, false, D) && CanStart(s, n, at)
    ensures var o := Exec(e, n, at, fin, h, fuel);
      && Follows(e, F, Entry(F, s, at, h), Lower(s, n), o, fuel)
      && (o.Normal? ==> OpenCur(Lower(s, n)))
    decreases fuel, n, 3
  {
    var t := LowerSeq(s, n.kids);
    var u := LowerInsts(t, n.insts);
    InstsGrow(t, n.insts);
    GrowsTrans(t, u, F);
    InstsFields(t, n.insts);
    FrameNode(s, n, p, pad, fin, false, D);
    hide Inv, Mod, Touch, Wf, Defs, Lower, LowerSeq, LowerInsts, ExecSeq, ExecInsts, Ready, Lowered, Ended;
    assert Lowered(s, Lower(s, n), D, Defs(n), Gotos(n), p, End(n, p, pad), FirstReturn(n), false);
    OpenAfter(s, Lower(s, n), D, Defs(n), Gotos(n), p, End(n, p, pad), FirstReturn(n));
    SimSeq(e, F, s, n.kids, at, p, pad, fin, false, D, h, fuel) by { ExprKids(s, n, at, p, pad, fin, D); }
    var o := ExecSeq(e, n.kids, at, fin, h, fuel);
    assert Lower(s, n) == u by { ExprIs(s, n); }
    assert at.None? || at.value in DefsSeq(n.kids) by { ExprKids(s, n, at, p, pad, fin, D); }
    if o.Normal? {
      SimInsts(e, F, t, n.insts, o.h, fuel);
      Then(e, F, Entry(F, s, at, h), t, o.h, u, ExecInsts(e, n.insts, o.h), fuel);
    } else {
      Exit(e, F, Entry(F, s, at, h), t, u, o, fuel);
    }
  }

  lemma ExprIs(s: State, n: Node)
    requires n.Expr?
    ensures Lower(s, n) == LowerInsts(LowerSeq(s, n.kids), n.insts)
  {
  }

  lemma ExprKids(s: State, n: Node, at: Option<Label>, p: Pos, pad: bool, fin: bool, D: set<Label>)
    requires n.Expr? && Ready(s, D, Defs(n), p, pad, fin) && Wf(n, p, pad, fin, false) && SafeSwitches(n, pad)
      && From(at, n)
    ensures Ready(s, D, DefsSeq(n.kids), p, pad, fin) && WfSeq(n.kids, p, pad, fin, false)
    ensures SafeSwitchesSeq(n.kids, pad) && FromSeq(at, n.kids)
    ensures at.None? || at.value in DefsSeq(n.kids)
  {
  }

  lemma OpenAfter(s: State, t: State, D: set<Label>, L: set<Label>, G: set<Label>, p: Pos, q: Pos, r: Option<Node>)
    requires Lowered(s, t, D, L, G, p, q, r, false)
    ensures OpenCur(t) && t.pads == s.pads && t.fin == s.fin && Inv(t, D + L) && (t.cur.None? <==> q == Dead)
  {
  }

  lemma SimSeq(e: Env, F: State, s: State, ns: seq<Node>, at: Option<Label>, p: Pos, pad: bool, fin: bool, tail: bool,
               D: set<Label>, h: Hist, fuel: nat)
    requires Ready(s, D, DefsSeq(ns), p, pad, fin) && WfSeq(ns, p, pad, fin, tail) && SafeSwitchesSeq(ns, pad)
    requires tail ==> !fin && s.cached.None?
    requires FromSeq(at, ns) && (at.None? ==> s.cur.Some?)
    requires Grows(LowerSeq(s, ns), F)
    ensures var o := ExecSeq(e, ns, at, fin, h, fuel);
      && Follows(e, F, Entry(F, s, at, h), LowerSeq(s, ns), o, fuel)
      && (o.Normal? ==> OpenCur(LowerSeq(s, ns)))
    decreases fuel, ns, 5
  {
    hide Inv, Mod, Touch, Grows, Wf, Lower, Defs, Exec, End, Gotos, FirstReturn, SafeSwitches;
    if ns == [] {
      CurInRange(s, D);
      ReachRefl(e, F.blocks, Here(s, h));
    } else {
      var last := |ns| == 1;
      var n := ns[0];
      var t := Lower(s, n);
      var u := LowerSeq(s, ns);
      SeqGrows(t, ns[1..]);
      GrowsTrans(t, u, F);
      FrameNode(s, n, p, pad, fin, tail && last, D);
      if last {
        assert ns[1..] == [];
        assert LowerSeq(s, ns) == t;
      }
      assert From(at, n) || FromSeq(at, ns[1..]);
      if From(at, n) {
        SimNode(e, F, s, n, at, p, pad, fin, tail && last, D, h, fuel);
        var o := Exec(e, n, at, fin, h, fuel);
        if o.Normal? {
          if !last {
            NormalAlive(e, F, Entry(F, s, at, h), t, o.h, fuel);
            SimSeq(e, F, t, ns[1..], None, End(n, p, pad), pad, fin, tail, D + Defs(n), o.h, fuel);
            Then(e, F, Entry(F, s, at, h), t, o.h, u, ExecSeq(e, ns[1..], None, fin, o.h, fuel), fuel);
          }
        } else if !last {
          SeqFields(t, ns[1..], End(n, p, pad), pad, fin, tail, D + Defs(n));
          Exit(e, F, Entry(F, s, at, h), t, u, o, fuel);
        }
      } else {
        assert !last;
        SimSeq(e, F, t, ns[1..], at, End(n, p, pad), pad, fin, tail, D + Defs(n), h, fuel);
        assert Entry(F, s, at, h) == Entry(F, t, at, h);
      }
    }
  }

  lemma NormalAlive(e: Env, F: State, c0: Conf, t: State, h: Hist, fuel: nat)
    requires Follows(e, F, c0, t, Normal(h), fuel)
    ensures t.cur.Some?
  {
  }

  lemma SeqFields(s: State, ns: seq<Node>, p: Pos, pad: bool, fin: bool, tail: bool, D: set<Label>)
    requires Ready(s, D, DefsSeq(ns), p, pad, fin) && WfSeq(ns, p, pad, fin, tail)
    requires tail ==> !fin && s.cached.None?
    ensures LowerSeq(s, ns).pads == s.pads && LowerSeq(s, ns).fin == s.fin
  {
    hide Inv, Mod, Touch, WfSeq, LowerSeq, DefsSeq, EndSeq;
    FrameSeq(s, ns, p, pad, fin, tail, D);
  }

  lemma SimReturn(e: Env, F: State, s: State, x: Node, at: Option<Label>, p: Pos, pad: bool, fin: bool,
                  D: set<Label>, h: Hist, fuel: nat)
    requires Sims(F, s, Return(x), p, pad, fin, false, D) && CanStart(s, Return(x), at)
    ensures var o := Exec(e, Return(x), at, fin, h, fuel);
      && Follows(e, F, Entry(F, s, at, h), Lower(s, Return(x)), o, fuel) && !o.Normal?
  {
    SimpleHasNoLabels(x);
    CurInRange(s, D);
    var u := Lower(s, Return(x));
    if fin {
      var s0 := s.(cached := OrElse(s.cached, Some(x)));
      assert Grows(Put(s0, Br(s.fin.value)), F);
      PutStep(e, s0, Br(s.fin.value), F, h);
      ReachLess(e, F, Here(s, h), At(s.fin.value, 0, h), 1, 0);
    } else {
      LowerSimple(s, x);
      var t := LowerInsts(s, Flat(x));
      assert Grows(t, F);
      ExecSimple(e, x, fin, h, fuel);
      SimInsts(e, F, s, Flat(x), h, fuel);
      ReturnOutcome(e, x, h);
      InstsFields(s, Flat(x));
      Exit(e, F, Here(s, h), t, u, ExecInsts(e, Flat(x), h), fuel);
    }
  }

  lemma SimGoto(e: Env, F: State, s: State, l: Label, at: Option<Label>, D: set<Label>, h: Hist, fuel: nat)
    requires Inv(s, D) && OpenCur(s) && From(at, Goto(l)) && s.cur.Some? && Grows(Lower(s, Goto(l)), F)
    ensures Follows(e, F, Here(s, h), Lower(s, Goto(l)), Jump(l, h), fuel)
    ensures Exec(e, Goto(l), at, false, h, fuel) == Jump(l, h) == Exec(e, Goto(l), at, true, h, fuel) && at.None?
  {
    var s1 := LabelBlock(s, l);
    assert s1.blocks[s.cur.value] == s.blocks[s.cur.value];
    assert Grows(Put(s1, Br(s1.labels[l])), F);
    PutStep(e, s1, Br(s1.labels[l]), F, h);
  }

  lemma LabelEmpty(s: State, l: Label, D: set<Label>)
    requires Inv(s, D) && l !in D
    ensures l in LabelBlock(s, l).labels
    ensures var s1 := LabelBlock(s, l); var b := s1.labels[l];
      && b < |s1.blocks| && s1.blocks[b] == [] && s1.cur != Some(b) && |s.blocks| <= |s1.blocks|
      && s1.cur == s.cur
      && (s.cur.Some? ==> s.cur.value < |s.blocks| && s1.blocks[s.cur.value] == s.blocks[s.cur.value])
  {
  }

  lemma LabelIs(s: State, l: Label)
    ensures var s1 := LabelBlock(s, l); Lower(s, LabelDef(l)) == Goes(Put(s1, Br(s1.labels[l])), s1.labels[l])
  {
  }

  lemma PutSame(s: State, l: Label)
    requires l in s.labels && s.labels[l] < |s.blocks| && s.cur != Some(s.labels[l])
    ensures var b := s.labels[l]; var u := Goes(Put(s, Br(b)), b);
      u.cur == Some(b) && |u.blocks| == |s.blocks| && u.blocks[b] == s.blocks[b] && u.labels == s.labels
  {
  }

  lemma LabelKept(F: State, u: State, l: Label)
    requires Grows(u, F) && l in u.labels
    ensures l in F.labels && F.labels[l] == u.labels[l]
  {
  }

  // Control comes to a label from the code before it, or by a goto.
  lemma SimLabel(e: Env, F: State, s: State, l: Label, at: Option<Label>, D: set<Label>, h: Hist, fuel: nat)
    requires Inv(s, D) && l !in D && From(at, LabelDef(l)) && (at.None? ==> s.cur.Some?)
    requires Grows(Lower(s, LabelDef(l)), F)
    ensures Follows(e, F, Entry(F, s, at, h), Lower(s, LabelDef(l)), Normal(h), fuel)
  {
    hide Inv, LabelBlock, Lower, Grows, Reach, Put;
    LabelEmpty(s, l, D);
    LabelIs(s, l);
    PutSame(LabelBlock(s, l), l);
    var s1 := LabelBlock(s, l);
    var b := s1.labels[l];
    LabelKept(F, Goes(Put(s1, Br(b)), b), l);
    if at.None? {
      SimLabelPut(e, F, s, s1, b, h);
    } else {
      ReachRefl(e, F.blocks, At(b, 0, h));
    }
  }

  lemma SimLabelPut(e: Env, F: State, s: State, s1: State, b: BlockId, h: Hist)
    requires s.cur.Some? && s1.cur == s.cur && s.cur.value < |s.blocks| <= |s1.blocks|
    requires s1.blocks[s.cur.value] == s.blocks[s.cur.value] && Grows(Goes(Put(s1, Br(b)), b), F)
    ensures Reach(e, F.blocks, Here(s, h), At(b, 0, h), 0)
  {
    assert Grows(Put(s1, Br(b)), F);
    PutStep(e, s1, Br(b), F, h);
    ReachLess(e, F, Here(s, h), At(b, 0, h), 1, 0);
  }

  // ----- if -----

  // In u block `to`, still empty, is the current one, and n lowered from s is closed towards it.
  ghost predicate Joins(F: State, s: State, n: Node, to: BlockId, u: State) {
    && Grows(Close(Lower(s, n), to), F)
    && u.cur == Some(to) && to < |u.blocks| && u.blocks[to] == [] && u.pads == s.pads && u.fin == s.fin
  }

  // A branch that is closed towards block `to` and runs to its end comes to `to`.
  lemma SimBranch(e: Env, F: State, s: State, n: Node, at: Option<Label>, to: BlockId, u: State, pad: bool, fin: bool,
                  D: set<Label>, h: Hist, fuel: nat)
    requires Sims(F, s, n, Start, pad, fin, false, D) && CanStart(s, n, at)
    requires Joins(F, s, n, to, u)
    ensures Follows(e, F, Entry(F, s, at, h), u, Exec(e, n, at, fin, h, fuel), fuel)
    decreases fuel, n, 5
  {
    hide Inv, Mod, Touch, Lower, Exec, Wf, Defs, Gotos, FirstReturn, SafeSwitches, From;
    var t := Lower(s, n);
    var o := Exec(e, n, at, fin, h, fuel);
    SimNode(e, F, s, n, at, Start, pad, fin, false, D, h, fuel);
    FrameNode(s, n, Start, pad, fin, false, D);
    if o.Normal? {
      PutStep(e, t, Br(to), F, o.h);
      ReachLess(e, F, Here(t, o.h), At(to, 0, o.h), 1, 0);
      ReachTrans(e, F.blocks, Entry(F, s, at, h), Here(t, o.h), At(to, 0, o.h), 0, 0);
    } else {
      Exit(e, F, Entry(F, s, at, h), t, u, o, fuel);
    }
  }

  lemma CondStep(e: Env, F: State, s1: State, v: int, h: Hist)
    requires s1.cur.Some? && s1.cur.value < |s1.blocks| && Grows(IfThen(s1, v), F)
    ensures var b := |s1.blocks|;
      Reach(e, F.blocks, Here(s1, h), At(if e.test(v, h) then b else b + 2, 0, h), 1)
  {
    var b := |s1.blocks|;
    var s2 := Fresh(s1, 3);
    var i := CondBr(v, b, b + 2);
    assert Grows(Put(s2, i), F);
    PutStep(e, s2, i, F, h);
    assert Here(s2, h) == Here(s1, h);
  }

  // What simulating the parts of an if statement needs.
  ghost predicate IfSims(F: State, s: State, n: Node, p: Pos, pad: bool, fin: bool, D: set<Label>)
    requires n.If?
  {
    var s1 := Lower(s, n.cond); var v := Val(n.cond); var b := |s1.blocks|;
    var sT := IfThen(s1, v); var sF := IfElse(s1, v, n.thn); var u := IfTail(s1, v, n.thn, n.els);
    && u == Lower(s, n) && u.pads == s.pads && u.fin == s.fin
    && n.cond.Expr? && Sims(F, s, n.cond, p, pad, fin, false, D)
    && Sims(F, sT, n.thn, Start, pad, fin, false, D + Defs(n.cond))
    && Sims(F, sF, n.els, Start, pad, fin, false, D + Defs(n.cond) + Defs(n.thn))
    && Grows(sT, F) && Grows(Close(Lower(sT, n.thn), b + 1), F) && Grows(Close(Lower(sF, n.els), b + 1), F)
    && s1.cur.Some? && s1.cur.value < |s1.blocks|
    && sT.pads == s.pads && sT.fin == s.fin && sF.pads == s.pads && sF.fin == s.fin
    && IfReady(s1, v, n.thn, n.els, D + Defs(n.cond), pad, fin)
  }

  lemma IfGrowsTo(F: State, s: State, n: Node)
    requires n.If? && Grows(Lower(s, n), F)
    ensures var s1 := Lower(s, n.cond); var v := Val(n.cond); var b := |s1.blocks|;
      var sT := IfThen(s1, v); var sF := IfElse(s1, v, n.thn); var u := IfTail(s1, v, n.thn, n.els);
      && u == Lower(s, n) && Grows(s1, F) && Grows(sT, F)
      && Grows(Close(Lower(sT, n.thn), b + 1), F) && Grows(Close(Lower(sF, n.els), b + 1), F)
      && Grows(Lower(sT, n.thn), F) && Grows(Lower(sF, n.els), F)
  {
    var If(c, t, f) := n;
    var s1 := Lower(s, c);
    var v := Val(c);
    var b := |s1.blocks|;
    IfTailIs(s, c, t, f);
    IfGrows(s, n);
    hide Lower, Grows, Close, Put;
    var sT := IfThen(s1, v);
    var sF := IfElse(s1, v, t);
    var u := IfTail(s1, v, t, f);
    GrowsTrans(sF, u, F);
    GrowsTrans(sT, sF, F);
    GrowsTrans(s1, sT, F);
    CurGrows2(Close(Lower(sT, t), b + 1), sF, F);
    CurGrows2(Close(Lower(sF, f), b + 1), u, F);
    NodeCloseGrows(sT, t, b + 1, F);
    NodeCloseGrows(sF, f, b + 1, F);
  }

  lemma IfSimsHold(F: State, s: State, n: Node, p: Pos, pad: bool, fin: bool, D: set<Label>)
    requires n.If? && Sims(F, s, n, p, pad, fin, false, D)
    ensures IfSims(F, s, n, p, pad, fin, D)
  {
    hide Inv, Mod, Touch, Lower, Wf, Defs, Grows, Close, Put, End, Ended, OpenCur, IfThen, IfElse, IfTail, Ready, Gotos,
      FirstReturn, Lowered, SafeSwitches;
    var If(c, t, f) := n;
    var s1 := Lower(s, c);
    var v := Val(c);
    FrameIf(s, n, p, pad, fin, D);
    IfUnfolds(c, t, f, p, pad, fin);
    SubReady(s, D, Defs(n), Defs(c), p, pad, fin);
    IfGrowsTo(F, s, n);
    NodeFacts(s, c, p, pad, fin, D);
    NodeFacts(s, n, p, pad, fin, D);
    NodeFacts(IfThen(s1, v), t, Start, pad, fin, D + Defs(c));
    IfFields(s1, v, t);
  }

  lemma SimsIs(F: State, s: State, n: Node, p: Pos, pad: bool, fin: bool, tail: bool, D: set<Label>)
    requires Sims(F, s, n, p, pad, fin, tail, D)
    ensures Ready(s, D, Defs(n), p, pad, fin) && Wf(n, p, pad, fin, tail)
  {
  }

  lemma SubReady(s: State, D: set<Label>, L: set<Label>, K: set<Label>, p: Pos, pad: bool, fin: bool)
    requires Ready(s, D, L, p, pad, fin) && K <= L
    ensures Ready(s, D, K, p, pad, fin)
  {
  }

  lemma NodeFacts(s: State, n: Node, p: Pos, pad: bool, fin: bool, D: set<Label>)
    requires Ready(s, D, Defs(n), p, pad, fin) && Wf(n, p, pad, fin, false)
    ensures var t := Lower(s, n);
      && t.pads == s.pads && t.fin == s.fin && (t.cur.None? <==> End(n, p, pad) == Dead)
      && (t.cur.Some? ==> t.cur.value < |t.blocks|) && OpenCur(t)
  {
    hide Mod, Touch, Wf, Defs, Lower;
    FrameNode(s, n, p, pad, fin, false, D);
  }

  lemma IfFields(s1: State, v: int, t: Node)
    requires Lower(IfThen(s1, v), t).pads == IfThen(s1, v).pads && Lower(IfThen(s1, v), t).fin == IfThen(s1, v).fin
    ensures IfThen(s1, v).pads == s1.pads && IfThen(s1, v).fin == s1.fin
    ensures IfElse(s1, v, t).pads == s1.pads && IfElse(s1, v, t).fin == s1.fin
  {
    hide Lower;
  }

  lemma CurGrows2(s: State, t: State, F: State)
    requires Grows(t, F) && s.blocks == t.blocks && s.labels == t.labels
    ensures Grows(s, F)
  {
  }

  lemma NodeCloseGrows(s: State, n: Node, to: BlockId, F: State)
    requires Grows(Close(Lower(s, n), to), F)
    ensures Grows(Lower(s, n), F)
  {
    var t := Lower(s, n);
    GrowsRefl(t);
    CloseGrows(t, t, to);
    GrowsTrans(t, Close(t, to), F);
  }

  lemma IfJoins(F: State, s: State, n: Node, p: Pos, pad: bool, fin: bool, D: set<Label>)
    requires n.If? && IfSims(F, s, n, p, pad, fin, D)
    ensures var s1 := Lower(s, n.cond); var v := Val(n.cond); var b := |s1.blocks|;
      var sT := IfThen(s1, v); var sF := IfElse(s1, v, n.thn); var u := IfTail(s1, v, n.thn, n.els);
      && u == Lower(s, n) && u.pads == s.pads && u.fin == s.fin
      && n.cond.Expr? && Sims(F, s, n.cond, p, pad, fin, false, D) && s1.cur.Some? && s1.cur.value < |s1.blocks|
      && Sims(F, sT, n.thn, Start, pad, fin, false, D + Defs(n.cond)) && Joins(F, sT, n.thn, b + 1, u) && Grows(sT, F)
      && Sims(F, sF, n.els, Start, pad, fin, false, D + Defs(n.cond) + Defs(n.thn)) && Joins(F, sF, n.els, b + 1, u)
      && sT.cur == Some(b) && b < |sT.blocks| && sT.blocks[b] == [] && sF.cur == Some(b + 2) && b + 2 < |sF.blocks|
        && sF.blocks[b + 2] == []
  {
    hide Inv, Mod, Touch, Lower, Wf, Defs, Grows, Close, Put, Fresh, End, Ended, Sims;
    var s1 := Lower(s, n.cond);
    CurInRange(IfThen(s1, Val(n.cond)), D + Defs(n.cond));
    CurInRange(IfElse(s1, Val(n.cond), n.thn), D + Defs(n.cond) + Defs(n.thn));
  }

  // The condition, and then the branch it picks.
  lemma SimCond(e: Env, F: State, s: State, n: Node, at: Option<Label>, p: Pos, pad: bool, fin: bool,
                D: set<Label>, h: Hist, fuel: nat)
    requires n.If? && IfSims(F, s, n, p, pad, fin, D) && n.cond.Expr? && From(at, n.cond) && From(at, n)
    requires at.None? ==> s.cur.Some?
    requires From(None, n.thn) && From(None, n.els)
    ensures var o := Exec(e, n.cond, at, fin, h, fuel); var c0 := Entry(F, s, at, h); var u := Lower(s, n);
      Follows(e, F, c0, u,
              if !o.Normal? then o
              else if e.test(Val(n.cond), o.h) then Exec(e, n.thn, None, fin, o.h, fuel)
              else Exec(e, n.els, None, fin, o.h, fuel), fuel)
    decreases fuel, n, 2
  {
    hide Inv, Mod, Touch, Lower, Wf, Defs, Grows, Close, Put, End, Ended, Sims, Follows, IfThen, IfElse, IfTail, Ready,
      Exec, Lowered, IfSims, Joins, Reach;
    var If(c, t, f) := n;
    IfJoins(F, s, n, p, pad, fin, D);
    var s1 := Lower(s, c);
    var v := Val(c);
    var b := |s1.blocks|;
    var u := IfTail(s1, v, t, f);
    var c0 := Entry(F, s, at, h);
    SimNode(e, F, s, c, at, p, pad, fin, false, D, h, fuel);
    var o := Exec(e, c, at, fin, h, fuel);
    if !o.Normal? {
      NodeFacts(s, c, p, pad, fin, D) by { SimsIs(F, s, c, p, pad, fin, false, D); }
      Exit(e, F, c0, s1, u, o, fuel);
    } else {
      CondStep(e, F, s1, v, o.h);
      if e.test(v, o.h) {
        SimBranch(e, F, IfThen(s1, v), t, None, b + 1, u, pad, fin, D + Defs(c), o.h, fuel);
        After(e, F, Here(s1, o.h), At(b, 0, o.h), 1, u, Exec(e, t, None, fin, o.h, fuel), fuel);
        Then(e, F, c0, s1, o.h, u, Exec(e, t, None, fin, o.h, fuel), fuel);
      } else {
        SimBranch(e, F, IfElse(s1, v, t), f, None, b + 1, u, pad, fin, D + Defs(c) + Defs(t), o.h, fuel);
        After(e, F, Here(s1, o.h), At(b + 2, 0, o.h), 1, u, Exec(e, f, None, fin, o.h, fuel), fuel);
        Then(e, F, c0, s1, o.h, u, Exec(e, f, None, fin, o.h, fuel), fuel);
      }
    }
  }

  lemma SimIf(e: Env, F: State, s: State, n: Node, at: Option<Label>, p: Pos, pad: bool, fin: bool,
              D: set<Label>, h: Hist, fuel: nat)
    requires n.If? && Sims(F, s, n, p, pad, fin, false, D) && CanStart(s, n, at)
    ensures Follows(e, F, Entry(F, s, at, h), Lower(s, n), Exec(e, n, at, fin, h, fuel), fuel)
    decreases fuel, n, 3
  {
    hide Inv, Mod, Touch, Lower, Wf, Defs, Grows, Close, Put, End, Ended, Sims, Follows, IfThen, IfElse, IfTail, Ready,
      Exec, Lowered, IfSims, Joins;
    var If(c, t, f) := n;
    IfSimsHold(F, s, n, p, pad, fin, D);
    IfJoins(F, s, n, p, pad, fin, D);
    ExecIf(e, n, at, fin, h, fuel);
    var s1 := Lower(s, c);
    var v := Val(c);
    var b := |s1.blocks|;
    var u := IfTail(s1, v, t, f);
    if From(at, c) {
      SimCond(e, F, s, n, at, p, pad, fin, D, h, fuel);
    } else if From(at, t) {
      SimBranch(e, F, IfThen(s1, v), t, at, b + 1, u, pad, fin, D + Defs(c), h, fuel);
    } else {
      SimBranch(e, F, IfElse(s1, v, t), f, at, b + 1, u, pad, fin, D + Defs(c) + Defs(t), h, fuel);
    }
  }

  lemma ExecIf(e: Env, n: Node, at: Option<Label>, delay: bool, h: Hist, fuel: nat)
    requires n.If? && n.cond.Expr? && From(at, n)
    ensures From(at, n.cond) || From(at, n.thn) || From(at, n.els)
    ensures From(None, n.thn) && From(None, n.els)
    ensures Exec(e, n, at, delay, h, fuel) ==
            if From(at, n.cond) then
              var o := Exec(e, n.cond, at, delay, h, fuel);
              if !o.Normal? then o
              else if e.test(Val(n.cond), o.h) then Exec(e, n.thn, None, delay, o.h, fuel)
              else Exec(e, n.els, None, delay, o.h, fuel)
            else if From(at, n.thn) then Exec(e, n.thn, at, delay, h, fuel)
            else Exec(e, n.els, at, delay, h, fuel)
  {
  }

  // ----- switch -----

  lemma {:induction false} ArmOfCase(xs: seq<int>, b: BlockId, rest: seq<(int, BlockId)>, other: BlockId, x: int)
    ensures Arm(ArmsOf(xs, b) + rest, other, x) == if x in xs then b else Arm(rest, other, x)
    decreases xs
  {
    var arms := ArmsOf(xs, b) + rest;
    if xs == [] {
      assert arms == rest;
    } else {
      assert arms[0] == (xs[0], b);
      assert arms[1..] == ArmsOf(xs[1..], b) + rest;
      ArmOfCase(xs[1..], b, rest, other, x);
    }
  }

  lemma {:induction false} ArmFirst(vals: seq<seq<int>>, b: BlockId, other: BlockId, x: int)
    ensures Arm(Arms(vals, b), other, x)
         == if exists i :: 0 <= i < |vals| && x in vals[i] then b + FirstCase(vals, x) else other
    decreases vals
  {
    if vals != [] {
      ArmOfCase(vals[0], b, Arms(vals[1..], b + 1), other, x);
      ArmFirst(vals[1..], b + 1, other, x);
      if exists i :: 0 <= i < |vals| && x in vals[i] {
        if x !in vals[0] {
          var i :| 0 <= i < |vals| && x in vals[i];
          assert x in vals[1..][i - 1];
        }
      }
      if exists i :: 0 <= i < |vals[1..]| && x in vals[1..][i] {
        var i :| 0 <= i < |vals[1..]| && x in vals[1..][i];
        assert x in vals[i + 1];
      }
    }
  }

  // The switch instruction picks the block of the case the tree picks.
  lemma ArmIsPick(vals: seq<seq<int>>, b: BlockId, x: int)
    ensures Arm(Arms(vals, b), b + DefaultCase(vals), x) == b + Pick(vals, x)
  {
    ArmFirst(vals, b, b + DefaultCase(vals), x);
  }

  // A body that is not moved out of its block ends there, if it ends.
  lemma StaysIn(s: State, n: Node, pad: bool, fin: bool, D: set<Label>)
    requires s.cur.Some? && Ready(s, D, Defs(n), Start, pad, fin) && Wf(n, Start, pad, fin, false)
      && End(n, Start, pad) != Moved
    ensures var t := Lower(s, n); (t.cur.Some? ==> t.cur == s.cur) && t.pads == s.pads && t.fin == s.fin && OpenCur(t)
  {
    hide Inv, Mod, Touch, Wf, Defs, Lower, End, Gotos, FirstReturn, OpenCur;
    FrameNode(s, n, Start, pad, fin, false, D);
  }

  lemma CaseTailIs(s: State, n: Node, b: BlockId, epilog: BlockId)
    requires var t := Lower(Goes(s, b), n); t.cur == Some(b) && OpenCur(t)
    ensures CaseTail(s, n, b, epilog) == Put(Lower(Goes(s, b), n), Br(epilog))
  {
    hide Lower;
  }

  lemma SimBody(e: Env, F: State, s: State, n: Node, at: Option<Label>, b: BlockId, epilog: BlockId, u: State,
                pad: bool, fin: bool, D: set<Label>, h: Hist, fuel: nat)
    requires Ready(Goes(s, b), D, Defs(n), Start, pad, fin) && Wf(n, Start, pad, fin, false)
    requires SafeSwitches(n, pad) && End(n, Start, pad) != Moved && From(at, n)
    requires Grows(CaseTail(s, n, b, epilog), F) && b < |s.blocks| && s.blocks[b] == []
    requires u.cur == Some(epilog) && epilog < |u.blocks| && u.blocks[epilog] == [] && u.pads == s.pads
      && u.fin == s.fin
    ensures Follows(e, F, if at.None? then At(b, 0, h) else Entry(F, s, at, h), u, Exec(e, n, at, fin, h, fuel), fuel)
    decreases fuel, n, 5
  {
    hide Inv, Mod, Touch, Wf, Defs, Lower, Exec, End, Grows, SafeSwitches, Reach, Ended, OpenCur, CaseTail, Ready;
    var s1 := Goes(s, b);
    var t := Lower(s1, n);
    var o := Exec(e, n, at, fin, h, fuel);
    BodyGrows(s, n, b, epilog);
    GrowsTrans(t, CaseTail(s, n, b, epilog), F);
    SimNode(e, F, s1, n, at, Start, pad, fin, false, D, h, fuel);
    StaysIn(s1, n, pad, fin, D);
    var c0 := Entry(F, s1, at, h);
    assert c0 == if at.None? then At(b, 0, h) else Entry(F, s, at, h);
    if o.Normal? {
      CaseTailIs(s, n, b, epilog);
      PutStep(e, t, Br(epilog), F, o.h);
      ReachLess(e, F, Here(t, o.h), At(epilog, 0, o.h), 1, 0);
      ReachTrans(e, F.blocks, c0, Here(t, o.h), At(epilog, 0, o.h), 0, 0);
    } else {
      Exit(e, F, c0, t, u, o, fuel);
    }
  }

  // What simulating the bodies of a switch needs, lowered into blocks b, b + 1, ... and closed towards
  // block `epilog`, which is the current one in u.
  ghost predicate BodiesReady(F: State, s0: State, s: State, ns: seq<Node>, b: BlockId, epilog: BlockId, u: State,
                              pad: bool, fin: bool, k: Book) {
    && Prog(s0, s, k) && Range(b, |ns|) <= k.R && epilog < |s.blocks|
    && k.D !! DefsSeq(ns) && LabelBlocks(s0, DefsSeq(ns)) <= k.T
    && (pad <==> s.pads != []) && (fin <==> s.fin.Some?) && WfBodies(ns, pad, fin) && SafeBodies(ns, pad)
    && Grows(LowerBodies(s, ns, b, epilog), F)
    && u.cur == Some(epilog) && epilog < |u.blocks| && u.blocks[epilog] == [] && u.pads == s.pads && u.fin == s.fin
  }

  // After the first body the others are still to come.
  lemma NextBodies(F: State, s0: State, s: State, ns: seq<Node>, b: BlockId, epilog: BlockId, u: State,
                   pad: bool, fin: bool, k: Book) returns (k1: Book)
    requires ns != [] && BodiesReady(F, s0, s, ns, b, epilog, u, pad, fin, k)
    ensures var t := CaseTail(s, ns[0], b, epilog);
      BodiesReady(F, s0, t, ns[1..], b + 1, epilog, u, pad, fin, k1) && Grows(t, F) && t.labels.Keys >= s.labels.Keys
    ensures Ready(Goes(s, b), k.D, Defs(ns[0]), Start, pad, fin) && Wf(ns[0], Start, pad, fin, false)
    ensures SafeSwitches(ns[0], pad) && End(ns[0], Start, pad) != Moved && b < |s.blocks| && s.blocks[b] == []
  {
    hide Inv, Mod, Touch, Prog, LabelBlocks, Lower, Wf, Defs, End, Grows, Ready, CaseTail, SafeSwitches, Gotos,
      FirstReturn;
    LabelBlocksPart(s0, Defs(ns[0]), DefsSeq(ns));
    LabelBlocksPart(s0, DefsSeq(ns[1..]), DefsSeq(ns));
    assert b in Range(b, |ns|);
    FrameBody(s0, s, ns[0], b, epilog, pad, fin, k);
    var t := CaseTail(s, ns[0], b, epilog);
    BodiesIs(s, ns, b, epilog);
    BodiesGrow(t, ns[1..], b + 1, epilog);
    GrowsTrans(t, LowerBodies(s, ns, b, epilog), F);
    ReservedIn(s0, s, b, k);
    k1 := Book(k.T, k.D + Defs(ns[0]), k.R - {b}, k.E + {b}, k.P);
    assert Range(b + 1, |ns| - 1) <= k1.R;
  }

  lemma SimBodies(e: Env, F: State, s0: State, s: State, ns: seq<Node>, j: nat, at: Option<Label>, b: BlockId,
                  epilog: BlockId,
                  u: State, pad: bool, fin: bool, k: Book, h: Hist, fuel: nat)
    requires j < |ns| && From(at, ns[j]) && BodiesReady(F, s0, s, ns, b, epilog, u, pad, fin, k)
    ensures Follows(e, F, if at.None? then At(b + j, 0, h) else Entry(F, s, at, h), u,
                    Exec(e, ns[j], at, fin, h, fuel), fuel)
    decreases fuel, ns, 6
  {
    hide Inv, Mod, Touch, Lower, Wf, Defs, End, Exec, Follows, Grows, Ready, CaseTail, BodiesReady, SafeSwitches;
    var k1 := NextBodies(F, s0, s, ns, b, epilog, u, pad, fin, k);
    var t := CaseTail(s, ns[0], b, epilog);
    if j == 0 {
      BodiesEnd(F, s0, s, ns, b, epilog, u, pad, fin, k);
      SimBody(e, F, s, ns[0], at, b, epilog, u, pad, fin, k.D, h, fuel);
    } else {
      assert ns[1..][j - 1] == ns[j];
      SimBodies(e, F, s0, t, ns[1..], j - 1, at, b + 1, epilog, u, pad, fin, k1, h, fuel);
      assert at.Some? ==> Entry(F, s, at, h) == Entry(F, t, at, h);
    }
  }

  lemma BodiesEnd(F: State, s0: State, s: State, ns: seq<Node>, b: BlockId, epilog: BlockId, u: State,
                  pad: bool, fin: bool, k: Book)
    requires BodiesReady(F, s0, s, ns, b, epilog, u, pad, fin, k)
    ensures u.cur == Some(epilog) && epilog < |u.blocks| && u.blocks[epilog] == [] && u.pads == s.pads && u.fin == s.fin
  {
  }

  lemma BodiesIs(s: State, ns: seq<Node>, b: BlockId, epilog: BlockId)
    requires ns != []
    ensures LowerBodies(s, ns, b, epilog) == LowerBodies(CaseTail(s, ns[0], b, epilog), ns[1..], b + 1, epilog)
  {
  }

  lemma SwitchBook(s: State, n: Node, p: Pos, pad: bool, fin: bool, D: set<Label>) returns (k: Book)
    requires n.Switch? && Ready(s, D, Defs(n), p, pad, fin) && Wf(n, p, pad, fin, false)
    ensures var s1 := Lower(s, n.sel); var m := |n.bodies|; var u := Lower(s, n);
      && s1.cur.Some? && s1.cur.value < |s1.blocks| && s1.pads == s.pads && s1.fin == s.fin
      && k.R == {} && k.P == {} && k.D == D + Defs(n.sel) && k.T == Touch(s, Defs(n))
      && Prog(s, BodiesStart(s1, m), BodiesBook(s1, m, k))
      && BodiesStart(s1, m).pads == s.pads && BodiesStart(s1, m).fin == s.fin
      && u.cur == Some(|s1.blocks| + m) && |s1.blocks| + m < |u.blocks| && u.blocks[|s1.blocks| + m] == []
      && u.pads == s.pads && u.fin == s.fin
  {
    hide Inv, Mod, Touch, Prog, LabelBlocks, OpenCur, Ended, Wf, Defs, DefsSeq, Gotos, Lower, End, BodiesStart,
      SwitchTail, WfBodies, FirstReturn, FirstReturnSeq, Ready;
    SwitchUnfolds(n, p, pad, fin);
    SubReady(s, D, Defs(n), Defs(n.sel), p, pad, fin);
    ReadyIs(s, D, Defs(n), p, pad, fin);
    SwitchTailIs(s, n);
    FrameNode(s, n.sel, p, pad, fin, false, D);
    var s1 := Lower(s, n.sel);
    LabelBlocksPart(s, Defs(n.sel), Defs(n));
    LabelBlocksPart(s, DefsSeq(n.bodies), Defs(n));
    ProgStart(s, Defs(n), D);
    k := Book(Touch(s, Defs(n)), D, {}, {}, {});
    ProgWalk(s, s, s1, Defs(n.sel), k);
    k := k.(D := k.D + Defs(n.sel));
    var E := FrameSwitchTail(s, s1, n, pad, fin, k);
    SwitchCur(s1, n);
    ProgInv(s, SwitchTail(s1, n), Book(k.T, k.D + DefsSeq(n.bodies), {}, E, {}));
    CurInRange(SwitchTail(s1, n), k.D + DefsSeq(n.bodies));
  }

  lemma SwitchCur(s1: State, n: Node)
    requires n.Switch?
    ensures SwitchTail(s1, n).cur == Some(|s1.blocks| + |n.bodies|)
  {
  }

  lemma SwitchTailEnd(s1: State, n: Node)
    requires n.Switch?
    ensures var b := |s1.blocks|; var m := |n.bodies|;
      var f3 := LowerBodies(Fresh(s1, m + 1), n.bodies, b, b + m);
      SwitchTail(s1, n) == Goes(Put(f3.(cur := s1.cur), SwitchBr(Val(n.sel), b + DefaultCase(n.vals), Arms(n.vals, b))),
        b + m)
  {
  }

  // The end of a lowered switch, whatever block the bodies were lowered from.
  lemma SwitchEnd(s: State, n: Node)
    requires n.Switch?
    ensures var s1 := Lower(s, n.sel); var b := |s1.blocks|; var m := |n.bodies|;
      var s3 := LowerBodies(BodiesStart(s1, m), n.bodies, b, b + m);
      var i := SwitchBr(Val(n.sel), b + DefaultCase(n.vals), Arms(n.vals, b));
      Lower(s, n) == Goes(Put(s3.(cur := s1.cur), i), b + m)
  {
    hide Lower, LowerBodies, Arms, SwitchTail, Put;
    var s1 := Lower(s, n.sel);
    var m := |n.bodies|;
    SwitchTailIs(s, n);
    SwitchTailEnd(s1, n);
    LowerBodiesCur(Fresh(s1, m + 1), None, n.bodies, |s1.blocks|, |s1.blocks| + m);
    var s3 := LowerBodies(BodiesStart(s1, m), n.bodies, |s1.blocks|, |s1.blocks| + m);
    var f3 := LowerBodies(Fresh(s1, m + 1), n.bodies, |s1.blocks|, |s1.blocks| + m);
    assert f3.(cur := s1.cur) == f3.(cur := None).(cur := s1.cur) == s3.(cur := s1.cur);
  }

  lemma SwitchStep(e: Env, F: State, s: State, n: Node, h: Hist)
    requires n.Switch? && Grows(Lower(s, n), F) && |n.vals| == |n.bodies|
    requires var s1 := Lower(s, n.sel); s1.cur.Some? && s1.cur.value < |s1.blocks|
    requires var s1 := Lower(s, n.sel); var m := |n.bodies|; var c := s1.cur.value;
      var s3 := LowerBodies(BodiesStart(s1, m), n.bodies, |s1.blocks|, |s1.blocks| + m);
      c < |s3.blocks| && s3.blocks[c] == s1.blocks[c]
    ensures var s1 := Lower(s, n.sel);
      Reach(e, F.blocks, Here(s1, h), At(|s1.blocks| + Pick(n.vals, e.choose(Val(n.sel), h)), 0, h), 1)
  {
    hide Lower, LowerBodies, Arms, Arm, Pick, DefaultCase, SwitchTail;
    SwitchTailIs(s, n);
    var s1 := Lower(s, n.sel);
    var b := |s1.blocks|;
    var m := |n.bodies|;
    var s3 := LowerBodies(BodiesStart(s1, m), n.bodies, b, b + m);
    var i := SwitchBr(Val(n.sel), b + DefaultCase(n.vals), Arms(n.vals, b));
    LowerBodiesCur(Fresh(s1, m + 1), None, n.bodies, b, b + m);
    var s4 := s3.(cur := s1.cur);
    var f3 := LowerBodies(Fresh(s1, m + 1), n.bodies, b, b + m);
    assert s3.(cur := None) == f3.(cur := None);
    assert f3.(cur := s1.cur) == f3.(cur := None).(cur := s1.cur) == s4;
    SwitchTailEnd(s1, n);
    CurGrows2(Put(s4, i), Lower(s, n), F);
    PutStep(e, s4, i, F, h);
    ArmIsPick(n.vals, b, e.choose(Val(n.sel), h));
  }

  // What simulating the parts of a switch needs.
  lemma SwitchReady(F: State, s: State, n: Node, p: Pos, pad: bool, fin: bool, D: set<Label>) returns (k: Book)
    requires n.Switch? && Sims(F, s, n, p, pad, fin, false, D)
    ensures var s1 := Lower(s, n.sel); var m := |n.bodies|; var b := |s1.blocks|; var s2 := BodiesStart(s1, m);
      var u := Lower(s, n);
      && n.sel.Expr? && |n.vals| == m && Sims(F, s, n.sel, p, pad, fin, false, D)
      && s1.cur.Some? && s1.cur.value < |s1.blocks| && s1.pads == u.pads && s1.fin == u.fin
      && BodiesReady(F, s, s2, n.bodies, b, b + m, u, pad, fin, k)
      && Grows(u, F) && u.cur == Some(b + m) && b + m < |u.blocks| && u.blocks[b + m] == []
      && var c := s1.cur.value; var s3 := LowerBodies(s2, n.bodies, b, b + m);
        c < |s3.blocks| && s3.blocks[c] == s1.blocks[c]
  {
    hide Inv, Mod, Touch, Prog, LabelBlocks, OpenCur, Ended, Wf, Defs, DefsSeq, Gotos, Lower, LowerBodies, End,
      BodiesStart, SwitchTail, WfBodies, Ready, Grows, SafeSwitches, SafeBodies, FirstReturn, FirstReturnSeq;
    var m := |n.bodies|;
    SwitchUnfolds(n, p, pad, fin);
    SwitchGrows(s, n);
    var k0 := SwitchBook(s, n, p, pad, fin, D);
    ReadyIs(s, D, Defs(n), p, pad, fin);
    SubReady(s, D, Defs(n), Defs(n.sel), p, pad, fin);
    var s1 := Lower(s, n.sel);
    var b := |s1.blocks|;
    var s2 := BodiesStart(s1, m);
    k := BodiesBook(s1, m, k0);
    LabelBlocksPart(s, DefsSeq(n.bodies), Defs(n));
    BodiesStartBlocks(s1, m);
    FrameBodies(s, s2, n.bodies, b, b + m, pad, fin, k);
    var s3 := LowerBodies(s2, n.bodies, b, b + m);
    GrowsTrans(s3, Lower(s, n), F);
    GrowsTrans(s2, s3, F);
    GrowsTrans(s1, s2, F);
    assert s1.cur.value in k.P;
    GrowsLength(s2, s3);
  }

  lemma SimSwitch(e: Env, F: State, s: State, n: Node, at: Option<Label>, p: Pos, pad: bool, fin: bool,
                  D: set<Label>, h: Hist, fuel: nat)
    requires n.Switch? && Sims(F, s, n, p, pad, fin, false, D) && CanStart(s, n, at)
    ensures Follows(e, F, Entry(F, s, at, h), Lower(s, n), Exec(e, n, at, fin, h, fuel), fuel)
    decreases fuel, n, 3
  {
    hide Inv, Mod, Touch, OpenCur, Ended, Wf, Defs, DefsSeq, Lower, LowerBodies, End, BodiesStart, SwitchTail, Ready,
      Follows, Grows, Exec, Sims, BodiesReady, Reach, Pick;
    var m := |n.bodies|;
    var k := SwitchReady(F, s, n, p, pad, fin, D);
    ExecSwitch(e, n, at, fin, h, fuel);
    var s1 := Lower(s, n.sel);
    var b := |s1.blocks|;
    var s2 := BodiesStart(s1, m);
    var u := Lower(s, n);
    var c0 := Entry(F, s, at, h);
    if From(at, n.sel) {
      SimNode(e, F, s, n.sel, at, p, pad, fin, false, D, h, fuel);
      var o := Exec(e, n.sel, at, fin, h, fuel);
      if o.Normal? {
        var j := Pick(n.vals, e.choose(Val(n.sel), o.h));
        SwitchStep(e, F, s, n, o.h);
        if j < m {
          SimBodies(e, F, s, s2, n.bodies, j, None, b, b + m, u, pad, fin, k, o.h, fuel);
          After(e, F, Here(s1, o.h), At(b + j, 0, o.h), 1, u, Exec(e, n.bodies[j], None, fin, o.h, fuel), fuel);
          Then(e, F, c0, s1, o.h, u, Exec(e, n.bodies[j], None, fin, o.h, fuel), fuel);
        } else {
          FellThrough(e, F, c0, s1, u, o.h, fuel);
        }
      } else {
        Exit(e, F, c0, s1, u, o, fuel);
      }
    } else {
      var j := Holder(n.bodies, at.value);
      SimBodies(e, F, s, s2, n.bodies, j, at, b, b + m, u, pad, fin, k, h, fuel);
      assert Entry(F, s2, at, h) == c0;
    }
  }


  lemma GrowsLength(a: State, b: State)
    requires Grows(a, b)
    ensures |a.blocks| <= |b.blocks|
  {
  }

  lemma BodiesStartBlocks(s1: State, m: nat)
    ensures |BodiesStart(s1, m).blocks| == |s1.blocks| + m + 1
    ensures forall x ::
      0 <= x < |s1.blocks| ==> x < |BodiesStart(s1, m).blocks| && BodiesStart(s1, m).blocks[x] == s1.blocks[x]
  {
  }

  // Control goes from the end of one lowered part straight to the end of the whole.
  lemma FellThrough(e: Env, F: State, c0: Conf, t: State, u: State, h: Hist, fuel: nat)
    requires Follows(e, F, c0, t, Normal(h), fuel) && Reach(e, F.blocks, Here(t, h), Here(u, h), 1)
    requires u.cur.Some? && u.cur.value < |u.blocks|
    ensures Follows(e, F, c0, u, Normal(h), fuel)
  {
    ReachTrans(e, F.blocks, c0, Here(t, h), Here(u, h), 0, 1);
    ReachLess(e, F, c0, Here(u, h), 1, 0);
  }

  lemma ExecSwitch(e: Env, n: Node, at: Option<Label>, delay: bool, h: Hist, fuel: nat)
    requires n.Switch? && n.sel.Expr? && From(at, n) && |n.vals| == |n.bodies|
    ensures !From(at, n.sel) ==>
      at.Some? && Holder(n.bodies, at.value) < |n.bodies| && at.value in Defs(n.bodies[Holder(n.bodies, at.value)])
    ensures forall i :: 0 <= i < |n.bodies| ==> From(None, n.bodies[i])
    ensures Exec(e, n, at, delay, h, fuel) ==
            if From(at, n.sel) then
              var o := Exec(e, n.sel, at, delay, h, fuel);
              if !o.Normal? then o
              else
                var k := Pick(n.vals, e.choose(Val(n.sel), o.h));
                if k < |n.bodies| then Exec(e, n.bodies[k], None, delay, o.h, fuel) else o
            else Exec(e, n.bodies[Holder(n.bodies, at.value)], at, delay, h, fuel)
  {
  }

  // ----- defer -----

  // A landing pad leads to the block it branches to.
  lemma PadSteps(e: Env, F: State, t: State, b: BlockId, to: BlockId, h: Hist)
    requires b < |t.blocks| && t.blocks[b] == [] && Grows(Put(Put(Goes(t, b), LandingPad), Br(to)), F)
    ensures Reach(e, F.blocks, At(b, 0, h), At(to, 0, h), 1)
  {
    var t1 := Goes(t, b);
    var t2 := Put(t1, LandingPad);
    PutGrows(t2, Br(to));
    GrowsTrans(t2, Put(t2, Br(to)), F);
    PutStep(e, t1, LandingPad, F, h);
    assert t2.blocks[b] == [LandingPad];
    PutStep(e, t2, Br(to), F, h);
    ReachTrans(e, F.blocks, At(b, 0, h), At(b, 1, h), At(to, 0, h), 1, 1);
    ReachLess(e, F, At(b, 0, h), At(to, 0, h), 2, 1);
  }

  lemma SimDefer(e: Env, F: State, s: State, n: Node, p: Pos, pad: bool, fin: bool, D: set<Label>, h: Hist, fuel: nat)
    requires n.Defer? && Sims(F, s, n, p, pad, fin, false, D) && s.cur.Some?
    ensures Follows(e, F, Here(s, h), Lower(s, n), Exec(e, n, None, fin, h, fuel), fuel)
  {
    hide Inv, Mod, Touch, Lower, Follows, Exec, DeferReady, DeferTry, DeferCatch, DeferTail;
    FrameDefer(s, n, p, pad, fin, D);
    DeferGrows(s, n);
    CurInRange(s, D);
    DeferGrowsTo(F, s, n);
    var b := |s.blocks|;
    var s0 := Fresh(s, 3);
    CurGrows2(Put(s0, Br(b)), DeferStart(s), F);
    PutStep(e, s0, Br(b), F, h);
    assert Here(s0, h) == Here(s, h);
    SimDeferLoop(e, F, s, n, fin, h, fuel);
    After(e, F, Here(s, h), At(b, 0, h), 1, Lower(s, n), Exec(e, n, None, fin, h, fuel), fuel);
  }

  lemma DeferGrowsTo(F: State, s: State, n: Node)
    requires n.Defer? && Grows(Lower(s, n), F)
    ensures Grows(DeferStart(s), F) && Grows(DeferTry(s, n.undefer), F)
    ensures Grows(DeferCatch(s, n.undefer), F) && Grows(Lower(DeferCatch(s, n.undefer), n.checkdefer), F)
  {
    hide Lower, Grows, DeferStart, DeferTry, DeferCatch;
    DeferGrows(s, n);
    GrowsTrans(Lower(DeferCatch(s, n.undefer), n.checkdefer), Lower(s, n), F);
    GrowsTrans(DeferCatch(s, n.undefer), Lower(DeferCatch(s, n.undefer), n.checkdefer), F);
    GrowsTrans(DeferTry(s, n.undefer), DeferCatch(s, n.undefer), F);
    GrowsTrans(DeferStart(s), DeferTry(s, n.undefer), F);
  }

  // Every round of the loop starts at the finish block.
  lemma SimDeferLoop(e: Env, F: State, s: State, n: Node, fin: bool, h: Hist, fuel: nat)
    requires n.Defer? && PlainExpr(n.undefer) && PlainExpr(n.checkdefer)
    requires DeferReady(s, n.undefer, n.checkdefer) && Grows(Lower(s, n), F)
    requires Lower(s, n).pads == s.pads
    ensures Follows(e, F, At(|s.blocks|, 0, h), Lower(s, n), Exec(e, n, None, fin, h, fuel), fuel)
    decreases fuel
  {
    hide Lower, Follows, Grows, Exec, DeferReady;
    var Defer(u, d) := n;
    var b := |s.blocks|;
    var t := Lower(s, n);
    DeferGrowsTo(F, s, n);
    ExecDefer(e, n, fin, h, fuel);
    SimUndefer(e, F, s, n, h, fuel);
    var o := ExecInsts(e, Flat(u), h);
    InstsOutcome(e, Flat(u), h);
    if o.Thrown? {
      SimCheckdefer(e, F, s, n, o.h, fuel);
      var o2 := ExecInsts(e, Flat(d), o.h);
      if o2.Normal? {
        ReachTrans(e, F.blocks, At(b, 0, h), At(b + 1, 0, o.h), At(b, 0, o2.h), 0, 1);
        if fuel == 0 {
          ReachLess(e, F, At(b, 0, h), At(b, 0, o2.h), 1, 0);
          SpentOut(e, F, At(b, 0, h), b, 0, o2.h, t);
        } else {
          SimDeferLoop(e, F, s, n, fin, o2.h, fuel - 1);
          After(e, F, At(b, 0, h), At(b, 0, o2.h), 1, t, Exec(e, n, None, fin, o2.h, fuel - 1), fuel - 1);
        }
      } else {
        After(e, F, At(b, 0, h), At(b + 1, 0, o.h), 0, t, o2, fuel);
      }
    }
  }

  lemma SpentOut(e: Env, F: State, c0: Conf, b: BlockId, i: nat, h: Hist, t: State)
    requires Reach(e, F.blocks, c0, At(b, i, h), 0)
    ensures Follows(e, F, c0, t, OutOfFuel(h), 0)
  {
  }

  lemma ExecDefer(e: Env, n: Node, delay: bool, h: Hist, fuel: nat)
    requires n.Defer? && Simple(n.undefer) && Simple(n.checkdefer)
    ensures var o := ExecInsts(e, Flat(n.undefer), h);
      Exec(e, n, None, delay, h, fuel) ==
        if !o.Thrown? then o
        else
          var o2 := ExecInsts(e, Flat(n.checkdefer), o.h);
          if !o2.Normal? then o2
          else if fuel == 0 then OutOfFuel(o2.h)
          else Exec(e, n, None, delay, o2.h, fuel - 1)
  {
    ExecSimple(e, n.undefer, delay, h, fuel);
    var o := ExecInsts(e, Flat(n.undefer), h);
    if o.Thrown? { ExecSimple(e, n.checkdefer, delay, o.h, fuel); }
  }

  // Where a defer statement ends: where the undefer call did.
  lemma DeferEnd(s: State, n: Node)
    requires n.Defer? && DeferReady(s, n.undefer, n.checkdefer)
    ensures var t := Lower(s, n); var s2 := DeferTry(s, n.undefer);
      var s5 := Lower(DeferCatch(s, n.undefer), n.checkdefer);
      && t.cur == s2.cur && t.cur.Some? && t.cur.value < |t.blocks| && t.cur.value < |s2.blocks|
      && t.blocks[t.cur.value] == s2.blocks[t.cur.value]
      && t == Append(s5, |s.blocks| + 2, Br(|s.blocks|)).(cur := s2.cur)
  {
    DeferIs(s, n.undefer, n.checkdefer);
    hide Lower, DeferTry, DeferCatch;
  }

  lemma SimUndefer(e: Env, F: State, s: State, n: Node, h: Hist, fuel: nat)
    requires n.Defer? && PlainExpr(n.undefer)
    requires DeferReady(s, n.undefer, n.checkdefer) && Grows(Lower(s, n), F)
    ensures var b := |s.blocks|; var o := ExecInsts(e, Flat(n.undefer), h);
      if o.Thrown? then Reach(e, F.blocks, At(b, 0, h), At(b + 1, 0, o.h), 0)
      else Follows(e, F, At(b, 0, h), Lower(s, n), o, fuel)
  {
    hide Lower, Grows, DeferReady, DeferTry, DeferCatch, DeferStart, Reach, LowerInsts, ExecInsts;
    DeferGrowsTo(F, s, n);
    DeferEnd(s, n);
    DeferStartIs(s, n);
    var s1 := DeferStart(s).(pads := s.pads + [|s.blocks| + 1]);
    LowerSimple(s1, n.undefer);
    var t2 := LowerInsts(s1, Flat(n.undefer));
    DeferTryIs(s, n.undefer);
    CurGrows2(t2, DeferTry(s, n.undefer), F);
    SimInsts(e, F, s1, Flat(n.undefer), h, fuel);
    InstsFields(s1, Flat(n.undefer));
    InstsOutcome(e, Flat(n.undefer), h);
  }

  lemma DeferTryIs(s: State, u: Node)
    ensures DeferTry(s, u) == Lower(DeferStart(s).(pads := s.pads + [|s.blocks| + 1]), u).(pads := s.pads)
  {
  }

  lemma DeferStartIs(s: State, n: Node)
    requires n.Defer? && DeferReady(s, n.undefer, n.checkdefer)
    ensures var b := |s.blocks|;
      DeferStart(s).cur == Some(b) && b < |DeferStart(s).blocks| && DeferStart(s).blocks[b] == []
  {
    hide Lower;
  }

  lemma DeferCatchIs(s: State, n: Node)
    requires n.Defer? && DeferReady(s, n.undefer, n.checkdefer)
    ensures var b := |s.blocks|; var s2 := DeferTry(s, n.undefer); var s3 := DeferCatch(s, n.undefer);
      && b + 1 < |s2.blocks| && s2.blocks[b + 1] == []
      && s3 == Goes(Put(Put(Goes(s2, b + 1), LandingPad), Br(b + 2)), b + 2)
      && b + 2 < |s3.blocks| && s3.blocks[b + 2] == [] && s3.pads == s.pads
      && Lower(s3, n.checkdefer).cur == Some(b + 2)
  {
    hide Lower;
  }

  // From the landing pad of the undefer call to the catch block.
  lemma ToCheckdefer(e: Env, F: State, s: State, n: Node, h: Hist)
    requires n.Defer? && DeferReady(s, n.undefer, n.checkdefer) && Grows(Lower(s, n), F)
    ensures Reach(e, F.blocks, At(|s.blocks| + 1, 0, h), At(|s.blocks| + 2, 0, h), 1)
  {
    hide Lower, Grows, DeferReady, DeferTry, DeferCatch, Reach, Goes, Put;
    DeferGrowsTo(F, s, n);
    DeferCatchIs(s, n);
    var b := |s.blocks|;
    var s2 := DeferTry(s, n.undefer);
    CurGrows3(Put(Put(Goes(s2, b + 1), LandingPad), Br(b + 2)), b + 2, F);
    PadSteps(e, F, s2, b + 1, b + 2, h);
  }

  // Through checkdefer, and back to the finish block.
  lemma CheckdeferRuns(e: Env, F: State, s: State, n: Node, h: Hist, fuel: nat)
    requires n.Defer? && PlainExpr(n.checkdefer) && DeferReady(s, n.undefer, n.checkdefer) && Grows(Lower(s, n), F)
    ensures var b := |s.blocks|; var o := ExecInsts(e, Flat(n.checkdefer), h);
      var s5 := Lower(DeferCatch(s, n.undefer), n.checkdefer);
      && (if o.Normal? then Reach(e, F.blocks, At(b + 2, 0, h), At(b, 0, o.h), 1)
        else Follows(e, F, At(b + 2, 0, h), s5, o, fuel))
      && s5.pads == s.pads
  {
    hide Lower, Grows, DeferReady, DeferTry, DeferCatch, Reach, LowerInsts, ExecInsts, Goes, Put, Append, Flat, Simple;
    DeferGrowsTo(F, s, n);
    DeferEnd(s, n);
    DeferCatchIs(s, n);
    var b := |s.blocks|;
    var s3 := DeferCatch(s, n.undefer);
    LowerSimple(s3, n.checkdefer);
    var s5 := LowerInsts(s3, Flat(n.checkdefer));
    GoesCur(Put(Put(Goes(DeferTry(s, n.undefer), b + 1), LandingPad), Br(b + 2)), b + 2);
    SimInsts(e, F, s3, Flat(n.checkdefer), h, fuel);
    InstsFields(s3, Flat(n.checkdefer));
    var o := ExecInsts(e, Flat(n.checkdefer), h);
    if o.Normal? {
      PutIs(s5, Br(b));
      CurGrows2(Append(s5, b + 2, Br(b)), Lower(s, n), F);
      PutStep(e, s5, Br(b), F, o.h);
      ReachTrans(e, F.blocks, At(b + 2, 0, h), Here(s5, o.h), At(b, 0, o.h), 0, 1);
    }
  }

  // From the landing pad of the undefer call through checkdefer back to the finish block.
  lemma SimCheckdefer(e: Env, F: State, s: State, n: Node, h: Hist, fuel: nat)
    requires n.Defer? && PlainExpr(n.checkdefer) && Lower(s, n).pads == s.pads
    requires DeferReady(s, n.undefer, n.checkdefer) && Grows(Lower(s, n), F)
    ensures var b := |s.blocks|; var o := ExecInsts(e, Flat(n.checkdefer), h);
      if o.Normal? then Reach(e, F.blocks, At(b + 1, 0, h), At(b, 0, o.h), 1)
      else Follows(e, F, At(b + 1, 0, h), Lower(s, n), o, fuel)
  {
    hide Lower, Grows, DeferReady, DeferCatch, Reach, ExecInsts, Flat, Simple;
    ToCheckdefer(e, F, s, n, h);
    CheckdeferRuns(e, F, s, n, h, fuel);
    InstsOutcome(e, Flat(n.checkdefer), h);
    var b := |s.blocks|;
    var o := ExecInsts(e, Flat(n.checkdefer), h);
    if o.Normal? {
      ReachTrans(e, F.blocks, At(b + 1, 0, h), At(b + 2, 0, h), At(b, 0, o.h), 1, 1);
      ReachLess(e, F, At(b + 1, 0, h), At(b, 0, o.h), 2, 1);
    } else {
      After(e, F, At(b + 1, 0, h), At(b + 2, 0, h), 1, Lower(DeferCatch(s, n.undefer), n.checkdefer), o, fuel);
    }
  }

  lemma CurGrows3(s: State, b: BlockId, F: State)
    requires Grows(Goes(s, b), F)
    ensures Grows(s, F)
  {
  }

  lemma GoesCur(s: State, b: BlockId)
    ensures Goes(s, b).cur == Some(b)
  {
  }

  // ----- try statements -----

  // Under a finally clause nothing leaves the function, and a return that waits is one of the node's own.
  lemma {:induction false} ReturningOps(e: Env, n: Node, at: Option<Label>, p: Pos, pad: bool, h: Hist, fuel: nat,
                                        ops: seq<Inst>)
    requires Wf(n, p, pad, true, false) && UniformReturns(n, ops) && From(at, n)
    ensures var o := Exec(e, n, at, true, h, fuel);
      !o.Returned? && (o.Returning? ==> o.ops == ops && FirstReturn(n).Some?)
    decreases fuel, n, 0
  {
    match n
    case Expr(kids, insts, _) =>
      ReturningOpsSeq(e, kids, at, p, pad, h, fuel, ops);
      var o := ExecSeq(e, kids, at, true, h, fuel);
      if o.Normal? { PlainOutcome(e, insts, o.h); }
    case ExprStmt(x) => ReturningOps(e, x, at, p, pad, h, fuel, ops);
    case Block(stmts) => ReturningOpsSeq(e, stmts, at, p, pad, h, fuel, ops);
    case If(c, t, f) =>
      if From(at, c) {
        ReturningOps(e, c, at, p, pad, h, fuel, ops);
        var o := Exec(e, c, at, true, h, fuel);
        if o.Normal? {
          ReturningOps(e, t, None, Start, pad, o.h, fuel, ops);
          ReturningOps(e, f, None, Start, pad, o.h, fuel, ops);
        }
      } else if From(at, t) {
        ReturningOps(e, t, at, Start, pad, h, fuel, ops);
      } else {
        ReturningOps(e, f, at, Start, pad, h, fuel, ops);
      }
    case Switch(v, vals, bodies) =>
      if From(at, v) {
        ReturningOps(e, v, at, p, pad, h, fuel, ops);
        var o := Exec(e, v, at, true, h, fuel);
        if o.Normal? {
          var k := Pick(vals, e.choose(Val(v), o.h));
          if k < |bodies| { ReturningOpsBody(e, bodies, k, None, pad, o.h, fuel, ops); }
        }
      } else {
        ReturningOpsBody(e, bodies, Holder(bodies, at.value), at, pad, h, fuel, ops);
      }
    case Return(x) => SimpleHasNoLabels(x);
    case Goto(_) =>
    case LabelDef(_) =>
    case Defer(u, d) =>
      SimpleHasNoLabels(u);
      SimpleHasNoLabels(d);
      DeferOutcome(e, n, true, h, fuel);
    case Excep(_, _, _) => assert false;
  }

  lemma {:induction false} ReturningOpsSeq(e: Env, ns: seq<Node>, at: Option<Label>, p: Pos, pad: bool, h: Hist,
                                           fuel: nat,
                                           ops: seq<Inst>)
    requires WfSeq(ns, p, pad, true, false) && UniformReturnsSeq(ns, ops) && FromSeq(at, ns)
    ensures var o := ExecSeq(e, ns, at, true, h, fuel);
      !o.Returned? && (o.Returning? ==> o.ops == ops && FirstReturnSeq(ns).Some?)
    decreases fuel, ns, 1
  {
    if ns != [] {
      var q := End(ns[0], p, pad);
      if From(at, ns[0]) {
        ReturningOps(e, ns[0], at, p, pad, h, fuel, ops);
        var o := Exec(e, ns[0], at, true, h, fuel);
        if o.Normal? { ReturningOpsSeq(e, ns[1..], None, q, pad, o.h, fuel, ops); }
      } else {
        ReturningOpsSeq(e, ns[1..], at, q, pad, h, fuel, ops);
      }
    }
  }

  lemma {:induction false} ReturningOpsBody(e: Env, ns: seq<Node>, j: nat, at: Option<Label>, pad: bool, h: Hist,
                                            fuel: nat, ops: seq<Inst>)
    requires WfBodies(ns, pad, true) && UniformReturnsSeq(ns, ops) && j < |ns| && From(at, ns[j])
    ensures var o := Exec(e, ns[j], at, true, h, fuel);
      !o.Returned? && (o.Returning? ==> o.ops == ops && FirstReturnSeq(ns).Some?)
    decreases fuel, ns, 1
  {
    if j == 0 {
      ReturningOps(e, ns[0], at, Start, pad, h, fuel, ops);
    } else {
      assert ns[1..][j - 1] == ns[j];
      ReturningOpsBody(e, ns[1..], j - 1, at, pad, h, fuel, ops);
    }
  }

  lemma {:induction false} DeferOutcome(e: Env, n: Node, delay: bool, h: Hist, fuel: nat)
    requires n.Defer? && PlainExpr(n.undefer) && PlainExpr(n.checkdefer)
    ensures var o := Exec(e, n, None, delay, h, fuel); o.Normal? || o.Thrown? || o.OutOfFuel?
    decreases fuel
  {
    ExecDefer(e, n, delay, h, fuel);
    PlainOutcome(e, Flat(n.undefer), h);
    var o := ExecInsts(e, Flat(n.undefer), h);
    if o.Thrown? {
      PlainOutcome(e, Flat(n.checkdefer), o.h);
      var o2 := ExecInsts(e, Flat(n.checkdefer), o.h);
      if o2.Normal? && fuel > 0 { DeferOutcome(e, n, delay, o2.h, fuel - 1); }
    }
  }

  lemma {:induction false} PlainOutcome(e: Env, xs: seq<Inst>, h: Hist)
    requires Ret !in xs
    ensures var o := ExecInsts(e, xs, h); o.Normal? || o.Thrown?
    decreases xs
  {
    if xs != [] && !(MayThrow(xs[0]) && e.throws(xs[0], h)) {
      PlainOutcome(e, xs[1..], h + [Did(xs[0])]);
    }
  }

  // The protected part of a try statement has come to o: normal completion, a waiting return and
  // a dropped exception all lead to the finally block; anything else leaves the statement.
  ghost predicate ToFinally(e: Env, F: State, c0: Conf, b: BlockId, u: State, o: Out, fuel: nat) {
    if o.Normal? || o.Returning? || o.Thrown? then Reach(e, F.blocks, c0, At(b + 1, 0, o.h), 0)
    else Follows(e, F, c0, u, o, fuel)
  }

  // A part lowered with the finally block open, closed by a branch to it.
  lemma SimPart(e: Env, F: State, s: State, n: Node, at: Option<Label>, p: Pos, b: BlockId, pad: BlockId, u: State,
                D: set<Label>, h: Hist, fuel: nat)
    requires Sims(F, s, n, p, true, true, false, D) && CanStart(s, n, at)
    requires s.fin == Some(b + 1) && s.pads == [pad]
    requires Grows(BrIfLive(Lower(s, n), b + 1), F)
    ensures var o := Exec(e, n, at, true, h, fuel); var c0 := Entry(F, s, at, h);
      if o.Thrown? then Reach(e, F.blocks, c0, At(pad, 0, o.h), 0) else ToFinally(e, F, c0, b, u, o, fuel)
    decreases fuel, n, 5
  {
    hide Inv, Mod, Touch, Lower, Exec, Wf, Defs, Grows, SafeSwitches, Ended, Gotos, FirstReturn;
    var t := Lower(s, n);
    var o := Exec(e, n, at, true, h, fuel);
    var c0 := Entry(F, s, at, h);
    SimNode(e, F, s, n, at, p, true, true, false, D, h, fuel);
    NodeFacts(s, n, p, true, true, D);
    if o.Normal? {
      PutStep(e, t, Br(b + 1), F, o.h);
      ReachLess(e, F, Here(t, o.h), At(b + 1, 0, o.h), 1, 0);
      ReachTrans(e, F.blocks, c0, Here(t, o.h), At(b + 1, 0, o.h), 0, 0);
    } else if o.Jump? || o.OutOfFuel? || o.Returned? {
      Exit(e, F, c0, t, u, o, fuel);
    }
  }

  // What simulating the parts of a try statement needs.
  ghost predicate TrySims(F: State, s: State, n: Node, p: Pos, D: set<Label>)
    requires n.Excep?
  {
    var b := |s.blocks|;
    var s0 := TryStart(s);
    var s3 := TryPart(s, n.body);
    var k := |s3.blocks|;
    var s5 := CatchStart(s3, b);
    var s7 := CatchEnd(s3, b, n.onexc);
    var s9 := Goes(CatchPart(s3, b, n.onexc), b + 1);
    && Sims(F, s0, n.body, p, true, true, false, D)
    && s0.fin == Some(b + 1) && s0.pads == [b] && Grows(BrIfLive(Lower(s0, n.body), b + 1), F)
    && b < |s3.blocks| && s3.blocks[b] == [] && Grows(Put(Put(Goes(Fresh(s3, 1), b), LandingPad), Br(k)), F)
    && Sims(F, s5, n.onexc, Start, true, true, false, D + Defs(n.body))
    && s5.fin == Some(b + 1) && s5.pads == [k + 1] && Grows(BrIfLive(Lower(s5, n.onexc), b + 1), F)
    && s5.cur == Some(k) && k < |s5.blocks| && s5.blocks[k] == []
    && k + 1 < |s7.blocks| && s7.blocks[k + 1] == [] && Grows(Put(Put(Goes(s7, k + 1), LandingPad), Br(b + 1)), F)
    && Sims(F, s9, n.fin, Moved, false, false, false, D + Defs(n.body) + Defs(n.onexc))
    && s9.cur == Some(b + 1) && b + 1 < |s9.blocks| && s9.blocks[b + 1] == [] && s9.cached == FirstReturn(n)
    && Lower(s, n) == LowerCached(Lower(s9, n.fin))
    && s.fin == None && s.pads == []
  }

  // All the parts of a try statement are prefixes of the final code.
  lemma TryGrowsTo(F: State, s: State, n: Node)
    requires n.Excep? && Grows(Lower(s, n), F)
    ensures var b := |s.blocks|; var s3 := TryPart(s, n.body); var s5 := CatchStart(s3, b);
      var s7 := CatchEnd(s3, b, n.onexc); var s8 := CatchPart(s3, b, n.onexc); var s9 := Goes(s8, b + 1);
      && Grows(s3, F) && Grows(Lower(TryStart(s), n.body), F) && Grows(s5, F) && Grows(s7, F)
      && Grows(Lower(s5, n.onexc), F) && Grows(s8, F) && Grows(s9, F) && Grows(Lower(s9, n.fin), F)
  {
    hide Lower, Grows, TryStart, TryPart, CatchStart, CatchEnd, CatchPart, Goes;
    var b := |s.blocks|;
    var s3 := TryPart(s, n.body);
    var s5 := CatchStart(s3, b);
    var s7 := CatchEnd(s3, b, n.onexc);
    var s8 := CatchPart(s3, b, n.onexc);
    var s9 := Goes(s8, b + 1);
    ExcepGrows(s, n);
    GrowsTrans(Lower(s9, n.fin), Lower(s, n), F);
    GrowsTrans(s9, Lower(s9, n.fin), F);
    GrowsTrans(s8, s9, F);
    GrowsTrans(s7, s8, F);
    GrowsTrans(Lower(s5, n.onexc), s7, F);
    GrowsTrans(s5, Lower(s5, n.onexc), F);
    GrowsTrans(s3, s5, F);
    GrowsTrans(Lower(TryStart(s), n.body), s3, F);
  }

  // The catch block's own block follows the code of its landing pad.
  lemma CatchStartFields(F: State, s3: State, b: BlockId)
    requires Grows(CatchStart(s3, b), F)
    ensures Grows(Put(Put(Goes(Fresh(s3, 1), b), LandingPad), Br(|s3.blocks|)), F)
    ensures CatchStart(s3, b).pads == s3.pads + [|s3.blocks| + 1] && CatchStart(s3, b).fin == s3.fin
    ensures CatchStart(s3, b).cur == Some(|s3.blocks|)
  {
  }

  lemma TryFields(s: State, n: Node, p: Pos, D: set<Label>)
    requires n.Excep? && TryReady(s, n, p, D) && Wf(n.body, p, true, true, false) && s.pads == []
    ensures var b := |s.blocks|; var s3 := TryPart(s, n.body);
      && TryStart(s).pads == [b] && TryStart(s).fin == Some(b + 1)
      && s3.pads == [] && s3.fin == Some(b + 1)
      && TryPart(s, n.body) == BrIfLive(Lower(TryStart(s), n.body), b + 1).(pads := s.pads)
  {
    var b := |s.blocks|;
    hide Inv, Mod, Touch, Lower, Wf, Defs, CatchStart, CatchEnd, CatchPart;
    NodeFacts(TryStart(s), n.body, p, true, true, D);
  }

  lemma TrySimsHold(F: State, s: State, n: Node, p: Pos, D: set<Label>)
    requires n.Excep? && Sims(F, s, n, p, false, false, true, D)
    ensures TrySims(F, s, n, p, D)
  {
    hide Inv, Mod, Touch, Lower, Wf, Defs, Grows, OpenCur, Ended, TryStart, TryPart, CatchStart, CatchEnd, CatchPart,
      FinPart, Ready, SafeSwitches, FirstReturn, LowerCached, Lowered, Fresh, Put, Gotos, End, UniformReturns;
    var b := |s.blocks|;
    ExcepUnfolds(n, p);
    ReadyIs(s, D, Defs(n), p, false, false);
    FrameExcep(s, n, p, D);
    ExcepIs(s, n);
    TryFields(s, n, p, D);
    TryGrowsTo(F, s, n);
    var s3 := TryPart(s, n.body);
    CatchStartFields(F, s3, b);
    TryEndGrows(F, s, n);
    FinPartIs(CatchPart(s3, b, n.onexc), b, n.fin);
  }

  lemma FinPartIs(s8: State, b: BlockId, fin: Node)
    ensures FinPart(s8, b, fin) == LowerCached(Lower(Goes(s8, b + 1), fin))
  {
  }

  lemma TryEndGrows(F: State, s: State, n: Node)
    requires n.Excep?
    requires var b := |s.blocks|; var s3 := TryPart(s, n.body);
      && Grows(s3, F) && Grows(CatchEnd(s3, b, n.onexc), F) && Grows(CatchPart(s3, b, n.onexc), F)
    ensures var b := |s.blocks|; var s3 := TryPart(s, n.body); var k := |s3.blocks|;
      && Grows(BrIfLive(Lower(TryStart(s), n.body), b + 1), F)
      && Grows(BrIfLive(Lower(CatchStart(s3, b), n.onexc), b + 1), F)
      && Grows(Put(Put(Goes(CatchEnd(s3, b, n.onexc), k + 1), LandingPad), Br(b + 1)), F)
  {
    hide Lower, Put, CatchStart, TryStart;
  }

  // The catch code, from its landing pad (at == None) or from a label inside it.
  lemma SimCatch(e: Env, F: State, s: State, n: Node, at: Option<Label>, p: Pos, u: State, D: set<Label>, h: Hist,
                 fuel: nat)
    requires n.Excep? && TrySims(F, s, n, p, D) && From(at, n.onexc)
    ensures var b := |s.blocks|;
      ToFinally(e, F, if at.None? then At(b, 0, h)
        else Entry(F, s, at, h), b, u, Exec(e, n.onexc, at, true, h, fuel), fuel)
    decreases fuel, n, 2
  {
    hide Lower, Exec, Grows, Sims, TryStart, TryPart, CatchStart, CatchEnd, CatchPart, Follows, Reach, Fresh, Put,
      LowerCached, Goes;
    var b := |s.blocks|;
    var s3 := TryPart(s, n.body);
    var k := |s3.blocks|;
    var s5 := CatchStart(s3, b);
    var o := Exec(e, n.onexc, at, true, h, fuel);
    SimPart(e, F, s5, n.onexc, at, Start, b, k + 1, u, D + Defs(n.body), h, fuel);
    var c1 := Entry(F, s5, at, h);
    if o.Thrown? {
      PadSteps(e, F, CatchEnd(s3, b, n.onexc), k + 1, b + 1, o.h);
      ReachTrans(e, F.blocks, c1, At(k + 1, 0, o.h), At(b + 1, 0, o.h), 0, 1);
      ReachLess(e, F, c1, At(b + 1, 0, o.h), 1, 0);
    }
    if at.None? {
      FreshAt(s3, b);
      PadSteps(e, F, Fresh(s3, 1), b, k, h);
      ReachLess(e, F, At(b, 0, h), c1, 1, 0);
      ToFinallyAfter(e, F, At(b, 0, h), c1, b, u, o, fuel);
    }
  }

  lemma FreshAt(s: State, b: BlockId)
    requires b < |s.blocks|
    ensures b < |Fresh(s, 1).blocks| && Fresh(s, 1).blocks[b] == s.blocks[b]
  {
  }

  lemma ToFinallyAfter(e: Env, F: State, c: Conf, c0: Conf, b: BlockId, u: State, o: Out, fuel: nat)
    requires Reach(e, F.blocks, c, c0, 0) && ToFinally(e, F, c0, b, u, o, fuel)
    ensures ToFinally(e, F, c, b, u, o, fuel)
  {
    if o.Normal? || o.Returning? || o.Thrown? {
      ReachTrans(e, F.blocks, c, c0, At(b + 1, 0, o.h), 0, 0);
    } else {
      After(e, F, c, c0, 0, u, o, fuel);
    }
  }

  // The finally code and the return put after it.
  lemma SimFinally(e: Env, F: State, s: State, n: Node, at: Option<Label>, p: Pos, waiting: Option<seq<Inst>>,
                   D: set<Label>,
                   h: Hist, fuel: nat)
    requires n.Excep? && TrySims(F, s, n, p, D) && From(at, n.fin) && Grows(Lower(s, n), F)
    requires waiting.Some? ==> FirstReturn(n).Some? && waiting.value == Flat(FirstReturn(n).value)
    requires FirstReturn(n).Some? ==> ReturnExpr(FirstReturn(n).value)
    ensures var o := AfterFinally(e, n, waiting, Exec(e, n.fin, at, false, h, fuel)); var u := Lower(s, n);
      && Follows(e, F, if at.None? then At(|s.blocks| + 1, 0, h) else Entry(F, s, at, h), u, o, fuel)
      && (o.Normal? ==> OpenCur(u))
    decreases fuel, n, 1
  {
    hide Inv, Mod, Touch, Lower, Exec, Grows, TryStart, TryPart, CatchStart, CatchEnd, CatchPart, Follows, Reach, Fresh,
      Put, ReturnExpr, FirstReturn, Flat, LowerInsts, ExecInsts, Wf, Defs, Ended, SafeSwitches;
    var b := |s.blocks|;
    var s9 := Goes(CatchPart(TryPart(s, n.body), b, n.onexc), b + 1);
    var t := Lower(s9, n.fin);
    var u := Lower(s, n);
    var D2 := D + Defs(n.body) + Defs(n.onexc);
    var o := Exec(e, n.fin, at, false, h, fuel);
    var c0 := Entry(F, s9, at, h);
    SimNode(e, F, s9, n.fin, at, Moved, false, false, false, D2, h, fuel);
    FrameNode(s9, n.fin, Moved, false, false, false, D2);
    assert t.cached == FirstReturn(n) && t.pads == [] && t.fin == None;
    if FirstReturn(n).Some? {
      var ops := Flat(FirstReturn(n).value);
      var v := LowerInsts(t, ops);
      InstsFields(t, ops);
      assert u == v.(cached := None);
      CurGrows2(v, u, F);
      if o.Normal? {
        NormalAlive(e, F, c0, t, o.h, fuel);
        NodeFacts(s9, n.fin, Moved, false, false, D2);
        SimInsts(e, F, t, ops, o.h, fuel);
        ReturnOutcome(e, FirstReturn(n).value, o.h);
        Then(e, F, c0, t, o.h, v, ExecInsts(e, ops, o.h), fuel);
        Exit(e, F, c0, v, u, ExecInsts(e, ops, o.h), fuel);
      } else {
        Exit(e, F, c0, t, u, o, fuel);
      }
    } else {
      assert u == t;
    }
  }

  // From the end of the protected part on.
  lemma SimExit(e: Env, F: State, s: State, n: Node, c0: Conf, p: Pos, o: Out, D: set<Label>, fuel: nat)
    requires n.Excep? && TrySims(F, s, n, p, D) && Grows(Lower(s, n), F)
    requires ToFinally(e, F, c0, |s.blocks|, Lower(s, n), o, fuel)
    requires o.Returning? ==> FirstReturn(n).Some? && o.ops == Flat(FirstReturn(n).value)
    requires FirstReturn(n).Some? ==> ReturnExpr(FirstReturn(n).value)
    ensures var r := ExecFinally(e, n, o, fuel); var u := Lower(s, n);
      && Follows(e, F, c0, u, r, fuel) && (r.Normal? ==> OpenCur(u))
    decreases fuel, n, 2
  {
    ExecFinallyIs(e, n, o, fuel);
    hide Inv, Lower, Exec, Grows, Follows, Reach, ReturnExpr, FirstReturn, Flat, TrySims, Ended, AfterFinally,
      ExecFinally;
    var b := |s.blocks|;
    if o.Normal? || o.Returning? || o.Thrown? {
      var waiting := if o.Returning? then Some(o.ops) else None;
      SimFinally(e, F, s, n, None, p, waiting, D, o.h, fuel);
      After(e, F, c0, At(b + 1, 0, o.h), 0, Lower(s, n),
        AfterFinally(e, n, waiting, Exec(e, n.fin, None, false, o.h, fuel)), fuel);
    }
  }

  lemma ExecFinallyIs(e: Env, n: Node, o: Out, fuel: nat)
    requires n.Excep?
    ensures ExecFinally(e, n, o, fuel) ==
            if o.Normal? || o.Returning? || o.Thrown? then
              AfterFinally(e, n, if o.Returning? then Some(o.ops) else None, Exec(e, n.fin, None, false, o.h, fuel))
            else o
  {
  }

  lemma ExecExcep(e: Env, n: Node, at: Option<Label>, h: Hist, fuel: nat)
    requires n.Excep? && From(at, n)
    ensures From(at, n.body) || From(at, n.onexc) || From(at, n.fin)
    ensures Exec(e, n, at, false, h, fuel) ==
            if From(at, n.body) then
              var o := Exec(e, n.body, at, true, h, fuel);
              ExecFinally(e, n, if o.Thrown? then Exec(e, n.onexc, None, true, o.h, fuel) else o, fuel)
            else if From(at, n.onexc) then ExecFinally(e, n, Exec(e, n.onexc, at, true, h, fuel), fuel)
            else AfterFinally(e, n, None, Exec(e, n.fin, at, false, h, fuel))
  {
  }

  lemma SimExcep(e: Env, F: State, s: State, n: Node, at: Option<Label>, p: Pos, D: set<Label>, h: Hist, fuel: nat)
    requires n.Excep? && Sims(F, s, n, p, false, false, true, D) && CanStart(s, n, at)
    ensures var o := Exec(e, n, at, false, h, fuel);
      && Follows(e, F, Entry(F, s, at, h), Lower(s, n), o, fuel)
      && (o.Normal? ==> OpenCur(Lower(s, n)))
    decreases fuel, n, 3
  {
    hide Inv, Mod, Touch, Lower, Exec, Grows, TryStart, TryPart, CatchStart, CatchEnd, CatchPart, Follows, Reach, Fresh,
      Put, Goes, ReturnExpr, FirstReturn, Flat, LowerInsts, ExecInsts, ExecFinally, AfterFinally, Wf, Defs, Ended,
      Ready, SafeSwitches, UniformReturns, LowerCached;
    ExecExcep(e, n, at, h, fuel);
    ExcepUnfolds(n, p);
    FirstReturnWf(n, p, false, false, true);
    TrySimsHold(F, s, n, p, D);
    var b := |s.blocks|;
    var u := Lower(s, n);
    var c0 := Entry(F, s, at, h);
    var ops := if FirstReturn(n).Some? then Flat(FirstReturn(n).value) else [];
    if From(at, n.body) {
      SimTryBody(e, F, s, n, at, p, D, h, fuel);
      TryReturns(e, n, n.body, at, p, p, h, fuel);
      var o := Exec(e, n.body, at, true, h, fuel);
      if o.Thrown? {
        SimCatch(e, F, s, n, None, p, u, D, o.h, fuel);
        TryReturns(e, n, n.onexc, None, p, Start, o.h, fuel);
        var oc := Exec(e, n.onexc, None, true, o.h, fuel);
        ToFinallyAfter(e, F, c0, At(b, 0, o.h), b, u, oc, fuel);
        SimExit(e, F, s, n, c0, p, oc, D, fuel);
      } else {
        SimExit(e, F, s, n, c0, p, o, D, fuel);
      }
    } else if From(at, n.onexc) {
      SimCatch(e, F, s, n, at, p, u, D, h, fuel);
      TryReturns(e, n, n.onexc, at, p, Start, h, fuel);
      SimExit(e, F, s, n, c0, p, Exec(e, n.onexc, at, true, h, fuel), D, fuel);
    } else {
      SimFinally(e, F, s, n, at, p, None, D, h, fuel);
    }
  }

  // Any return met in the protected part runs the instructions of the first one.
  lemma TryReturns(e: Env, n: Node, part: Node, at: Option<Label>, p: Pos, q: Pos, h: Hist, fuel: nat)
    requires n.Excep? && Wf(n, p, false, false, true) && From(at, part)
    requires (part == n.body && q == p) || (part == n.onexc && q == Start)
    ensures var o := Exec(e, part, at, true, h, fuel);
      !o.Returned? && (o.Returning? ==> FirstReturn(n).Some? && o.ops == Flat(FirstReturn(n).value))
  {
    hide Exec, UniformReturns, Wf, Flat;
    ExcepUnfolds(n, p);
    if FirstReturn(n).Some? {
      ReturningOps(e, part, at, q, true, h, fuel, Flat(FirstReturn(n).value));
    } else {
      NoReturns(part);
      ReturningOps(e, part, at, q, true, h, fuel, []);
    }
  }

  // The body, with the cursor of the whole.
  lemma SimTryBody(e: Env, F: State, s: State, n: Node, at: Option<Label>, p: Pos, D: set<Label>, h: Hist, fuel: nat)
    requires n.Excep? && TrySims(F, s, n, p, D) && CanStart(s, n.body, at) && Ready(s, D, Defs(n), p, false, false)
    ensures var o := Exec(e, n.body, at, true, h, fuel); var c0 := Entry(F, s, at, h);
      if o.Thrown? then Reach(e, F.blocks, c0, At(|s.blocks|, 0, o.h), 0)
      else ToFinally(e, F, c0, |s.blocks|, Lower(s, n), o, fuel)
    decreases fuel, n, 2
  {
    hide Inv, Mod, Touch, Lower, Exec, Grows, Sims, TryStart, TryPart, CatchStart, CatchEnd, CatchPart, Follows, Reach,
      Fresh, Put, Goes, LowerCached, ToFinally, Ready, Defs;
    ReadyIs(s, D, Defs(n), p, false, false);
    CurInRange(s, D);
    TryStartHere(s, h);
    SimPart(e, F, TryStart(s), n.body, at, p, |s.blocks|, |s.blocks|, Lower(s, n), D, h, fuel);
  }

  lemma TryStartHere(s: State, h: Hist)
    requires s.cur.Some? ==> s.cur.value < |s.blocks|
    ensures Here(TryStart(s), h) == Here(s, h) && TryStart(s).cur == s.cur
  {
  }

  lemma {:induction false} NoReturns(n: Node)
    requires FirstReturn(n).None?
    ensures UniformReturns(n, [])
    decreases n, 0
  {
    match n
    case Expr(kids, _, _) => NoReturnsSeq(kids);
    case ExprStmt(e) => NoReturns(e);
    case Block(stmts) => NoReturnsSeq(stmts);
    case If(c, t, f) => NoReturns(c); NoReturns(t); NoReturns(f);
    case Switch(v, _, bodies) => NoReturns(v); NoReturnsSeq(bodies);
    case Defer(u, d) => NoReturns(u); NoReturns(d);
    case Excep(b, c, _) => NoReturns(b); NoReturns(c);
    case _ =>
  }

  lemma {:induction false} NoReturnsSeq(ns: seq<Node>)
    requires FirstReturnSeq(ns).None?
    ensures UniformReturnsSeq(ns, [])
    decreases ns, 1
  {
    if ns != [] {
      NoReturns(ns[0]);
      NoReturnsSeq(ns[1..]);
    }
  }
}
