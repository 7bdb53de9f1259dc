/** Whole functions: the lowered code of a function body does exactly what the body means. */
module LoweringCorrect {
  import opened Wrappers
  import opened StmtTree
  import opened Cfg
  import opened Lowering
  import opened LoweringFrame
  import opened LoweringWalk
  import opened LoweringGrowth
  import opened LoweringSim

  // A function starts with one empty entry block.
  function Begin(): State {
    State([[]], map[], [], None, None, Some(0))
  }

  // The block the walk ends in gets a return, unless it already ends in a control transfer.
  function Fixup(s: State): State {
    if s.cur.Some? && !Ended(s, s.cur.value) then Put(s, RetZero) else s
  }

  function Compile(n: Node): State {
    Fixup(Lower(Begin(), n))
  }

  // A function body the lowering accepts: well formed, with every goto target defined.
  predicate Body(n: Node) {
    Wf(n, Start, false, false, true) && Gotos(n) <= Defs(n)
  }

  // ----- gotos name labels of the tree -----

  lemma {:induction false} JumpsAreGotos(e: Env, n: Node, at: Option<Label>, delay: bool, h: Hist, fuel: nat)
    requires From(at, n)
    ensures var o := Exec(e, n, at, delay, h, fuel); o.Jump? ==> o.l in Gotos(n)
    decreases fuel, n, 2
  {
    match n
    case Expr(kids, insts, _) =>
      if at.None? || at.value in DefsSeq(kids) {
        JumpsAreGotosSeq(e, kids, at, delay, h, fuel);
        var o := ExecSeq(e, kids, at, delay, h, fuel);
        if o.Normal? { InstsOutcome(e, insts, o.h); }
      }
    case ExprStmt(x) => JumpsAreGotos(e, x, at, delay, h, fuel);
    case Block(stmts) => JumpsAreGotosSeq(e, stmts, at, delay, h, fuel);
    case If(c, t, f) =>
      if From(at, c) {
        JumpsAreGotos(e, c, at, delay, h, fuel);
        var o := Exec(e, c, at, delay, h, fuel);
        if o.Normal? {
          JumpsAreGotos(e, t, None, delay, o.h, fuel);
          JumpsAreGotos(e, f, None, delay, o.h, fuel);
        }
      } else if From(at, t) {
        JumpsAreGotos(e, t, at, delay, h, fuel);
      } else {
        JumpsAreGotos(e, f, at, delay, h, fuel);
      }
    case Switch(_, _, _) => SwitchJumps(e, n, at, delay, h, fuel);
    case Return(x) =>
      if at.Some? || !delay { JumpsAreGotos(e, x, at, delay, h, fuel); }
    case Goto(_) =>
    case LabelDef(_) =>
    case Defer(_, _) => DeferJumps(e, n, at, delay, h, fuel);
    case Excep(_, _, _) => TryJumps(e, n, at, delay, h, fuel);
  }

  lemma SwitchJumps(e: Env, n: Node, at: Option<Label>, delay: bool, h: Hist, fuel: nat)
    requires n.Switch? && From(at, n)
    ensures var o := Exec(e, n, at, delay, h, fuel); o.Jump? ==> o.l in Gotos(n)
    decreases fuel, n, 1
  {
    var Switch(v, vals, bodies) := n;
    if From(at, v) {
      JumpsAreGotos(e, v, at, delay, h, fuel);
      var o := Exec(e, v, at, delay, h, fuel);
      if o.Normal? && v.Expr? {
        var k := Pick(vals, e.choose(v.value, o.h));
        if k < |bodies| {
          JumpsAreGotos(e, bodies[k], None, delay, o.h, fuel);
          GotosOfBody(bodies, k);
        }
      }
    } else {
      var k := Holder(bodies, at.value);
      JumpsAreGotos(e, bodies[k], at, delay, h, fuel);
      GotosOfBody(bodies, k);
    }
  }

  lemma DeferJumps(e: Env, n: Node, at: Option<Label>, delay: bool, h: Hist, fuel: nat)
    requires n.Defer? && From(at, n)
    ensures var o := Exec(e, n, at, delay, h, fuel); o.Jump? ==> o.l in Gotos(n)
    decreases fuel, n, 1
  {
    var Defer(u, d) := n;
    var o;
    if From(at, u) {
      o := Exec(e, u, at, delay, h, fuel);
      JumpsAreGotos(e, u, at, delay, h, fuel);
    } else {
      o := Exec(e, d, at, delay, h, fuel);
      JumpsAreGotos(e, d, at, delay, h, fuel);
    }
    if !From(at, u) || o.Thrown? {
      var o2 := if From(at, u) then Exec(e, d, None, delay, o.h, fuel) else o;
      if From(at, u) { JumpsAreGotos(e, d, None, delay, o.h, fuel); }
      if o2.Normal? && fuel > 0 { JumpsAreGotos(e, n, None, delay, o2.h, fuel - 1); }
    }
  }

  lemma TryJumps(e: Env, n: Node, at: Option<Label>, delay: bool, h: Hist, fuel: nat)
    requires n.Excep? && From(at, n)
    ensures var o := Exec(e, n, at, delay, h, fuel); o.Jump? ==> o.l in Gotos(n)
    decreases fuel, n, 1
  {
    var Excep(b, c, f) := n;
    if From(at, b) {
      var o := Exec(e, b, at, true, h, fuel);
      JumpsAreGotos(e, b, at, true, h, fuel);
      if o.Thrown? {
        JumpsAreGotos(e, c, None, true, o.h, fuel);
        FinallyJumps(e, n, Exec(e, c, None, true, o.h, fuel), fuel);
      } else {
        FinallyJumps(e, n, o, fuel);
      }
    } else if From(at, c) {
      JumpsAreGotos(e, c, at, true, h, fuel);
      FinallyJumps(e, n, Exec(e, c, at, true, h, fuel), fuel);
    } else {
      JumpsAreGotos(e, f, at, false, h, fuel);
      AfterFinallyJumps(e, n, None, Exec(e, f, at, false, h, fuel));
    }
  }

  lemma {:induction false} JumpsAreGotosSeq(e: Env, ns: seq<Node>, at: Option<Label>, delay: bool, h: Hist, fuel: nat)
    requires FromSeq(at, ns)
    ensures var o := ExecSeq(e, ns, at, delay, h, fuel); o.Jump? ==> o.l in GotosSeq(ns)
    decreases fuel, ns, 2
  {
    if ns != [] {
      if From(at, ns[0]) {
        JumpsAreGotos(e, ns[0], at, delay, h, fuel);
        var o := Exec(e, ns[0], at, delay, h, fuel);
        if o.Normal? { JumpsAreGotosSeq(e, ns[1..], None, delay, o.h, fuel); }
      } else {
        JumpsAreGotosSeq(e, ns[1..], at, delay, h, fuel);
      }
    }
  }

  lemma FinallyJumps(e: Env, n: Node, o: Out, fuel: nat)
    requires n.Excep? && (o.Jump? ==> o.l in Gotos(n))
    ensures var r := ExecFinally(e, n, o, fuel); r.Jump? ==> r.l in Gotos(n)
    decreases fuel, n, 0
  {
    if o.Normal? || o.Returning? || o.Thrown? {
      JumpsAreGotos(e, n.fin, None, false, o.h, fuel);
      AfterFinallyJumps(e, n, if o.Returning? then Some(o.ops) else None, Exec(e, n.fin, None, false, o.h, fuel));
    }
  }

  lemma AfterFinallyJumps(e: Env, n: Node, waiting: Option<seq<Inst>>, o: Out)
    requires n.Excep? && (o.Jump? ==> o.l in Gotos(n))
    ensures var r := AfterFinally(e, n, waiting, o); r.Jump? ==> r.l in Gotos(n)
  {
    if o.Normal? {
      if waiting.Some? { InstsOutcome(e, waiting.value, o.h); }
      else if FirstReturn(n).Some? { InstsOutcome(e, Flat(FirstReturn(n).value), o.h); }
    }
  }

  lemma {:induction false} GotosOfBody(ns: seq<Node>, j: nat)
    requires j < |ns|
    ensures Gotos(ns[j]) <= GotosSeq(ns)
    decreases ns
  {
    if j > 0 {
      assert ns[1..][j - 1] == ns[j];
      GotosOfBody(ns[1..], j - 1);
    }
  }

  // ----- one stretch of a run, and a whole run -----

  lemma BeginReady(n: Node)
    requires Wf(n, Start, false, false, true)
    ensures Ready(Begin(), {}, Defs(n), Start, false, false) && Begin().cached == None
  {
  }

  lemma FixupGrows(s: State)
    ensures Grows(s, Fixup(s))
  {
    GrowsRefl(s);
    PutGrows(s, RetZero);
  }

  // Falling off the end of the body comes to the return that the fixup has put there.
  lemma FallsOff(e: Env, n: Node, c0: Conf, h: Hist, fuel: nat)
    requires var t := Lower(Begin(), n); Follows(e, Compile(n), c0, t, Normal(h), fuel) && OpenCur(t)
    ensures Reach(e, Compile(n).blocks, c0, Halt(FellOff, h), 0)
  {
    hide Lower, Grows;
    var t := Lower(Begin(), n);
    var F := Compile(n);
    GrowsRefl(Put(t, RetZero));
    PutStep(e, t, RetZero, F, h);
    ReachTrans(e, F.blocks, c0, Here(t, h), Halt(FellOff, h), 0, 1);
    ReachLess(e, F, c0, Halt(FellOff, h), 1, 0);
  }

  ghost predicate Ran(e: Env, F: State, c0: Conf, r: Final, fuel: nat) {
    if r.Done? then Reach(e, F.blocks, c0, Halt(r.how, r.h), 0) else Spends(e, F, c0, r.h, fuel)
  }

  // A run of the body that ends is a run of the code that halts the same way; one that has taken
  // `fuel` jumps without ending is a run of the code that has got as far in at least as many steps.
  lemma RunSim(e: Env, n: Node, at: Option<Label>, h: Hist, fuel: nat)
    requires Body(n) && SafeSwitches(n, false) && From(at, n)
    ensures Ran(e, Compile(n), Entry(Compile(n), Begin(), at, h), Run(e, n, at, h, fuel), fuel)
    decreases fuel
  {
    hide Lower, Exec, Wf, Defs, Gotos, SafeSwitches, Grows, Ended, Compile, Begin;
    var s := Begin();
    var t := Lower(s, n);
    var F := Compile(n);
    var c0 := Entry(F, s, at, h);
    var o := Exec(e, n, at, false, h, fuel);
    BodySims(n);
    SimNode(e, F, s, n, at, Start, false, false, true, {}, h, fuel);
    BodyFields(n);
    if o.Normal? {
      FallsOff(e, n, c0, o.h, fuel);
    } else if o.Jump? {
      JumpsAreGotos(e, n, at, false, h, fuel);
      assert o.l in Defs(n);
      if fuel > 0 {
        RunSim(e, n, Some(o.l), o.h, fuel - 1);
        RunsOn(e, F, c0, Entry(F, s, Some(o.l), o.h), Run(e, n, Some(o.l), o.h, fuel - 1), fuel - 1);
      } else {
        ReachLess(e, F, c0, At(F.labels[o.l], 0, o.h), 1, 0);
      }
    }
  }

  lemma RunsOn(e: Env, F: State, c0: Conf, c1: Conf, r: Final, fuel: nat)
    requires Reach(e, F.blocks, c0, c1, 1) && Ran(e, F, c1, r, fuel)
    ensures Ran(e, F, c0, r, fuel + 1)
  {
    if r.Done? {
      ReachTrans(e, F.blocks, c0, c1, Halt(r.how, r.h), 1, 0);
      ReachLess(e, F, c0, Halt(r.how, r.h), 1, 0);
    } else {
      var b, i :| Reach(e, F.blocks, c1, At(b, i, r.h), fuel);
      ReachTrans(e, F.blocks, c0, c1, At(b, i, r.h), 1, fuel);
    }
  }

  lemma BodySims(n: Node)
    requires Body(n) && SafeSwitches(n, false)
    ensures Sims(Compile(n), Begin(), n, Start, false, false, true, {}) && Begin().cur.Some?
  {
    BeginReady(n);
    FixupGrows(Lower(Begin(), n));
  }

  lemma BodyFields(n: Node)
    requires Body(n)
    ensures var t := Lower(Begin(), n); t.pads == [] && t.fin == None
  {
    BeginReady(n);
    hide Inv, Mod, Touch, Wf, Lower, Defs;
    FrameNode(Begin(), n, Start, false, false, true, {});
  }

  // ----- the theorem -----

  lemma {:induction false} HaltStays(e: Env, g: seq<Code>, c: Conf, n: nat)
    requires !c.At?
    ensures Steps(e, g, c, n) == c
    decreases n
  {
    if n > 0 { HaltStays(e, g, c, n - 1); }
  }

  // Once a run has halted or got stuck it stays so.
  lemma FinalStays(e: Env, g: seq<Code>, c: Conf, m: nat, n: nat)
    requires m <= n && !Steps(e, g, c, m).At?
    ensures Steps(e, g, c, n) == Steps(e, g, c, m)
  {
    StepsAdd(e, g, c, m, n - m);
    HaltStays(e, g, Steps(e, g, c, m), n - m);
  }

  ghost predicate TreeEnds(e: Env, n: Node, how: Ending, h: Hist) {
    exists fuel: nat :: Run(e, n, None, [], fuel) == Done(how, h)
  }

  ghost predicate CodeEnds(e: Env, g: seq<Code>, how: Ending, h: Hist) {
    exists k: nat :: Steps(e, g, At(0, 0, []), k) == Halt(how, h)
  }

  // What the code has done after k steps, read off a run of the tree with more fuel than that.
  lemma StepsMatch(e: Env, n: Node, k: nat)
    requires Body(n) && SafeSwitches(n, false)
    ensures var c := Steps(e, Compile(n).blocks, At(0, 0, []), k);
      && c != Stuck
      && (c.Halt? ==> Run(e, n, None, [], k + 1) == Done(c.how, c.h))
  {
    hide Compile, Run, Wf, SafeSwitches;
    var g := Compile(n).blocks;
    var c0 := At(0, 0, []);
    RunSim(e, n, None, [], k + 1);
    assert Entry(Compile(n), Begin(), None, []) == c0;
    var r := Run(e, n, None, [], k + 1);
    if r.Done? {
      var m: nat :| Steps(e, g, c0, m) == Halt(r.how, r.h);
      if m <= k { FinalStays(e, g, c0, m, k); }
      else if !Steps(e, g, c0, k).At? { FinalStays(e, g, c0, k, m); }
    } else {
      var b, i :| Reach(e, g, c0, At(b, i, r.h), k + 1);
      var m: nat :| m >= k + 1 && Steps(e, g, c0, m) == At(b, i, r.h);
      if !Steps(e, g, c0, k).At? { FinalStays(e, g, c0, k, m); }
    }
  }

  // The lowered function behaves exactly like its body, whatever the environment answers:
  // it ends just when the body does, the same way and having done the same operations in the
  // same order; it never runs off its blocks; and while the body has not ended after any number
  // of jumps, the code gets just as far.
  lemma LoweringIsCorrect(e: Env, n: Node)
    requires Body(n) && SafeSwitches(n, false)
    ensures var g := Compile(n).blocks;
      && (forall how, h :: TreeEnds(e, n, how, h) <==> CodeEnds(e, g, how, h))
      && (forall k: nat :: Steps(e, g, At(0, 0, []), k) != Stuck)
      && (forall fuel: nat :: Run(e, n, None, [], fuel).Unfinished? ==>
            Spends(e, Compile(n), At(0, 0, []), Run(e, n, None, [], fuel).h, fuel))
  {
    hide Compile, Run, Wf, SafeSwitches;
    var g := Compile(n).blocks;
    var c0 := At(0, 0, []);
    assert Entry(Compile(n), Begin(), None, []) == c0;
    forall how, h
      ensures TreeEnds(e, n, how, h) <==> CodeEnds(e, g, how, h)
    {
      if TreeEnds(e, n, how, h) {
        var fuel: nat :| Run(e, n, None, [], fuel) == Done(how, h);
        RunSim(e, n, None, [], fuel);
      }
      if CodeEnds(e, g, how, h) {
        var k: nat :| Steps(e, g, c0, k) == Halt(how, h);
        StepsMatch(e, n, k);
      }
    }
    forall k: nat
      ensures Steps(e, g, c0, k) != Stuck
    {
      StepsMatch(e, n, k);
    }
    forall fuel: nat | Run(e, n, None, [], fuel).Unfinished?
      ensures Spends(e, Compile(n), c0, Run(e, n, None, [], fuel).h, fuel)
    {
      RunSim(e, n, None, [], fuel);
    }
  }
}
