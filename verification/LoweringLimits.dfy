/** A function body on which the lowering goes wrong: a switch case that holds an if statement. */
module LoweringLimits {
  import opened Wrappers
  import opened StmtTree
  import opened Cfg
  import opened Lowering
  import opened LoweringCorrect
  import opened LoweringClosed

  // switch v { case 1: if c {} else {} }
  function IfInCase(v: int, c: int): Node {
    Switch(Expr([], [], v), [[1]], [IfStmt(c)])
  }

  function IfStmt(c: int): Node {
    If(Expr([], [], c), Block([]), Block([]))
  }

  // A branch into the empty block b.
  lemma IntoEmpty(s: State, b: BlockId, i: Instr)
    requires b < |s.blocks| && s.blocks[b] == []
    ensures Append(s, b, i).blocks == s.blocks[b := [i]]
  {
    assert [] + [i] == [i];
  }

  lemma IfStmtBlocks(s: State, c: int)
    requires s.cur == Some(1) && s.blocks == [[], [], []]
    ensures Lower(s, IfStmt(c)).blocks == [[], [CondBr(c, 3, 5)], [], [Br(4)], [], [Br(4)]]
    ensures Lower(s, IfStmt(c)).cur == Some(4)
  {
    var s3 := Put(Fresh(s, 3), CondBr(c, 3, 5));
    assert Empties(3) == [[], [], []];
    assert Fresh(s, 3).blocks == [[], [], [], [], [], []];
    IntoEmpty(Fresh(s, 3), 1, CondBr(c, 3, 5));
    assert s3.blocks == [[], [CondBr(c, 3, 5)], [], [], [], []];
    var s4 := Close(Goes(s3, 3), 4);
    IntoEmpty(s3, 3, Br(4));
    assert s4.blocks == [[], [CondBr(c, 3, 5)], [], [Br(4)], [], []];
    var s5 := Close(Goes(s4, 5), 4);
    IntoEmpty(s4, 5, Br(4));
    assert s5.blocks == [[], [CondBr(c, 3, 5)], [], [Br(4)], [], [Br(4)]];
    assert Goes(s5, 4) == Lower(s, IfStmt(c)) by {
      hide Put, Fresh, Close;
      assert Lower(s, Expr([], [], c)) == s;
      assert Lower(Goes(s3, 3), Block([])) == Goes(s3, 3);
      assert Lower(Goes(s4, 5), Block([])) == Goes(s4, 5);
    }
  }

  lemma SwitchIs(s: State, v: int, c: int)
    ensures var b := |s.blocks|;
      var t := Lower(Goes(Fresh(s, 2), b), IfStmt(c));
      Lower(s, IfInCase(v, c)) ==
        Goes(Put((if Ended(t, b) then t else Append(t, b, Br(b + 1))).(cur := s.cur), SwitchBr(v, b + 1, [(1, b)])),
          b + 1)
  {
    hide Put, Fresh, Goes, Append, Ended;
    var n := IfInCase(v, c);
    var b := |s.blocks|;
    assert Lower(s, n.sel) == s;
    assert n.bodies[1..] == [] && n.vals[1..] == [];
    assert ArmsOf([1], b) == [(1, b)];
    assert Arms(n.vals, b) == [(1, b)];
    assert DefaultCase(n.vals) == 1;
    assert |n.bodies| == 1 && n.bodies[0] == IfStmt(c);
    var t := Lower(Goes(Fresh(s, 2), b), IfStmt(c));
    assert LowerBodies(Fresh(s, 2), n.bodies, b, b + 1) == if Ended(t, b) then t else Append(t, b, Br(b + 1));
  }

  lemma IfInCaseBlocks(v: int, c: int)
    ensures var g := Compile(IfInCase(v, c)).blocks;
      && |g| == 6 && g[0] == [SwitchBr(v, 2, [(1, 1)])] && g[1] == [CondBr(c, 3, 5)] && g[2] == [RetZero]
      && g[3] == [Br(4)] && g[4] == [] && g[5] == [Br(4)]
  {
    hide Lower, Append, Ended, IfInCase, IfStmt, Empties;
    var s := Begin();
    SwitchIs(s, v, c);
    assert Fresh(s, 2).blocks == [[], [], []] by { TwoFresh(); }
    var t := Lower(Goes(Fresh(s, 2), 1), IfStmt(c));
    IfStmtBlocks(Goes(Fresh(s, 2), 1), c);
    assert Ended(t, 1) by { EndedIs(t, 1); }
    var i := SwitchBr(v, 2, [(1, 1)]);
    var u := Lower(s, IfInCase(v, c));
    IntoEmpty(t.(cur := s.cur), 0, i);
    assert u.blocks == t.blocks[0 := [i]];
    assert !Ended(u, 2) by { EndedIs(u, 2); }
    IntoEmpty(u, 2, RetZero);
  }

  lemma TwoFresh()
    ensures Empties(2) == [[], []]
  {
  }

  lemma EndedIs(s: State, b: BlockId)
    ensures Ended(s, b) == (b < |s.blocks| && Terminated(s.blocks[b]))
  {
  }

  lemma NoNodes()
    ensures DefsSeq([]) == {} && GotosSeq([]) == {}
    ensures Defs(Block([])) == {} && Gotos(Block([])) == {}
  {
  }

  lemma IfInCaseAccepted(v: int, c: int)
    ensures Body(IfInCase(v, c)) && !SafeSwitches(IfInCase(v, c), false)
  {
    var n := IfInCase(v, c);
    assert n.bodies[1..] == [];
    var i := IfStmt(c);
    NoNodes();
    assert Defs(i.cond) == {} && Defs(i.thn) == {} && Defs(i.els) == {};
    assert Gotos(i.cond) == {} && Gotos(i.thn) == {} && Gotos(i.els) == {};
    assert Defs(i) == {} && Gotos(i) == {};
    assert Wf(i.cond, Start, false, false, false) && Wf(i.thn, Start, false, false, false);
    assert End(i.cond, Start, false) == Start;
    assert DefsSeq(n.bodies) == {} && GotosSeq(n.bodies) == {};
    assert Wf(IfStmt(c), Start, false, false, false);
    assert WfBodies(n.bodies, false, false);
  }

  lemma IfInCaseMeans(e: Env, v: int, c: int)
    requires e.choose(v, []) == 1
    ensures Run(e, IfInCase(v, c), None, [], 0) == Done(FellOff, [])
  {
    var n := IfInCase(v, c);
    assert 1 in n.vals[0];
    assert Pick(n.vals, 1) == 0;
    assert Exec(e, n.sel, None, false, [], 0) == Normal([]);
    assert Exec(e, IfStmt(c).cond, None, false, [], 0) == Normal([]);
    assert Exec(e, IfStmt(c), None, false, [], 0) == Normal([]);
  }

  // The body is accepted and means "fall off the end", but its code has an open block, and runs
  // into it whenever the case is chosen.
  lemma IfInCaseRunsOffItsBlocks(e: Env, v: int, c: int)
    requires e.choose(v, []) == 1
    ensures Body(IfInCase(v, c)) && !SafeSwitches(IfInCase(v, c), false)
    ensures Run(e, IfInCase(v, c), None, [], 0) == Done(FellOff, [])
    ensures !AllClosed(Compile(IfInCase(v, c)).blocks)
    ensures Steps(e, Compile(IfInCase(v, c)).blocks, At(0, 0, []), 4) == Stuck
  {
    hide Compile, Body, SafeSwitches, Run, IfInCase;
    IfInCaseAccepted(v, c);
    IfInCaseMeans(e, v, c);
    IfInCaseBlocks(v, c);
    var g := Compile(IfInCase(v, c)).blocks;
    assert g[4] == [];
    assert !Terminated(g[4]);
    var c1 := Step(e, g, At(0, 0, []));
    assert c1 == At(1, 0, []);
    var c2 := Step(e, g, c1);
    assert c2 == At(if e.test(c, []) then 3 else 5, 0, []);
    var c3 := Step(e, g, c2);
    assert c3 == At(4, 0, []);
    assert Step(e, g, c3) == Stuck;
    assert Steps(e, g, c3, 1) == Steps(e, g, Stuck, 0) == Stuck;
    assert Steps(e, g, c2, 2) == Stuck;
    assert Steps(e, g, c1, 3) == Stuck;
  }
}
