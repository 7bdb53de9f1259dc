/** Try statements whose code does not end as they are meant to. */
module TryLimits {
  import opened Wrappers
  import opened StmtTree
  import opened LoweringCorrect
  import opened BodyTail
  import opened TryFinally
  import opened TryMeaning

  // A function body with a try statement and nothing else.
  function Try(body: Node, onexc: Node): Node {
    Block([Excep(body, onexc, Block([]))])
  }

  function CallStmt(f: int): Node {
    ExprStmt(Expr([], [Call(f, false)], 0))
  }

  // The returns of a function without result.
  function ReturnStmt(): Node {
    Return(Expr([], [Ret], 0))
  }

  lemma TryUnfolds(body: Node, onexc: Node)
    ensures var n := Try(body, onexc); var t := Excep(body, onexc, Block([]));
      && Lead(n) == [] && Last(n) == t
      && (Wf(t, Start, false, false, true) ==> Wf(n, Start, false, false, true))
      && Gotos(n) == Gotos(body) + Gotos(onexc) && Defs(n) == Defs(t) == Defs(body) + Defs(onexc)
      && (SafeSwitches(body, true) && SafeSwitches(onexc, true) ==> SafeSwitches(n, false))
  {
    var t := Excep(body, onexc, Block([]));
    assert Block([t]).stmts[..0] == [];
    OneNode(t);
    assert [t][1..] == [];
    assert SafeSwitches(Block([]), false);
    assert SafeSwitchesSeq([t], false) == SafeSwitches(t, false);
    assert WfSeq([t], Start, false, false, true) <== Wf(t, Start, false, false, true);
  }

  // Without labels nothing need be asked of gotos.
  lemma TryAccepted(body: Node, onexc: Node)
    requires Defs(body) == Defs(onexc) == Gotos(body) == Gotos(onexc) == {}
    requires SafeSwitches(body, true) && SafeSwitches(onexc, true)
    requires Wf(Excep(body, onexc, Block([])), Start, false, false, true)
    ensures var n := Try(body, onexc); EndsInTry(n) && SafeSwitches(n, false)
  {
    hide Wf, Defs, Gotos, SafeSwitches;
    TryUnfolds(body, onexc);
    assert Gotos(Block([])) == {} by { NothingThere(); }
    assert GotosSeq([]) == {};
  }

  lemma NothingThere()
    ensures var b := Block([]);
      Defs(b) == Gotos(b) == {} && SafeSwitches(b, true) && FirstReturn(b) == None
  {
  }

  // Something done in one stretch.
  lemma AtOnce(e: Env, n: Node, delay: bool, h: Hist, o: Out)
    requires Exec(e, n, None, delay, h, 0) == o && !o.Jump? && !o.OutOfFuel?
    ensures ComesTo(e, n, delay, h, o)
  {
    assert RunPart(e, n, None, delay, h, 0).0 == o;
  }

  lemma EmptyBlock(e: Env, delay: bool, h: Hist)
    ensures ComesTo(e, Block([]), delay, h, Normal(h))
  {
    AtOnce(e, Block([]), delay, h, Normal(h));
  }

  lemma CallStmtThrows(e: Env, f: int, delay: bool, h: Hist)
    requires e.throws(Call(f, false), h)
    ensures ComesTo(e, CallStmt(f), delay, h, Thrown(h + [Threw(Call(f, false))]))
  {
    assert Exec(e, CallStmt(f).e, None, delay, h, 0) == Thrown(h + [Threw(Call(f, false))]);
    AtOnce(e, CallStmt(f), delay, h, Thrown(h + [Threw(Call(f, false))]));
  }

  lemma CallAccepted(f: int, p: Pos)
    ensures var c := CallStmt(f);
      Defs(c) == Gotos(c) == {} && SafeSwitches(c, true) && FirstReturn(c) == None && Wf(c, p, true, true, false)
  {
    ExprAccepted([Call(f, false)], 0, p);
  }

  lemma ExprAccepted(insts: seq<Inst>, v: int, p: Pos)
    ensures var x := Expr([], insts, v);
      && Defs(x) == Gotos(x) == {} && SafeSwitches(x, true) && FirstReturn(x) == None && UniformReturns(x, [Ret])
      && (Ret !in insts ==> Wf(x, p, true, true, false)) && (insts == [] ==> End(x, p, true) == p)
  {
  }

  lemma CallsAccepted(f: int, g: int)
    ensures var n := Try(CallStmt(f), CallStmt(g));
      EndsInTry(n) && SafeSwitches(n, false) && FirstReturn(Last(n)) == None
  {
    CallAccepted(f, Start);
    CallAccepted(g, Start);
    hide CallStmt;
    NothingThere();
    TryUnfolds(CallStmt(f), CallStmt(g));
    TryAccepted(CallStmt(f), CallStmt(g));
  }

  // Body and catch code throw: the function is meant to end by the exception of the catch code. Its
  // code forgets that exception and falls off the end.
  lemma CatchExceptionIsLost(e: Env, f: int, g: int)
    requires e.throws(Call(f, false), []) && e.throws(Call(g, false), [Threw(Call(f, false))])
    ensures var n := Try(CallStmt(f), CallStmt(g)); var h := [Threw(Call(f, false)), Threw(Call(g, false))];
      && EndsInTry(n) && SafeSwitches(n, false)
      && MeantToEnd(e, n, Unwound, h) && !MeantToEnd(e, n, FellOff, h) && CodeEnds(e, Compile(n).blocks, FellOff, h)
  {
    hide Exec, ComesTo, EndsInTry, SafeSwitches, Compile, LeadEnds, CodeEnds, FirstReturn, MeantToEnd, TryEnds;
    var n := Try(CallStmt(f), CallStmt(g));
    var h1 := [Threw(Call(f, false))];
    var h := h1 + [Threw(Call(g, false))];
    TryUnfolds(CallStmt(f), CallStmt(g));
    CallsAccepted(f, g);
    EmptyBlock(e, false, []);
    CallStmtThrows(e, f, true, []);
    assert [] + h1 == h1 && h == [Threw(Call(f, false)), Threw(Call(g, false))];
    CallStmtThrows(e, g, true, h1);
    EmptyBlock(e, false, h);
    Shown(e, n, [], Thrown(h1), Thrown(h), Normal(h));
    LastOfTry(n);
    EndsDiffer(e, n, [], Thrown(h), Normal(h));
    TryCodeInOrder(e, n, FellOff, h);
    MeantBy(e, n, [], Thrown(h), Normal(h));
  }

  lemma Shown(e: Env, n: Node, h: Hist, b: Out, p: Out, f: Out)
    requires Last(n).Excep? && ComesTo(e, Block(Lead(n)), false, [], Normal(h)) && ComesTo(e, Last(n).body, true, h, b)
    requires if b.Thrown? then ComesTo(e, Last(n).onexc, true, b.h, p) else p == b
    requires ComesTo(e, Last(n).fin, false, p.h, f)
    ensures Comes(e, n, h, p, f)
  {
  }

  lemma MeantBy(e: Env, n: Node, h: Hist, p: Out, f: Out)
    requires Last(n).Excep? && Comes(e, n, h, p, f) && MeantEnd(e, p, f).Done?
    ensures var r := MeantEnd(e, p, f); MeantToEnd(e, n, r.how, r.h)
  {
  }

  function Branch(c: int): Node {
    If(Expr([], [], c), ReturnStmt(), Block([]))
  }

  lemma ReturnAccepted()
    ensures var r := ReturnStmt();
      && Defs(r) == Gotos(r) == {} && SafeSwitches(r, true) && FirstReturn(r) == Some(r.e) && Flat(r.e) == [Ret]
      && UniformReturns(r, [Ret]) && Wf(r, Start, true, true, false)
  {
    assert Flat(ReturnStmt().e) == FlatSeq([]) + [Ret] == [Ret];
  }

  lemma BranchUnfolds(c: int)
    ensures var b := Branch(c);
      && Defs(b) == Gotos(b) == {} && SafeSwitches(b, true) && FirstReturn(b) == Some(ReturnStmt().e)
      && UniformReturns(b, [Ret]) && Wf(b, Start, true, true, false)
  {
    ReturnAccepted();
    ExprAccepted([], c, Start);
    assert UniformReturns(Block([]), [Ret]) && Wf(Block([]), Start, true, true, false);
    NothingThere();
  }

  lemma BranchAccepted(c: int)
    ensures var n := Try(Branch(c), Block([]));
      EndsInTry(n) && SafeSwitches(n, false) && FirstReturn(Last(n)) == Some(ReturnStmt().e)
  {
    BranchUnfolds(c);
    ReturnAccepted();
    NothingThere();
    hide Branch, ReturnStmt;
    assert UniformReturns(Block([]), [Ret]);
    TryUnfolds(Branch(c), Block([]));
    TryAccepted(Branch(c), Block([]));
  }

  lemma BranchFallsThrough(e: Env, c: int)
    requires !e.test(c, [])
    ensures Exec(e, Branch(c), None, true, [], 0) == Normal([])
  {
    assert Exec(e, Expr([], [], c), None, true, [], 0) == Normal([]);
  }

  lemma ReturnRuns(e: Env)
    ensures ExecInsts(e, [Ret], []) == Returned([Did(Ret)])
  {
  }

  // A return stands in the body, and is not taken: the function is meant to fall off its end, having
  // done nothing. Its code returns.
  lemma ReturnNotTaken(e: Env, c: int)
    requires !e.test(c, [])
    ensures var n := Try(Branch(c), Block([]));
      && EndsInTry(n) && SafeSwitches(n, false)
      && MeantToEnd(e, n, FellOff, []) && !MeantToEnd(e, n, Left, [Did(Ret)])
        && CodeEnds(e, Compile(n).blocks, Left, [Did(Ret)])
  {
    hide Exec, ComesTo, EndsInTry, SafeSwitches, Compile, LeadEnds, CodeEnds, FirstReturn, MeantToEnd, TryEnds,
      ExecInsts, Flat, Whole, Comes;
    var n := Try(Branch(c), Block([]));
    TryUnfolds(Branch(c), Block([]));
    BranchAccepted(c);
    BranchFallsThrough(e, c);
    AtOnce(e, Branch(c), true, [], Normal([]));
    EmptyBlock(e, false, []);
    Shown(e, n, [], Normal([]), Normal([]), Normal([]));
    LastOfTry(n);
    EndsDiffer(e, n, [], Normal([]), Normal([]));
    ReturnAccepted();
    ReturnRuns(e);
    TryCodeInOrder(e, n, Left, [Did(Ret)]);
    MeantBy(e, n, [], Normal([]), Normal([]));
  }
}
