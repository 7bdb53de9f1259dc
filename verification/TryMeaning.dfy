/** What a try statement means, and when its code does that. An exception of the catch code is raised
    again after the finally code, and only a return that was taken returns. The code drops such an
    exception, and carries out the first return it has whenever the finally code completes. */
module TryMeaning {
  import opened Wrappers
  import opened StmtTree
  import opened LoweringWalk
  import opened LoweringCorrect
  import opened BodyTail
  import opened TryFinally

  // How the function is meant to end, once the protected part has come to p and the finally code to f.
  ghost function MeantEnd(e: Env, p: Out, f: Out): Final {
    if !f.Normal? then Ends(f)
    else
      match p
      case Thrown(_) => Done(Unwound, f.h)
      case Returning(ops, _) => Ends(ExecInsts(e, ops, f.h))
      case _ => Done(FellOff, f.h)
  }

  // How a function body that ends in a try statement is meant to end.
  ghost predicate MeantToEnd(e: Env, n: Node, how: Ending, h: Hist)
    requires Last(n).Excep?
  {
    LeadEnds(e, n, how, h) || exists h0, p, f :: Comes(e, n, h0, p, f) && MeantEnd(e, p, f) == Done(how, h)
  }

  // The catch code did not throw, and either a return was taken or there is none to take.
  ghost predicate Kept(t: Node, p: Out) {
    !p.Thrown? && (p.Returning? || FirstReturn(t).None?)
  }

  // So it is in the run from the entry, if that gets past the finally code.
  ghost predicate KeptInRun(e: Env, n: Node)
    requires Last(n).Excep?
  {
    forall h0, p, f | Comes(e, n, h0, p, f) && f.Normal? :: Kept(Last(n), p)
  }

  // ----- how a part can come out -----

  lemma {:induction false} PartOut(e: Env, t: Node, part: Node, at: Option<Label>, h: Hist, fuel: nat)
    requires Whole(t) && part in {t.body, t.onexc} && From(at, part)
    ensures var o := RunPart(e, part, at, true, h, fuel).0;
      !o.Jump? && !o.Returned? && (o.Returning? ==> WaitsFor(t, Some(o.ops)))
    decreases fuel
  {
    hide Exec, Whole, Defs, WaitsFor;
    var o := Exec(e, part, at, true, h, fuel);
    PartReturns(e, t, part, at, h, fuel);
    if o.Jump? && fuel > 0 && o.l in Defs(part) { PartOut(e, t, part, Some(o.l), o.h, fuel - 1); }
  }

  lemma ProtectedOut(e: Env, t: Node, h: Hist, p: Out)
    requires Whole(t) && Protected(e, t, h, p)
    ensures p.Normal? || p.Thrown? || (p.Returning? && WaitsFor(t, Some(p.ops)))
  {
    hide RunPart, WaitsFor;
    var b :| ComesTo(e, t.body, true, h, b) && if b.Thrown? then ComesTo(e, t.onexc, true, b.h, p) else p == b;
    if b.Thrown? {
      var k: nat :| RunPart(e, t.onexc, None, true, b.h, k).0 == p;
      PartOut(e, t, t.onexc, None, b.h, k);
    } else {
      var k: nat :| RunPart(e, t.body, None, true, h, k).0 == p;
      PartOut(e, t, t.body, None, h, k);
    }
  }

  // Carrying out a return does something and does not come to its end.
  lemma {:induction false} ReturnLeaves(e: Env, ops: seq<Inst>, h: Hist)
    requires ops != [] && ops[|ops| - 1] == Ret
    ensures var o := ExecInsts(e, ops, h); (o.Returned? || o.Thrown?) && |o.h| > |h|
    decreases |ops|
  {
    if !ops[0].Ret? && !(MayThrow(ops[0]) && e.throws(ops[0], h)) {
      assert ops[1..][|ops| - 2] == Ret;
      ReturnLeaves(e, ops[1..], h + [Did(ops[0])]);
    }
  }

  lemma FirstReturnLeaves(e: Env, t: Node, h: Hist)
    requires Whole(t) && FirstReturn(t).Some?
    ensures var o := ExecInsts(e, Flat(FirstReturn(t).value), h); (o.Returned? || o.Thrown?) && |o.h| > |h|
  {
    hide Wf, FirstReturn, ExecInsts;
    var p :| Wf(t, p, false, false, true);
    FirstReturnWf(t, p, false, false, true);
    ReturnLeaves(e, Flat(FirstReturn(t).value), h);
  }

  // ----- the theorems -----

  // A run that gets past the finally code ends as meant exactly when the catch code did not throw, and
  // either a return was taken or the statement holds none. One that does not always ends as meant.
  lemma EndAsMeantExactly(e: Env, t: Node, h: Hist, p: Out, f: Out)
    requires Whole(t) && Protected(e, t, h, p)
    ensures EndOf(e, t, f) == MeantEnd(e, p, f) <==> (f.Normal? ==> Kept(t, p))
  {
    hide Protected, Whole, ExecInsts, FirstReturn;
    ProtectedOut(e, t, h, p);
    if f.Normal? && FirstReturn(t).Some? { FirstReturnLeaves(e, t, f.h); }
  }

  lemma ComesOnce(e: Env, n: Node, h0: Hist, p: Out, f: Out, h1: Hist, q: Out, g: Out)
    requires Last(n).Excep? && Comes(e, n, h0, p, f) && Comes(e, n, h1, q, g)
    ensures h0 == h1 && p == q && f == g
  {
    hide ComesTo;
    var t := Last(n);
    ComesToOne(e, Block(Lead(n)), false, [], Normal(h0), Normal(h1));
    var b :| ComesTo(e, t.body, true, h0, b) && if b.Thrown? then ComesTo(e, t.onexc, true, b.h, p) else p == b;
    var c :| ComesTo(e, t.body, true, h0, c) && if c.Thrown? then ComesTo(e, t.onexc, true, c.h, q) else q == c;
    ComesToOne(e, t.body, true, h0, b, c);
    if b.Thrown? { ComesToOne(e, t.onexc, true, b.h, p, q); }
    ComesToOne(e, t.fin, false, p.h, f, g);
  }

  lemma LeadEndsOrComes(e: Env, n: Node, how: Ending, h: Hist, h0: Hist, p: Out, f: Out)
    requires Last(n).Excep? && LeadEnds(e, n, how, h)
    ensures !Comes(e, n, h0, p, f)
  {
    hide ComesTo;
    if Comes(e, n, h0, p, f) {
      var o :| ComesTo(e, Block(Lead(n)), false, [], o) && !o.Normal? && Ends(o) == Done(how, h);
      ComesToOne(e, Block(Lead(n)), false, [], Normal(h0), o);
    }
  }

  // The code of the function ends just as its body is meant to, and never when that does not, exactly
  // if in the run from its entry the catch code does not throw, and a return is taken or there is none.
  lemma CodeAsMeantExactly(e: Env, n: Node)
    requires EndsInTry(n) && SafeSwitches(n, false)
    ensures (forall how, h :: CodeEnds(e, Compile(n).blocks, how, h) <==> MeantToEnd(e, n, how, h)) <==> KeptInRun(e, n)
  {
    hide Compile, SafeSwitches, CodeEnds, Comes, LeadEnds, Kept, EndsInTry, Whole, Protected;
    var t := Last(n);
    LastOfTry(n);
    forall how, h
      ensures CodeEnds(e, Compile(n).blocks, how, h) <==> TryEnds(e, n, how, h)
    {
      TryCodeInOrder(e, n, how, h);
    }
    forall h0, p, f | Comes(e, n, h0, p, f)
      ensures EndOf(e, t, f) == MeantEnd(e, p, f) <==> (f.Normal? ==> Kept(t, p))
    {
      ComesProtected(e, n, h0, p, f);
      EndAsMeantExactly(e, t, h0, p, f);
    }
    if KeptInRun(e, n) {
      forall how, h
        ensures TryEnds(e, n, how, h) <==> MeantToEnd(e, n, how, h)
      {
      }
    } else {
      var h0, p, f :| Comes(e, n, h0, p, f) && f.Normal? && !Kept(t, p);
      EndsDiffer(e, n, h0, p, f);
    }
  }

  lemma LastOfTry(n: Node)
    requires EndsInTry(n)
    ensures Last(n).Excep? && Whole(Last(n))
  {
    LastIsWhole(n);
  }

  lemma ComesProtected(e: Env, n: Node, h0: Hist, p: Out, f: Out)
    requires Last(n).Excep? && Comes(e, n, h0, p, f)
    ensures Protected(e, Last(n), h0, p)
  {
  }

  // In such a run the code ends, and not as it is meant to.
  lemma EndsDiffer(e: Env, n: Node, h0: Hist, p: Out, f: Out)
    requires Last(n).Excep? && Whole(Last(n)) && Comes(e, n, h0, p, f) && f.Normal? && !Kept(Last(n), p)
    ensures var r := EndOf(e, Last(n), f);
      r.Done? && TryEnds(e, n, r.how, r.h) && !MeantToEnd(e, n, r.how, r.h)
  {
    hide Comes, LeadEnds, Whole, Protected, ExecInsts, FirstReturn;
    var t := Last(n);
    var r := EndOf(e, t, f);
    ComesProtected(e, n, h0, p, f);
    EndAsMeantExactly(e, t, h0, p, f);
    if FirstReturn(t).Some? { FirstReturnLeaves(e, t, f.h); }
    if LeadEnds(e, n, r.how, r.h) { LeadEndsOrComes(e, n, r.how, r.h, h0, p, f); }
    if h1, q, g :| Comes(e, n, h1, q, g) && MeantEnd(e, q, g) == Done(r.how, r.h) {
      ComesOnce(e, n, h0, p, f, h1, q, g);
    }
  }

  // ----- no other try statements -----

  predicate TryFree(n: Node)
    decreases n, 0
  {
    match n
    case Expr(kids, _, _) => TryFreeSeq(kids)
    case ExprStmt(x) => TryFree(x)
    case Block(stmts) => TryFreeSeq(stmts)
    case If(c, t, f) => TryFree(c) && TryFree(t) && TryFree(f)
    case Switch(v, _, bodies) => TryFree(v) && TryFreeSeq(bodies)
    case Return(x) => TryFree(x)
    case Goto(_) => true
    case LabelDef(_) => true
    case Defer(u, d) => TryFree(u) && TryFree(d)
    case Excep(_, _, _) => false
  }

  predicate TryFreeSeq(ns: seq<Node>)
    decreases ns, 1
  {
    ns == [] || (TryFree(ns[0]) && TryFreeSeq(ns[1..]))
  }

  lemma {:induction false} SimpleTryFree(n: Node)
    requires Simple(n)
    ensures TryFree(n)
    decreases n, 0
  {
    SimpleTryFreeSeq(n.kids);
  }

  lemma {:induction false} SimpleTryFreeSeq(ns: seq<Node>)
    requires SimpleSeq(ns)
    ensures TryFreeSeq(ns)
    decreases ns, 1
  {
    if ns != [] {
      SimpleTryFree(ns[0]);
      SimpleTryFreeSeq(ns[1..]);
    }
  }

  lemma {:induction false} InnerTryFree(n: Node, p: Pos, pad: bool, fin: bool)
    requires Wf(n, p, pad, fin, false)
    ensures TryFree(n)
    decreases n, 0
  {
    match n
    case Expr(kids, _, _) => InnerTryFreeSeq(kids, p, pad, fin);
    case ExprStmt(x) => InnerTryFree(x, p, pad, fin);
    case Block(stmts) => InnerTryFreeSeq(stmts, p, pad, fin);
    case If(c, t, f) =>
      InnerTryFree(c, p, pad, fin);
      InnerTryFree(t, Start, pad, fin);
      InnerTryFree(f, Start, pad, fin);
    case Switch(v, _, bodies) =>
      InnerTryFree(v, p, pad, fin);
      InnerTryFreeBodies(bodies, pad, fin);
    case Return(x) => SimpleTryFree(x);
    case Goto(_) =>
    case LabelDef(_) =>
    case Defer(u, d) =>
      SimpleTryFree(u);
      SimpleTryFree(d);
    case Excep(_, _, _) => assert false;
  }

  lemma {:induction false} InnerTryFreeSeq(ns: seq<Node>, p: Pos, pad: bool, fin: bool)
    requires WfSeq(ns, p, pad, fin, false)
    ensures TryFreeSeq(ns)
    decreases ns, 1
  {
    if ns != [] {
      InnerTryFree(ns[0], p, pad, fin);
      InnerTryFreeSeq(ns[1..], End(ns[0], p, pad), pad, fin);
    }
  }

  lemma {:induction false} InnerTryFreeBodies(ns: seq<Node>, pad: bool, fin: bool)
    requires WfBodies(ns, pad, fin)
    ensures TryFreeSeq(ns)
    decreases ns, 1
  {
    if ns != [] {
      InnerTryFree(ns[0], Start, pad, fin);
      InnerTryFreeBodies(ns[1..], pad, fin);
    }
  }

  lemma {:induction false} AppendTryFree(ms: seq<Node>, ns: seq<Node>)
    ensures TryFreeSeq(ms + ns) <==> TryFreeSeq(ms) && TryFreeSeq(ns)
    decreases ms
  {
    if ms == [] {
      assert ms + ns == ns;
    } else {
      assert (ms + ns)[1..] == ms[1..] + ns;
      AppendTryFree(ms[1..], ns);
    }
  }

  lemma {:induction false} FrontTryFree(ns: seq<Node>, p: Pos, pad: bool, fin: bool, tail: bool)
    requires ns != [] && WfSeq(ns, p, pad, fin, tail)
    ensures TryFreeSeq(ns[..|ns| - 1])
    decreases ns
  {
    if |ns| > 1 {
      InnerTryFree(ns[0], p, pad, fin);
      FrontTryFree(ns[1..], End(ns[0], p, pad), pad, fin, tail);
      assert ns[1..][..|ns| - 2] == ns[..|ns| - 1][1..];
    }
  }

  // In a body that the lowering accepts there is no try statement but the last statement, if that is
  // one: not before it, and not in its parts.
  lemma {:induction false} OnlyLastIsTry(n: Node, p: Pos, pad: bool, fin: bool, tail: bool)
    requires Wf(n, p, pad, fin, tail)
    ensures var t := Last(n);
      TryFreeSeq(Lead(n)) && if t.Excep? then TryFree(t.body) && TryFree(t.onexc) && TryFree(t.fin) else TryFree(t)
    decreases n
  {
    if n.Block? && n.stmts != [] {
      var front, x := n.stmts[..|n.stmts| - 1], n.stmts[|n.stmts| - 1];
      FrontTryFree(n.stmts, p, pad, fin, tail);
      var q := WfSeqLast(n.stmts, p, pad, fin, tail);
      OnlyLastIsTry(x, q, pad, fin, tail);
      AppendTryFree(front, Lead(x));
    } else if n.Excep? {
      InnerTryFree(n.body, p, true, true);
      InnerTryFree(n.onexc, Start, true, true);
      InnerTryFree(n.fin, Moved, false, false);
    } else {
      assert !n.Block? ==> Wf(n, p, pad, fin, false);
      if !n.Block? { InnerTryFree(n, p, pad, fin); }
    }
  }

  // ----- every function body -----

  // How a function body is meant to end: up to its one try statement, as it runs.
  ghost predicate Meant(e: Env, n: Node, how: Ending, h: Hist) {
    if Last(n).Excep? then MeantToEnd(e, n, how, h) else TreeEnds(e, n, how, h)
  }

  // The code of an accepted body ends just as the body is meant to, exactly if the body has no try
  // statement or the run from its entry is as said above.
  lemma CodeMeansExactly(e: Env, n: Node)
    requires Body(n) && SafeSwitches(n, false) && (Last(n).Excep? ==> EndsInTry(n))
    ensures (forall how, h :: CodeEnds(e, Compile(n).blocks, how, h) <==> Meant(e, n, how, h))
      <==> (Last(n).Excep? ==> KeptInRun(e, n))
  {
    hide Compile, SafeSwitches, CodeEnds, MeantToEnd, TreeEnds, KeptInRun, EndsInTry, Body;
    if Last(n).Excep? {
      CodeAsMeantExactly(e, n);
      assert forall how, h :: Meant(e, n, how, h) <==> MeantToEnd(e, n, how, h);
    } else {
      LoweringIsCorrect(e, n);
    }
  }
}
