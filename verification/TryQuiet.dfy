/** Try statements whose code always ends as they are meant to, by what can be read off the tree. */
module TryQuiet {
  import opened Wrappers
  import opened StmtTree
  import opened LoweringCorrect
  import opened BodyTail
  import opened TryFinally
  import opened TryMeaning

  // No instruction of n may throw, and there is no try statement in it.
  predicate Quiet(n: Node)
    decreases n, 0
  {
    match n
    case Expr(kids, insts, _) => QuietSeq(kids) && !Throws(insts)
    case ExprStmt(x) => Quiet(x)
    case Block(stmts) => QuietSeq(stmts)
    case If(c, t, f) => Quiet(c) && Quiet(t) && Quiet(f)
    case Switch(v, _, bodies) => Quiet(v) && QuietSeq(bodies)
    case Return(x) => Quiet(x)
    case Goto(_) => true
    case LabelDef(_) => true
    case Defer(u, d) => Quiet(u) && Quiet(d)
    case Excep(_, _, _) => false
  }

  predicate QuietSeq(ns: seq<Node>)
    decreases ns, 1
  {
    ns == [] || (Quiet(ns[0]) && QuietSeq(ns[1..]))
  }

  lemma {:induction false} QuietInsts(e: Env, insts: seq<Inst>, h: Hist)
    requires !Throws(insts)
    ensures !ExecInsts(e, insts, h).Thrown?
    decreases insts
  {
    if insts != [] && !insts[0].Ret? {
      assert insts[0] in insts;
      assert !Throws(insts[1..]) by { assert forall i | i in insts[1..] :: i in insts; }
      QuietInsts(e, insts[1..], h + [Did(insts[0])]);
    }
  }

  lemma {:induction false} QuietBody(ns: seq<Node>, j: nat)
    requires QuietSeq(ns) && j < |ns|
    ensures Quiet(ns[j])
    decreases ns
  {
    if j > 0 {
      assert ns[1..][j - 1] == ns[j];
      QuietBody(ns[1..], j - 1);
    }
  }

  lemma {:induction false} QuietExec(e: Env, n: Node, at: Option<Label>, delay: bool, h: Hist, fuel: nat)
    requires Quiet(n) && From(at, n)
    ensures !Exec(e, n, at, delay, h, fuel).Thrown?
    decreases n, 0
  {
    match n
    case Expr(kids, insts, _) =>
      if at.None? || at.value in DefsSeq(kids) {
        QuietExecSeq(e, kids, at, delay, h, fuel);
        QuietInsts(e, insts, ExecSeq(e, kids, at, delay, h, fuel).h);
      }
    case ExprStmt(x) => QuietExec(e, x, at, delay, h, fuel);
    case Block(stmts) => QuietExecSeq(e, stmts, at, delay, h, fuel);
    case If(c, t, f) =>
      if From(at, c) {
        QuietExec(e, c, at, delay, h, fuel);
        var o := Exec(e, c, at, delay, h, fuel);
        QuietExec(e, t, None, delay, o.h, fuel);
        QuietExec(e, f, None, delay, o.h, fuel);
      } else if From(at, t) {
        QuietExec(e, t, at, delay, h, fuel);
      } else {
        QuietExec(e, f, at, delay, h, fuel);
      }
    case Switch(v, vals, bodies) => QuietSwitch(e, n, at, delay, h, fuel);
    case Return(x) => if at.Some? || !delay { QuietExec(e, x, at, delay, h, fuel); }
    case Goto(_) =>
    case LabelDef(_) =>
    case Defer(u, d) => QuietDefer(e, n, at, delay, h, fuel);
    case Excep(_, _, _) => assert false;
  }

  lemma QuietSwitch(e: Env, n: Node, at: Option<Label>, delay: bool, h: Hist, fuel: nat)
    requires n.Switch? && Quiet(n) && From(at, n)
    ensures !Exec(e, n, at, delay, h, fuel).Thrown?
    decreases n, -1
  {
    var Switch(v, vals, bodies) := n;
    if From(at, v) {
      QuietExec(e, v, at, delay, h, fuel);
      var o := Exec(e, v, at, delay, h, fuel);
      if o.Normal? && v.Expr? {
        var k := Pick(vals, e.choose(v.value, o.h));
        if k < |bodies| {
          QuietBody(bodies, k);
          QuietExec(e, bodies[k], None, delay, o.h, fuel);
        }
      }
    } else {
      var k := Holder(bodies, at.value);
      QuietBody(bodies, k);
      QuietExec(e, bodies[k], at, delay, h, fuel);
    }
  }

  // Undefer code that does not throw is not tried again.
  lemma {:induction false} QuietDefer(e: Env, n: Node, at: Option<Label>, delay: bool, h: Hist, fuel: nat)
    requires n.Defer? && Quiet(n) && From(at, n)
    ensures !Exec(e, n, at, delay, h, fuel).Thrown?
    decreases n, -1, fuel
  {
    var Defer(u, d) := n;
    if From(at, u) {
      QuietExec(e, u, at, delay, h, fuel);
    } else {
      QuietExec(e, d, at, delay, h, fuel);
      var o := Exec(e, d, at, delay, h, fuel);
      if o.Normal? && fuel > 0 { QuietDefer(e, n, None, delay, o.h, fuel - 1); }
    }
  }

  lemma {:induction false} QuietExecSeq(e: Env, ns: seq<Node>, at: Option<Label>, delay: bool, h: Hist, fuel: nat)
    requires QuietSeq(ns) && FromSeq(at, ns)
    ensures !ExecSeq(e, ns, at, delay, h, fuel).Thrown?
    decreases ns, 1
  {
    if ns != [] {
      if From(at, ns[0]) {
        QuietExec(e, ns[0], at, delay, h, fuel);
        var o := Exec(e, ns[0], at, delay, h, fuel);
        if o.Normal? { QuietExecSeq(e, ns[1..], None, delay, o.h, fuel); }
      } else {
        QuietExecSeq(e, ns[1..], at, delay, h, fuel);
      }
    }
  }

  lemma {:induction false} QuietPart(e: Env, n: Node, at: Option<Label>, delay: bool, h: Hist, fuel: nat)
    requires Quiet(n) && From(at, n)
    ensures !RunPart(e, n, at, delay, h, fuel).0.Thrown?
    decreases fuel
  {
    hide Exec, Quiet, Defs;
    QuietExec(e, n, at, delay, h, fuel);
    var o := Exec(e, n, at, delay, h, fuel);
    if o.Jump? && fuel > 0 && o.l in Defs(n) { QuietPart(e, n, Some(o.l), delay, o.h, fuel - 1); }
  }

  // Catch code that cannot throw, and no return statement in it or in the body.
  predicate QuietTry(t: Node)
    requires t.Excep?
  {
    Quiet(t.onexc) && FirstReturn(t) == None
  }

  lemma QuietIsKept(e: Env, n: Node)
    requires Last(n).Excep? && QuietTry(Last(n))
    ensures KeptInRun(e, n)
  {
    hide RunPart, Quiet, FirstReturn, Reaches;
    var t := Last(n);
    forall h0, p, f | Comes(e, n, h0, p, f) && f.Normal?
      ensures Kept(t, p)
    {
      var b :| ComesTo(e, t.body, true, h0, b) && if b.Thrown? then ComesTo(e, t.onexc, true, b.h, p) else p == b;
      if b.Thrown? {
        var k: nat :| RunPart(e, t.onexc, None, true, b.h, k).0 == p;
        QuietPart(e, t.onexc, None, true, b.h, k);
      }
    }
  }

  // The code of such a function ends as its body is meant to, in every environment.
  lemma QuietCodeAsMeant(n: Node)
    requires EndsInTry(n) && SafeSwitches(n, false) && QuietTry(Last(n))
    ensures forall e: Env, how, h :: CodeEnds(e, Compile(n).blocks, how, h) <==> MeantToEnd(e, n, how, h)
  {
    hide Compile, SafeSwitches, CodeEnds, MeantToEnd, KeptInRun, EndsInTry, QuietTry;
    LastOfTry(n);
    forall e: Env, how, h
      ensures CodeEnds(e, Compile(n).blocks, how, h) <==> MeantToEnd(e, n, how, h)
    {
      QuietIsKept(e, n);
      CodeAsMeantExactly(e, n);
    }
  }
}
