/** The lowered defer statement does what its design says:
    "finish: try undefer, catch: checkdefer, goto finish". */
module DeferLoop {
  import opened Wrappers
  import opened StmtTree
  import opened LoweringWalk
  import opened LoweringSim
  import opened LoweringCorrect
  import opened BodyTail

  // The history after k rounds in which the undefer code threw and the checkdefer code completed;
  // none, if one of the first k rounds went otherwise.
  ghost function Rounds(e: Env, u: seq<Inst>, d: seq<Inst>, h: Hist, k: nat): Option<Hist>
    decreases k
  {
    if k == 0 then Some(h)
    else
      var before := Rounds(e, u, d, h, k - 1);
      if before.None? then None else Round(e, u, d, before.value)
  }

  ghost function Round(e: Env, u: seq<Inst>, d: seq<Inst>, h: Hist): Option<Hist> {
    var o := ExecInsts(e, u, h);
    if !o.Thrown? then None
    else
      var o2 := ExecInsts(e, d, o.h);
      if o2.Normal? then Some(o2.h) else None
  }

  // After k rounds the statement ends as o says: either the undefer code succeeds, or it throws
  // and the exception of the checkdefer code leaves the statement.
  ghost predicate EndsAfter(e: Env, u: seq<Inst>, d: seq<Inst>, h: Hist, k: nat, o: Out) {
    var r := Rounds(e, u, d, h, k);
    r.Some? &&
    var o1 := ExecInsts(e, u, r.value);
    if o1.Thrown? then o == ExecInsts(e, d, o1.h) && !o.Normal? else o == o1
  }

  lemma {:induction false} RoundFirst(e: Env, u: seq<Inst>, d: seq<Inst>, h: Hist, k: nat)
    ensures Rounds(e, u, d, h, k + 1)
         == if Round(e, u, d, h).None? then None else Rounds(e, u, d, Round(e, u, d, h).value, k)
    decreases k
  {
    if k == 0 {
      assert Rounds(e, u, d, h, 0) == Some(h);
    } else {
      RoundFirst(e, u, d, h, k - 1);
    }
  }

  // So it ends after some number of rounds, no more than `most`.
  ghost predicate EndsWithin(e: Env, u: seq<Inst>, d: seq<Inst>, h: Hist, most: nat, o: Out) {
    exists k: nat :: k <= most && EndsAfter(e, u, d, h, k, o)
  }

  // Nothing follows a round that went otherwise; after one that did not, the rest follows.
  lemma EndsFirst(e: Env, u: seq<Inst>, d: seq<Inst>, h: Hist, k: nat, o: Out)
    requires Ret !in d
    ensures var r := Round(e, u, d, h);
      EndsAfter(e, u, d, h, k, o) <==>
        if k == 0 then r.None? && (var o1 := ExecInsts(e, u, h); o == if o1.Thrown? then ExecInsts(e, d, o1.h) else o1)
        else r.Some? && EndsAfter(e, u, d, r.value, k - 1, o)
  {
    hide ExecInsts;
    if k > 0 {
      RoundFirst(e, u, d, h, k - 1);
    } else {
      var o1 := ExecInsts(e, u, h);
      PlainOutcome(e, d, o1.h);
      assert Rounds(e, u, d, h, 0) == Some(h);
    }
  }

  lemma {:induction false} DeferEndsWithin(e: Env, n: Node, delay: bool, h: Hist, fuel: nat)
    requires n.Defer? && PlainExpr(n.undefer) && PlainExpr(n.checkdefer)
    ensures var o := Exec(e, n, None, delay, h, fuel);
      !o.OutOfFuel? ==> EndsWithin(e, Flat(n.undefer), Flat(n.checkdefer), h, fuel, o)
    decreases fuel
  {
    hide Exec, ExecInsts, EndsAfter;
    var u, d := Flat(n.undefer), Flat(n.checkdefer);
    var o := Exec(e, n, None, delay, h, fuel);
    ExecDefer(e, n, delay, h, fuel);
    var r := Round(e, u, d, h);
    if r.None? {
      EndsFirst(e, u, d, h, 0, o);
    } else if fuel > 0 && !o.OutOfFuel? {
      DeferEndsWithin(e, n, delay, r.value, fuel - 1);
      var k: nat :| k <= fuel - 1 && EndsAfter(e, u, d, r.value, k, o);
      EndsFirst(e, u, d, h, k + 1, o);
      assert EndsAfter(e, u, d, h, k + 1, o);
    }
  }

  lemma {:induction false} DeferEndsAfter(e: Env, n: Node, delay: bool, h: Hist, fuel: nat, k: nat, o: Out)
    requires n.Defer? && PlainExpr(n.undefer) && PlainExpr(n.checkdefer)
    requires k <= fuel && EndsAfter(e, Flat(n.undefer), Flat(n.checkdefer), h, k, o)
    ensures Exec(e, n, None, delay, h, fuel) == o
    decreases k
  {
    hide Exec, ExecInsts, EndsAfter;
    var u, d := Flat(n.undefer), Flat(n.checkdefer);
    ExecDefer(e, n, delay, h, fuel);
    EndsFirst(e, u, d, h, k, o);
    if k > 0 { DeferEndsAfter(e, n, delay, Round(e, u, d, h).value, fuel - 1, k - 1, o); }
  }

  // A defer statement with fuel for that many rounds ends with o just when it ends so after some
  // number of rounds: the checkdefer code has then completed exactly that many times.
  lemma DeferRounds(e: Env, n: Node, delay: bool, h: Hist, fuel: nat, o: Out)
    requires n.Defer? && PlainExpr(n.undefer) && PlainExpr(n.checkdefer) && !o.OutOfFuel?
    ensures Exec(e, n, None, delay, h, fuel) == o <==> EndsWithin(e, Flat(n.undefer), Flat(n.checkdefer), h, fuel, o)
  {
    hide Exec, EndsAfter;
    var u, d := Flat(n.undefer), Flat(n.checkdefer);
    DeferEndsWithin(e, n, delay, h, fuel);
    if EndsWithin(e, u, d, h, fuel, o) {
      var k: nat :| k <= fuel && EndsAfter(e, u, d, h, k, o);
      DeferEndsAfter(e, n, delay, h, fuel, k, o);
    }
  }

  // ----- the code -----

  ghost predicate EndsSometime(e: Env, u: seq<Inst>, d: seq<Inst>, h: Hist, o: Out) {
    exists k: nat :: EndsAfter(e, u, d, h, k, o)
  }

  // Wherever it stands, a defer statement comes to what it comes to after some number of rounds.
  lemma DeferComesTo(e: Env, n: Node, delay: bool, h: Hist, o: Out)
    requires n.Defer? && PlainExpr(n.undefer) && PlainExpr(n.checkdefer) && !o.OutOfFuel?
    ensures ComesTo(e, n, delay, h, o) <==> EndsSometime(e, Flat(n.undefer), Flat(n.checkdefer), h, o)
  {
    hide Exec, EndsAfter;
    var u, d := Flat(n.undefer), Flat(n.checkdefer);
    if ComesTo(e, n, delay, h, o) {
      var fuel: nat :| RunPart(e, n, None, delay, h, fuel).0 == o;
      DeferOutcome(e, n, delay, h, fuel);
      DeferEndsWithin(e, n, delay, h, fuel);
    }
    if EndsSometime(e, u, d, h, o) {
      var k: nat :| EndsAfter(e, u, d, h, k, o);
      DeferEndsAfter(e, n, delay, h, k, k, o);
      DeferOutcome(e, n, delay, h, k);
      assert RunPart(e, n, None, delay, h, k).0 == o;
    }
  }

  function OutOf(how: Ending, h: Hist): Out {
    if how == FellOff then Normal(h) else Thrown(h)
  }

  // From history h0 the defer statement d ends the function: after some number of failed rounds the
  // undefer code succeeds, and control falls off the end, or the checkdefer code throws.
  ghost predicate DeferEnds(e: Env, d: Node, h0: Hist, how: Ending, h: Hist)
    requires d.Defer?
  {
    how != Left && EndsSometime(e, Flat(d.undefer), Flat(d.checkdefer), h0, OutOf(how, h))
  }

  lemma DeferEndsFrom(e: Env, d: Node, h0: Hist, how: Ending, h: Hist)
    requires d.Defer? && PlainExpr(d.undefer) && PlainExpr(d.checkdefer)
    ensures EndsFrom(e, d, h0, how, h) <==> DeferEnds(e, d, h0, how, h)
  {
    hide ComesTo, EndsSometime;
    DeferComesTo(e, d, false, h0, OutOf(how, h));
    if EndsFrom(e, d, h0, how, h) {
      var o :| ComesTo(e, d, false, h0, o) && Ends(o) == Done(how, h);
      DeferOut(e, d, h0, o);
    }
  }

  lemma DeferOut(e: Env, d: Node, h0: Hist, o: Out)
    requires d.Defer? && PlainExpr(d.undefer) && PlainExpr(d.checkdefer) && ComesTo(e, d, false, h0, o)
    ensures o.Normal? || o.Thrown?
  {
    hide Exec;
    var fuel: nat :| RunPart(e, d, None, false, h0, fuel).0 == o;
    DeferOutcome(e, d, false, h0, fuel);
  }

  // A function body that ends in a defer statement: its code ends just when the body ends before
  // control reaches that statement, or control reaches it with some history from which it ends.
  lemma DeferCode(e: Env, n: Node, how: Ending, h: Hist)
    requires Body(n) && SafeSwitches(n, false) && Last(n).Defer?
    ensures CodeEnds(e, Compile(n).blocks, how, h)
      <==> LeadEnds(e, n, how, h) || exists h0 :: Reaches(e, n, h0) && DeferEnds(e, Last(n), h0, how, h)
  {
    hide Compile, SafeSwitches, LeadEnds, CodeEnds, TreeEnds, Run, Reaches, EndsFrom, DeferEnds;
    LoweringIsCorrect(e, n);
    assert TreeEnds(e, n, how, h) <==> CodeEnds(e, Compile(n).blocks, how, h);
    DeferLast(n);
    EndsByLast(e, n, how, h);
    if h0 :| Reaches(e, n, h0) && EndsFrom(e, Last(n), h0, how, h) { DeferEndsFrom(e, Last(n), h0, how, h); }
    if h0 :| Reaches(e, n, h0) && DeferEnds(e, Last(n), h0, how, h) { DeferEndsFrom(e, Last(n), h0, how, h); }
  }

  lemma DeferLast(n: Node)
    requires Body(n) && Last(n).Defer?
    ensures Apart(n) && PlainExpr(Last(n).undefer) && PlainExpr(Last(n).checkdefer)
  {
    var q := WfLast(n, Start, false, false, true);
    SplitLabels(n);
    SimpleNoGotos(Last(n).undefer);
    SimpleNoGotos(Last(n).checkdefer);
    SimpleHasNoLabels(Last(n).undefer);
    SimpleHasNoLabels(Last(n).checkdefer);
  }

  lemma {:induction false} SimpleNoGotos(n: Node)
    requires Simple(n)
    ensures Gotos(n) == {}
    decreases n, 0
  {
    SimpleNoGotosSeq(n.kids);
  }

  lemma {:induction false} SimpleNoGotosSeq(ns: seq<Node>)
    requires SimpleSeq(ns)
    ensures GotosSeq(ns) == {}
    decreases ns, 1
  {
    if ns != [] {
      SimpleNoGotos(ns[0]);
      SimpleNoGotosSeq(ns[1..]);
    }
  }
}
