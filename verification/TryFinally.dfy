/** What the code of a try statement does, from beginning to end: the body, then the catch code if the
    body threw, then the finally code once, then a return if the statement holds any. */
module TryFinally {
  import opened Wrappers
  import opened StmtTree
  import opened LoweringSim
  import opened LoweringCorrect
  import opened BodyTail

  // Gotos that start in a part stay in it.
  predicate Sealed(t: Node)
    requires t.Excep?
  {
    Gotos(t.body) <= Defs(t.body) && Gotos(t.onexc) <= Defs(t.onexc) && Gotos(t.fin) <= Defs(t.fin)
  }

  // A function body that ends in a sealed try statement, into which no goto leads.
  ghost predicate EndsInTry(n: Node) {
    Body(n) && Last(n).Excep? && Sealed(Last(n)) && GotosSeq(Lead(n)) !! Defs(Last(n))
  }

  ghost predicate Whole(t: Node) {
    t.Excep? && Sealed(t) && exists p :: Wf(t, p, false, false, true)
  }

  lemma LastIsWhole(n: Node)
    requires EndsInTry(n)
    ensures Whole(Last(n)) && Apart(n)
  {
    hide Wf;
    var q := WfLast(n, Start, false, false, true);
    SplitLabels(n);
  }

  // How the function ends, once the finally code of the try statement t has come to o. Whatever the
  // body and the catch code came to, the first return statement in them is carried out.
  ghost function EndOf(e: Env, t: Node, o: Out): Final
    requires t.Excep?
  {
    if o.Normal? && FirstReturn(t).Some? then Ends(ExecInsts(e, Flat(FirstReturn(t).value), o.h)) else Ends(o)
  }

  ghost function ThenFinally(e: Env, t: Node, r: (Out, nat)): Final
    requires t.Excep?
  {
    if r.0.OutOfFuel? then Unfinished(r.0.h) else EndOf(e, t, RunPart(e, t.fin, None, false, r.0.h, r.1).0)
  }

  // The try statement, part by part.
  ghost function TryRun(e: Env, t: Node, h: Hist, fuel: nat): Final
    requires t.Excep?
  {
    AfterBody(e, t, RunPart(e, t.body, None, true, h, fuel))
  }

  ghost function AfterBody(e: Env, t: Node, r: (Out, nat)): Final
    requires t.Excep?
  {
    if r.0.Thrown? then ThenFinally(e, t, RunPart(e, t.onexc, None, true, r.0.h, r.1)) else ThenFinally(e, t, r)
  }

  // ----- a run of the whole statement is a run of its parts -----

  // From inside a part the statement goes on as from that part.
  lemma PartOf(e: Env, t: Node, at: Option<Label>, h: Hist, fuel: nat)
    requires Whole(t) && From(at, t)
    ensures var o := Exec(e, t, at, false, h, fuel);
      if From(at, t.body) then
        var b := Exec(e, t.body, at, true, h, fuel);
        o == ExecFinally(e, t, if b.Thrown? then Exec(e, t.onexc, None, true, b.h, fuel) else b, fuel)
      else if From(at, t.onexc) then o == ExecFinally(e, t, Exec(e, t.onexc, at, true, h, fuel), fuel)
      else From(at, t.fin) && o == AfterFinally(e, t, None, Exec(e, t.fin, at, false, h, fuel))
  {
  }

  lemma Labels(t: Node)
    requires Whole(t)
    ensures Defs(t) == Defs(t.body) + Defs(t.onexc) + Defs(t.fin)
    ensures Defs(t.body) !! Defs(t.onexc) && Defs(t.body) !! Defs(t.fin) && Defs(t.onexc) !! Defs(t.fin)
  {
  }

  ghost predicate WaitsFor(t: Node, w: Option<seq<Inst>>)
    requires t.Excep?
  {
    w.Some? ==> FirstReturn(t).Some? && w.value == Flat(FirstReturn(t).value)
  }

  // A goto out of a part is taken inside it.
  lemma JumpStays(e: Env, t: Node, part: Node, at: Option<Label>, delay: bool, h: Hist, fuel: nat)
    requires Whole(t) && part in {t.body, t.onexc, t.fin} && From(at, part)
    ensures var o := Exec(e, part, at, delay, h, fuel); o.Jump? ==> o.l in Defs(part) && o.l in Defs(t)
  {
    hide Exec, Defs, Gotos, Wf;
    JumpsAreGotos(e, part, at, delay, h, fuel);
    Labels(t);
  }

  lemma FinallyRuns(e: Env, t: Node, w: Option<seq<Inst>>, at: Option<Label>, h: Hist, fuel: nat)
    requires Whole(t) && From(at, t.fin) && WaitsFor(t, w)
    ensures Continue(e, t, AfterFinally(e, t, w, Exec(e, t.fin, at, false, h, fuel)), fuel)
         == EndOf(e, t, RunPart(e, t.fin, at, false, h, fuel).0)
    decreases fuel
  {
    hide Exec, Run, Wf, Defs;
    var o := Exec(e, t.fin, at, false, h, fuel);
    if o.Normal? && FirstReturn(t).Some? {
      InstsOutcome(e, Flat(FirstReturn(t).value), o.h);
    } else if o.Jump? {
      JumpStays(e, t, t.fin, at, false, h, fuel);
      if fuel > 0 {
        Labels(t);
        RunContinues(e, t, Some(o.l), o.h, fuel - 1);
        PartOf(e, t, Some(o.l), o.h, fuel - 1);
        FinallyRuns(e, t, None, Some(o.l), o.h, fuel - 1);
      }
    }
  }

  // The end of the protected part leads to the finally code.
  lemma ProtectedEnds(e: Env, t: Node, o: Out, fuel: nat)
    requires Whole(t) && !o.Jump? && !o.Returned?
    requires o.Returning? ==> WaitsFor(t, Some(o.ops))
    ensures Continue(e, t, ExecFinally(e, t, o, fuel), fuel) == ThenFinally(e, t, (o, fuel))
  {
    hide Exec, Run, Wf, Defs, RunPart, EndOf;
    if !o.OutOfFuel? {
      FinallyRuns(e, t, if o.Returning? then Some(o.ops) else None, None, o.h, fuel);
    }
  }

  lemma CatchRuns(e: Env, t: Node, at: Option<Label>, h: Hist, fuel: nat)
    requires Whole(t) && From(at, t.onexc)
    ensures Continue(e, t, ExecFinally(e, t, Exec(e, t.onexc, at, true, h, fuel), fuel), fuel)
         == ThenFinally(e, t, RunPart(e, t.onexc, at, true, h, fuel))
    decreases fuel
  {
    hide Exec, Run, Wf, Defs, ThenFinally;
    var o := Exec(e, t.onexc, at, true, h, fuel);
    PartReturns(e, t, t.onexc, at, h, fuel);
    if o.Jump? {
      JumpStays(e, t, t.onexc, at, true, h, fuel);
      if fuel > 0 {
        Labels(t);
        RunContinues(e, t, Some(o.l), o.h, fuel - 1);
        PartOf(e, t, Some(o.l), o.h, fuel - 1);
        CatchRuns(e, t, Some(o.l), o.h, fuel - 1);
      } else {
        NoFuel(e, t, o.h);
      }
    } else {
      ProtectedEnds(e, t, o, fuel);
    }
  }

  // The one return that can be waiting is the first.
  lemma PartReturns(e: Env, t: Node, part: Node, at: Option<Label>, h: Hist, fuel: nat)
    requires Whole(t) && part in {t.body, t.onexc} && From(at, part)
    ensures var o := Exec(e, part, at, true, h, fuel);
      !o.Returned? && (o.Returning? ==> WaitsFor(t, Some(o.ops)))
  {
    hide Exec, Wf, Defs, Flat;
    var p :| Wf(t, p, false, false, true);
    TryReturns(e, t, part, at, p, if part == t.body then p else Start, h, fuel);
  }

  lemma NoFuel(e: Env, t: Node, h: Hist)
    requires t.Excep?
    ensures ThenFinally(e, t, (OutOfFuel(h), 0)) == Unfinished(h)
  {
  }

  lemma BodyRuns(e: Env, t: Node, at: Option<Label>, h: Hist, fuel: nat)
    requires Whole(t) && From(at, t.body) && From(at, t)
    ensures Run(e, t, at, h, fuel) == AfterBody(e, t, RunPart(e, t.body, at, true, h, fuel))
    decreases fuel
  {
    hide Exec, Run, Wf, Defs, ThenFinally, ExecFinally;
    var o := Exec(e, t.body, at, true, h, fuel);
    RunContinues(e, t, at, h, fuel);
    PartOf(e, t, at, h, fuel);
    PartReturns(e, t, t.body, at, h, fuel);
    if o.Jump? {
      JumpStays(e, t, t.body, at, true, h, fuel);
      JumpPasses(e, t, o, fuel);
      if fuel > 0 {
        BodyRuns(e, t, Some(o.l), o.h, fuel - 1);
      } else {
        NoFuel(e, t, o.h);
      }
    } else if o.Thrown? {
      CatchRuns(e, t, None, o.h, fuel);
    } else {
      ProtectedEnds(e, t, o, fuel);
    }
  }

  lemma JumpPasses(e: Env, t: Node, o: Out, fuel: nat)
    requires t.Excep? && o.Jump?
    ensures ExecFinally(e, t, o, fuel) == o
  {
  }

  // However a function body runs that ends in a try statement: first what comes before it; then, if
  // control gets there, the parts of the statement in order, the catch code just when the body threw,
  // the finally code once, and only then a return.
  lemma TryInOrder(e: Env, n: Node, h: Hist, fuel: nat)
    requires EndsInTry(n)
    ensures var r := RunPart(e, Block(Lead(n)), None, false, h, fuel);
      Run(e, n, None, h, fuel) == if r.0.Normal? then TryRun(e, Last(n), r.0.h, r.1) else Ends(r.0)
  {
    hide Run, RunPart, Body, TryRun;
    LastIsWhole(n);
    RunLead(e, n, None, h, fuel);
    var r := RunPart(e, Block(Lead(n)), None, false, h, fuel);
    if r.0.Normal? { TryRuns(e, Last(n), r.0.h, r.1); }
  }

  // ----- the theorem, about the code -----

  // The protected part, body and perhaps catch code, comes to p.
  ghost predicate Protected(e: Env, t: Node, h: Hist, p: Out)
    requires t.Excep?
  {
    exists b :: ComesTo(e, t.body, true, h, b) && if b.Thrown? then ComesTo(e, t.onexc, true, b.h, p) else p == b
  }

  // From history h, the protected part of the try statement comes to p, and its finally code to f.
  ghost predicate PartsCome(e: Env, t: Node, h: Hist, p: Out, f: Out)
    requires t.Excep?
  {
    Protected(e, t, h, p) && ComesTo(e, t.fin, false, p.h, f)
  }

  // So it is in the run from the entry, where control reaches the statement with history h.
  ghost predicate Comes(e: Env, n: Node, h: Hist, p: Out, f: Out)
    requires Last(n).Excep?
  {
    Reaches(e, n, h) && PartsCome(e, Last(n), h, p, f)
  }

  ghost predicate TryEnds(e: Env, n: Node, how: Ending, h: Hist)
    requires Last(n).Excep?
  {
    LeadEnds(e, n, how, h) || exists h0, p, f :: Comes(e, n, h0, p, f) && EndOf(e, Last(n), f) == Done(how, h)
  }

  // With enough fuel, the parts run as they come.
  lemma PartsFit(e: Env, t: Node, h: Hist, p: Out, f: Out) returns (fuel: nat)
    requires t.Excep? && PartsCome(e, t, h, p, f)
    ensures TryRun(e, t, h, fuel) == EndOf(e, t, f)
  {
    hide RunPart, EndOf;
    var b :| ComesTo(e, t.body, true, h, b) && if b.Thrown? then ComesTo(e, t.onexc, true, b.h, p) else p == b;
    var k1: nat :| RunPart(e, t.body, None, true, h, k1).0 == b;
    var k3: nat :| RunPart(e, t.fin, None, false, p.h, k3).0 == f;
    var k2: nat := 0;
    if b.Thrown? {
      k2 :| RunPart(e, t.onexc, None, true, b.h, k2).0 == p;
    }
    fuel := k1 + (k2 + k3);
    PartMore(e, t.body, None, true, h, k1, k2 + k3);
    var r := RunPart(e, t.body, None, true, h, fuel);
    if b.Thrown? {
      PartMore(e, t.onexc, None, true, b.h, k2, r.1 - k2);
      r := RunPart(e, t.onexc, None, true, b.h, r.1);
    }
    PartMore(e, t.fin, None, false, p.h, k3, r.1 - k3);
  }

  lemma PartsOf(e: Env, t: Node, h: Hist, fuel: nat) returns (p: Out, f: Out)
    requires Whole(t) && TryRun(e, t, h, fuel).Done?
    ensures PartsCome(e, t, h, p, f) && TryRun(e, t, h, fuel) == EndOf(e, t, f)
  {
    hide RunPart;
    var r := RunPart(e, t.body, None, true, h, fuel);
    var b := r.0;
    if b.Thrown? { r := RunPart(e, t.onexc, None, true, b.h, r.1); }
    p := r.0;
    f := RunPart(e, t.fin, None, false, p.h, r.1).0;
    assert ComesTo(e, t.body, true, h, b);
    assert b.Thrown? ==> ComesTo(e, t.onexc, true, b.h, p);
    assert ComesTo(e, t.fin, false, p.h, f);
  }

  // A try statement ends the function just when its parts do.
  lemma TryEndsFrom(e: Env, t: Node, h0: Hist, how: Ending, h: Hist)
    requires t.Excep? && Whole(t)
    ensures EndsFrom(e, t, h0, how, h) <==> exists p, f :: PartsCome(e, t, h0, p, f) && EndOf(e, t, f) == Done(how, h)
  {
    hide RunPart, Whole, TryRun, EndOf, PartsCome;
    if EndsFrom(e, t, h0, how, h) {
      var o :| ComesTo(e, t, false, h0, o) && Ends(o) == Done(how, h);
      var k: nat :| RunPart(e, t, None, false, h0, k).0 == o;
      TryRuns(e, t, h0, k);
      var p, f := PartsOf(e, t, h0, k);
    }
    if p, f :| PartsCome(e, t, h0, p, f) && EndOf(e, t, f) == Done(how, h) {
      var k := PartsFit(e, t, h0, p, f);
      TryRuns(e, t, h0, k);
      ComesOut(e, t, false, h0, k);
    }
  }

  lemma TryRuns(e: Env, t: Node, h: Hist, fuel: nat)
    requires t.Excep? && Whole(t)
    ensures Ends(RunPart(e, t, None, false, h, fuel).0) == TryRun(e, t, h, fuel)
  {
    hide Run, RunPart;
    RunIsPart(e, t, None, h, fuel);
    BodyRuns(e, t, None, h, fuel);
  }

  // The lowered code of a function body that ends in a try statement ends some way, having done h,
  // just when its parts do one after the other: what comes before the statement, its body, the catch
  // code just when the body has thrown, the finally code exactly once, and whatever returns after it.
  lemma TryCodeInOrder(e: Env, n: Node, how: Ending, h: Hist)
    requires EndsInTry(n) && SafeSwitches(n, false)
    ensures CodeEnds(e, Compile(n).blocks, how, h) <==> TryEnds(e, n, how, h)
  {
    hide Compile, SafeSwitches, LeadEnds, CodeEnds, TreeEnds, Run, Reaches, PartsCome, EndsFrom, EndOf, Whole;
    LoweringIsCorrect(e, n);
    assert TreeEnds(e, n, how, h) <==> CodeEnds(e, Compile(n).blocks, how, h);
    LastIsWhole(n);
    EndsByLast(e, n, how, h);
    if LastEnds(e, n, how, h) {
      var h0 :| Reaches(e, n, h0) && EndsFrom(e, Last(n), h0, how, h);
      TryEndsFrom(e, Last(n), h0, how, h);
      var p, f :| PartsCome(e, Last(n), h0, p, f) && EndOf(e, Last(n), f) == Done(how, h);
      assert Comes(e, n, h0, p, f);
    }
    if h0, p, f :| Comes(e, n, h0, p, f) && EndOf(e, Last(n), f) == Done(how, h) {
      TryEndsFrom(e, Last(n), h0, how, h);
    }
  }
}
