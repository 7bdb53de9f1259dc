/** A function body as what leads up to its last statement, and that statement. Gotos apart, a run of
    the body is a run of the one and then of the other. */
module BodyTail {
  import opened Wrappers
  import opened StmtTree
  import opened LoweringCorrect

  // The last statement, looked for inside blocks.
  function Last(n: Node): Node {
    if n.Block? && n.stmts != [] then Last(n.stmts[|n.stmts| - 1]) else n
  }

  // The statements before it, in order.
  function Lead(n: Node): seq<Node> {
    if n.Block? && n.stmts != [] then n.stmts[..|n.stmts| - 1] + Lead(n.stmts[|n.stmts| - 1]) else []
  }

  // No goto crosses between the two.
  ghost predicate Apart(n: Node) {
    GotosSeq(Lead(n)) <= DefsSeq(Lead(n)) && Gotos(Last(n)) <= Defs(Last(n)) && DefsSeq(Lead(n)) !! Defs(Last(n))
  }

  lemma {:induction false} AppendLabels(ms: seq<Node>, ns: seq<Node>)
    ensures DefsSeq(ms + ns) == DefsSeq(ms) + DefsSeq(ns) && GotosSeq(ms + ns) == GotosSeq(ms) + GotosSeq(ns)
    decreases ms
  {
    if ms == [] {
      assert ms + ns == ns;
    } else {
      assert (ms + ns)[1..] == ms[1..] + ns;
      AppendLabels(ms[1..], ns);
    }
  }

  lemma OneNode(n: Node)
    ensures DefsSeq([n]) == Defs(n) && GotosSeq([n]) == Gotos(n)
  {
    assert [n][1..] == [];
  }

  lemma {:induction false} SplitLabels(n: Node)
    ensures Defs(n) == DefsSeq(Lead(n)) + Defs(Last(n)) && Gotos(n) == GotosSeq(Lead(n)) + Gotos(Last(n))
    decreases n
  {
    if n.Block? && n.stmts != [] {
      var front, x := n.stmts[..|n.stmts| - 1], n.stmts[|n.stmts| - 1];
      assert n.stmts == front + [x];
      AppendLabels(front, [x]);
      OneNode(x);
      SplitLabels(x);
      AppendLabels(front, Lead(x));
    }
  }

  lemma {:induction false} WfLast(n: Node, p: Pos, pad: bool, fin: bool, tail: bool) returns (q: Pos)
    requires Wf(n, p, pad, fin, tail)
    ensures Wf(Last(n), q, pad, fin, tail) && DefsSeq(Lead(n)) !! Defs(Last(n))
    decreases n
  {
    q := p;
    if n.Block? && n.stmts != [] {
      var front, x := n.stmts[..|n.stmts| - 1], n.stmts[|n.stmts| - 1];
      q := WfSeqLast(n.stmts, p, pad, fin, tail);
      q := WfLast(x, q, pad, fin, tail);
      AppendLabels(front, Lead(x));
      SplitLabels(x);
    }
  }

  lemma {:induction false} WfSeqLast(ns: seq<Node>, p: Pos, pad: bool, fin: bool, tail: bool) returns (q: Pos)
    requires ns != [] && WfSeq(ns, p, pad, fin, tail)
    ensures Wf(ns[|ns| - 1], q, pad, fin, tail) && DefsSeq(ns[..|ns| - 1]) !! Defs(ns[|ns| - 1])
    decreases ns
  {
    if |ns| == 1 {
      q := p;
    } else {
      var x := ns[|ns| - 1];
      q := WfSeqLast(ns[1..], End(ns[0], p, pad), pad, fin, tail);
      assert ns[1..][..|ns| - 2] == ns[..|ns| - 1][1..];
      assert ns[1..] == ns[1..][..|ns| - 2] + [x];
      AppendLabels(ns[1..][..|ns| - 2], [x]);
      OneNode(x);
    }
  }

  // ----- one stretch of a run -----

  lemma {:induction false} ExecAppend(e: Env, ms: seq<Node>, ns: seq<Node>, at: Option<Label>, delay: bool, h: Hist,
                                      fuel: nat)
    requires FromSeq(at, ms + ns)
    ensures FromSeq(at, ms) || FromSeq(at, ns)
    ensures ExecSeq(e, ms + ns, at, delay, h, fuel) ==
            if FromSeq(at, ms) then
              var o := ExecSeq(e, ms, at, delay, h, fuel);
              if o.Normal? then ExecSeq(e, ns, None, delay, o.h, fuel) else o
            else ExecSeq(e, ns, at, delay, h, fuel)
    decreases ms
  {
    AppendLabels(ms, ns);
    if ms == [] {
      assert ms + ns == ns;
    } else {
      hide Exec;
      assert (ms + ns)[1..] == ms[1..] + ns;
      AppendLabels(ms[1..], ns);
      if From(at, ms[0]) {
        var o := Exec(e, ms[0], at, delay, h, fuel);
        if o.Normal? { ExecAppend(e, ms[1..], ns, None, delay, o.h, fuel); }
      } else {
        ExecAppend(e, ms[1..], ns, at, delay, h, fuel);
      }
    }
  }

  // What comes of n, when what leads up to its last statement has come to o.
  ghost function AfterLead(e: Env, n: Node, delay: bool, o: Out, fuel: nat): Out {
    if o.Normal? then Exec(e, Last(n), None, delay, o.h, fuel) else o
  }

  lemma {:induction false} ExecLast(e: Env, n: Node, at: Option<Label>, delay: bool, h: Hist, fuel: nat)
    requires From(at, n)
    ensures FromSeq(at, Lead(n)) || From(at, Last(n))
    ensures Exec(e, n, at, delay, h, fuel) ==
            if FromSeq(at, Lead(n)) then AfterLead(e, n, delay, ExecSeq(e, Lead(n), at, delay, h, fuel), fuel)
            else Exec(e, Last(n), at, delay, h, fuel)
    decreases n
  {
    SplitLabels(n);
    if n.Block? && n.stmts != [] {
      var front, x := n.stmts[..|n.stmts| - 1], n.stmts[|n.stmts| - 1];
      assert n.stmts == front + [x];
      ExecOne(e, x, at, delay, h, fuel);
      ExecAppend(e, front, [x], at, delay, h, fuel);
      AppendLabels(front, Lead(x));
      OneNode(x);
      SplitLabels(x);
      if FromSeq(at, front) {
        ExecAppend(e, front, Lead(x), at, delay, h, fuel);
        var o := ExecSeq(e, front, at, delay, h, fuel);
        if o.Normal? {
          ExecOne(e, x, None, delay, o.h, fuel);
          ExecLast(e, x, None, delay, o.h, fuel);
        }
      } else {
        ExecLast(e, x, at, delay, h, fuel);
        if FromSeq(at, Lead(x)) { ExecAppend(e, front, Lead(x), at, delay, h, fuel); }
      }
    }
  }

  lemma ExecOne(e: Env, n: Node, at: Option<Label>, delay: bool, h: Hist, fuel: nat)
    ensures FromSeq(at, [n]) <==> From(at, n)
    ensures From(at, n) ==> ExecSeq(e, [n], at, delay, h, fuel) == Exec(e, n, at, delay, h, fuel)
  {
    hide Exec;
    OneNode(n);
    if From(at, n) {
      var o := Exec(e, n, at, delay, h, fuel);
      assert ExecSeq(e, [n], at, delay, h, fuel) == if o.Normal? then ExecSeq(e, [n][1..], None, delay, o.h, fuel)
        else o;
    }
  }

  // ----- a whole run -----

  // How a function ends, when the last stretch of its run has come to o.
  ghost function Ends(o: Out): Final {
    match o
    case Normal(h) => Done(FellOff, h)
    case Returned(h) => Done(Left, h)
    case Returning(_, h) => Done(Left, h)
    case Thrown(h) => Done(Unwound, h)
    case OutOfFuel(h) => Unfinished(h)
    case Jump(_, h) => Unfinished(h)
  }

  // A complete run of one part by itself, its gotos followed; gives the fuel left too.
  ghost function RunPart(e: Env, n: Node, at: Option<Label>, delay: bool, h: Hist, fuel: nat): (Out, nat)
    requires From(at, n)
    decreases fuel
  {
    var o := Exec(e, n, at, delay, h, fuel);
    if !o.Jump? then (o, fuel)
    else if fuel == 0 || o.l !in Defs(n) then (OutOfFuel(o.h), 0)
    else RunPart(e, n, Some(o.l), delay, o.h, fuel - 1)
  }

  lemma {:induction false} RunIsPart(e: Env, n: Node, at: Option<Label>, h: Hist, fuel: nat)
    requires From(at, n)
    ensures Run(e, n, at, h, fuel) == Ends(RunPart(e, n, at, false, h, fuel).0)
    decreases fuel
  {
    hide Exec, Defs;
    var o := Exec(e, n, at, false, h, fuel);
    if o.Jump? && fuel > 0 && o.l in Defs(n) { RunIsPart(e, n, Some(o.l), o.h, fuel - 1); }
  }

  // What remains of a run of n, when the current stretch has come to o.
  ghost function Continue(e: Env, n: Node, o: Out, fuel: nat): Final {
    if o.Jump? && fuel > 0 && o.l in Defs(n) then Run(e, n, Some(o.l), o.h, fuel - 1) else Ends(o)
  }

  lemma RunContinues(e: Env, n: Node, at: Option<Label>, h: Hist, fuel: nat)
    requires From(at, n)
    ensures Run(e, n, at, h, fuel) == Continue(e, n, Exec(e, n, at, false, h, fuel), fuel)
  {
  }

  lemma RunLast(e: Env, n: Node, at: Option<Label>, h: Hist, fuel: nat)
    requires Apart(n) && From(at, Last(n))
    ensures Continue(e, n, Exec(e, Last(n), at, false, h, fuel), fuel)
      == Ends(RunPart(e, Last(n), at, false, h, fuel).0)
    decreases fuel
  {
    hide Exec, Run, Defs, DefsSeq, Gotos, GotosSeq;
    SplitLabels(n);
    var o := Exec(e, Last(n), at, false, h, fuel);
    JumpsAreGotos(e, Last(n), at, false, h, fuel);
    if o.Jump? && fuel > 0 {
      RunContinues(e, n, Some(o.l), o.h, fuel - 1);
      ExecLast(e, n, Some(o.l), false, o.h, fuel - 1);
      RunLast(e, n, Some(o.l), o.h, fuel - 1);
    }
  }

  // The run of what leads up to the last statement, then of that statement.
  ghost function LeadThenLast(e: Env, n: Node, r: (Out, nat)): Final {
    if r.0.Normal? then Ends(RunPart(e, Last(n), None, false, r.0.h, r.1).0) else Ends(r.0)
  }

  lemma RunLead(e: Env, n: Node, at: Option<Label>, h: Hist, fuel: nat)
    requires Apart(n) && From(at, n) && From(at, Block(Lead(n)))
    ensures Run(e, n, at, h, fuel) == LeadThenLast(e, n, RunPart(e, Block(Lead(n)), at, false, h, fuel))
    decreases fuel
  {
    hide Exec, Run, Defs, DefsSeq, Gotos, GotosSeq;
    var lead := Block(Lead(n));
    LeadBlock(e, n, at, false, h, fuel);
    SplitLabels(n);
    var o := Exec(e, lead, at, false, h, fuel);
    RunContinues(e, n, at, h, fuel);
    ExecLast(e, n, at, false, h, fuel);
    JumpsAreGotos(e, lead, at, false, h, fuel);
    if o.Normal? {
      RunLast(e, n, None, o.h, fuel);
    } else if o.Jump? && fuel > 0 {
      RunLead(e, n, Some(o.l), o.h, fuel - 1);
    }
  }

  lemma LeadBlock(e: Env, n: Node, at: Option<Label>, delay: bool, h: Hist, fuel: nat)
    ensures Defs(Block(Lead(n))) == DefsSeq(Lead(n)) && Gotos(Block(Lead(n))) == GotosSeq(Lead(n))
    ensures FromSeq(at, Lead(n)) ==>
      Exec(e, Block(Lead(n)), at, delay, h, fuel) == ExecSeq(e, Lead(n), at, delay, h, fuel)
  {
  }

  // ----- more fuel changes nothing -----

  lemma {:induction false} ExecMore(e: Env, n: Node, at: Option<Label>, delay: bool, h: Hist, fuel: nat, more: nat)
    requires From(at, n) && !Exec(e, n, at, delay, h, fuel).OutOfFuel?
    ensures Exec(e, n, at, delay, h, fuel + more) == Exec(e, n, at, delay, h, fuel)
    decreases fuel, n, 0
  {
    match n
    case Expr(kids, insts, _) =>
      if at.None? || at.value in DefsSeq(kids) { SeqMore(e, kids, at, delay, h, fuel, more); }
    case ExprStmt(x) => ExecMore(e, x, at, delay, h, fuel, more);
    case Block(stmts) => SeqMore(e, stmts, at, delay, h, fuel, more);
    case If(c, t, f) =>
      if From(at, c) {
        ExecMore(e, c, at, delay, h, fuel, more);
        var o := Exec(e, c, at, delay, h, fuel);
        if o.Normal? && c.Expr? {
          if e.test(c.value, o.h) { ExecMore(e, t, None, delay, o.h, fuel, more); }
          else { ExecMore(e, f, None, delay, o.h, fuel, more); }
        }
      } else if From(at, t) {
        ExecMore(e, t, at, delay, h, fuel, more);
      } else {
        ExecMore(e, f, at, delay, h, fuel, more);
      }
    case Switch(v, vals, bodies) =>
      if From(at, v) {
        ExecMore(e, v, at, delay, h, fuel, more);
        var o := Exec(e, v, at, delay, h, fuel);
        if o.Normal? && v.Expr? {
          var k := Pick(vals, e.choose(v.value, o.h));
          if k < |bodies| { ExecMore(e, bodies[k], None, delay, o.h, fuel, more); }
        }
      } else {
        ExecMore(e, bodies[Holder(bodies, at.value)], at, delay, h, fuel, more);
      }
    case Return(x) => if at.Some? || !delay { ExecMore(e, x, at, delay, h, fuel, more); }
    case Goto(_) =>
    case LabelDef(_) =>
    case Defer(u, d) => DeferMore(e, n, at, delay, h, fuel, more);
    case Excep(b, c, f) => ExcepMore(e, n, at, delay, h, fuel, more);
  }

  lemma {:induction false} SeqMore(e: Env, ns: seq<Node>, at: Option<Label>, delay: bool, h: Hist, fuel: nat, more: nat)
    requires FromSeq(at, ns) && !ExecSeq(e, ns, at, delay, h, fuel).OutOfFuel?
    ensures ExecSeq(e, ns, at, delay, h, fuel + more) == ExecSeq(e, ns, at, delay, h, fuel)
    decreases fuel, ns, 1
  {
    if ns != [] {
      if From(at, ns[0]) {
        ExecMore(e, ns[0], at, delay, h, fuel, more);
        var o := Exec(e, ns[0], at, delay, h, fuel);
        if o.Normal? { SeqMore(e, ns[1..], None, delay, o.h, fuel, more); }
      } else {
        SeqMore(e, ns[1..], at, delay, h, fuel, more);
      }
    }
  }

  lemma DeferMore(e: Env, n: Node, at: Option<Label>, delay: bool, h: Hist, fuel: nat, more: nat)
    requires n.Defer? && From(at, n) && !Exec(e, n, at, delay, h, fuel).OutOfFuel?
    ensures Exec(e, n, at, delay, h, fuel + more) == Exec(e, n, at, delay, h, fuel)
    decreases fuel, n, -1
  {
    var Defer(u, d) := n;
    var o;
    if From(at, u) {
      ExecMore(e, u, at, delay, h, fuel, more);
      o := Exec(e, u, at, delay, h, fuel);
      if !o.Thrown? { return; }
      ExecMore(e, d, None, delay, o.h, fuel, more);
      o := Exec(e, d, None, delay, o.h, fuel);
    } else {
      ExecMore(e, d, at, delay, h, fuel, more);
      o := Exec(e, d, at, delay, h, fuel);
    }
    if o.Normal? && fuel > 0 { ExecMore(e, n, None, delay, o.h, fuel - 1, more); }
  }

  lemma ExcepMore(e: Env, n: Node, at: Option<Label>, delay: bool, h: Hist, fuel: nat, more: nat)
    requires n.Excep? && From(at, n) && !Exec(e, n, at, delay, h, fuel).OutOfFuel?
    ensures Exec(e, n, at, delay, h, fuel + more) == Exec(e, n, at, delay, h, fuel)
    decreases fuel, n, -1
  {
    if From(at, n.body) {
      ExecMore(e, n.body, at, true, h, fuel, more);
      var o := Exec(e, n.body, at, true, h, fuel);
      if o.Thrown? {
        ExecMore(e, n.onexc, None, true, o.h, fuel, more);
        FinallyMore(e, n, Exec(e, n.onexc, None, true, o.h, fuel), fuel, more);
      } else {
        FinallyMore(e, n, o, fuel, more);
      }
    } else if From(at, n.onexc) {
      ExecMore(e, n.onexc, at, true, h, fuel, more);
      FinallyMore(e, n, Exec(e, n.onexc, at, true, h, fuel), fuel, more);
    } else {
      ExecMore(e, n.fin, at, false, h, fuel, more);
    }
  }

  lemma FinallyMore(e: Env, n: Node, o: Out, fuel: nat, more: nat)
    requires n.Excep? && !ExecFinally(e, n, o, fuel).OutOfFuel?
    ensures ExecFinally(e, n, o, fuel + more) == ExecFinally(e, n, o, fuel)
    decreases fuel, n.fin, 2
  {
    if o.Normal? || o.Returning? || o.Thrown? { ExecMore(e, n.fin, None, false, o.h, fuel, more); }
  }

  lemma {:induction false} PartMore(e: Env, n: Node, at: Option<Label>, delay: bool, h: Hist, fuel: nat, more: nat)
    requires From(at, n) && !RunPart(e, n, at, delay, h, fuel).0.OutOfFuel?
    ensures var r := RunPart(e, n, at, delay, h, fuel); RunPart(e, n, at, delay, h, fuel + more) == (r.0, r.1 + more)
    decreases fuel
  {
    ExecMore(e, n, at, delay, h, fuel, more);
    var o := Exec(e, n, at, delay, h, fuel);
    if o.Jump? { PartMore(e, n, Some(o.l), delay, o.h, fuel - 1, more); }
  }

  // Run by itself, the part comes to o.
  ghost predicate ComesTo(e: Env, n: Node, delay: bool, h: Hist, o: Out) {
    !o.OutOfFuel? && exists fuel: nat :: RunPart(e, n, None, delay, h, fuel).0 == o
  }

  lemma ComesToOne(e: Env, n: Node, delay: bool, h: Hist, o: Out, p: Out)
    requires ComesTo(e, n, delay, h, o) && ComesTo(e, n, delay, h, p)
    ensures o == p
  {
    hide RunPart;
    var j: nat :| RunPart(e, n, None, delay, h, j).0 == o;
    var k: nat :| RunPart(e, n, None, delay, h, k).0 == p;
    PartMore(e, n, None, delay, h, j, k);
    PartMore(e, n, None, delay, h, k, j);
  }

  lemma ComesOut(e: Env, n: Node, delay: bool, h: Hist, fuel: nat)
    ensures var o := RunPart(e, n, None, delay, h, fuel).0; !o.OutOfFuel? ==> ComesTo(e, n, delay, h, o)
  {
  }

  // ----- how a body ends, by its last statement -----

  // Control reaches the last statement, with history h.
  ghost predicate Reaches(e: Env, n: Node, h: Hist) {
    ComesTo(e, Block(Lead(n)), false, [], Normal(h))
  }

  // The function ends before control reaches the last statement.
  ghost predicate LeadEnds(e: Env, n: Node, how: Ending, h: Hist) {
    exists o :: ComesTo(e, Block(Lead(n)), false, [], o) && !o.Normal? && Ends(o) == Done(how, h)
  }

  // Run by itself from history h0, n ends the function.
  ghost predicate EndsFrom(e: Env, n: Node, h0: Hist, how: Ending, h: Hist) {
    exists o :: ComesTo(e, n, false, h0, o) && Ends(o) == Done(how, h)
  }

  // Control reaches the last statement, and that ends the function.
  ghost predicate LastEnds(e: Env, n: Node, how: Ending, h: Hist) {
    exists h0 :: Reaches(e, n, h0) && EndsFrom(e, Last(n), h0, how, h)
  }

  lemma EndsByLast(e: Env, n: Node, how: Ending, h: Hist)
    requires Apart(n)
    ensures TreeEnds(e, n, how, h) <==> LeadEnds(e, n, how, h) || LastEnds(e, n, how, h)
  {
    if TreeEnds(e, n, how, h) { EndsInParts(e, n, how, h); }
    if LeadEnds(e, n, how, h) { LeadEnding(e, n, how, h); }
    if LastEnds(e, n, how, h) { LastEnding(e, n, how, h); }
  }

  lemma EndsInParts(e: Env, n: Node, how: Ending, h: Hist)
    requires Apart(n) && TreeEnds(e, n, how, h)
    ensures LeadEnds(e, n, how, h) || LastEnds(e, n, how, h)
  {
    hide Run, RunPart, Apart, ComesTo;
    var fuel: nat :| Run(e, n, None, [], fuel) == Done(how, h);
    RunLead(e, n, None, [], fuel);
    var r := RunPart(e, Block(Lead(n)), None, false, [], fuel);
    ComesOut(e, Block(Lead(n)), false, [], fuel);
    if r.0.Normal? {
      ComesOut(e, Last(n), false, r.0.h, r.1);
      assert Reaches(e, n, r.0.h);
    }
  }

  lemma LeadEnding(e: Env, n: Node, how: Ending, h: Hist)
    requires Apart(n) && LeadEnds(e, n, how, h)
    ensures TreeEnds(e, n, how, h)
  {
    hide Run, RunPart, Apart;
    var lead := Block(Lead(n));
    var o :| ComesTo(e, lead, false, [], o) && !o.Normal? && Ends(o) == Done(how, h);
    var k: nat :| RunPart(e, lead, None, false, [], k).0 == o;
    RunLead(e, n, None, [], k);
  }

  lemma LastEnding(e: Env, n: Node, how: Ending, h: Hist)
    requires Apart(n) && LastEnds(e, n, how, h)
    ensures TreeEnds(e, n, how, h)
  {
    hide Run, RunPart, Apart;
    var lead := Block(Lead(n));
    var h0 :| Reaches(e, n, h0) && EndsFrom(e, Last(n), h0, how, h);
    var o :| ComesTo(e, Last(n), false, h0, o) && Ends(o) == Done(how, h);
    var j: nat :| RunPart(e, lead, None, false, [], j).0 == Normal(h0);
    var k: nat :| RunPart(e, Last(n), None, false, h0, k).0 == o;
    PartMore(e, lead, None, false, [], j, k);
    var left := RunPart(e, lead, None, false, [], j).1;
    PartMore(e, Last(n), None, false, h0, k, left);
    RunLead(e, n, None, [], j + k);
    assert Run(e, n, None, [], j + k) == Done(how, h);
  }
}
