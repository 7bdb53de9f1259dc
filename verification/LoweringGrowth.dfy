/** Lowering only ever adds code: every intermediate state is a prefix of the final one. */
module LoweringGrowth {
  import opened Wrappers
  import opened StmtTree
  import opened Cfg
  import opened Lowering
  import opened LoweringWalk

  ghost predicate Grows(a: State, b: State) {
    && |a.blocks| <= |b.blocks|
    && (forall x :: 0 <= x < |a.blocks| ==> a.blocks[x] <= b.blocks[x])
    && (forall l :: l in a.labels ==> l in b.labels && a.labels[l] == b.labels[l])
  }

  lemma GrowsTrans(a: State, b: State, c: State)
    requires Grows(a, b) && Grows(b, c)
    ensures Grows(a, c)
  {
  }

  lemma {:induction false} InstsGrow(s: State, insts: seq<Inst>)
    ensures Grows(s, LowerInsts(s, insts))
    decreases insts
  {
    if insts != [] {
      InstsGrow(LowerInst(s, insts[0]), insts[1..]);
      GrowsTrans(s, LowerInst(s, insts[0]), LowerInsts(s, insts));
    }
  }

  lemma {:induction false} NodeGrows(s: State, n: Node)
    ensures Grows(s, Lower(s, n))
    decreases n, 1
  {
    hide Put, Fresh, Append, Close, Grows;
    match n
    case Expr(kids, insts, _) =>
      SeqGrows(s, kids);
      InstsGrow(LowerSeq(s, kids), insts);
      GrowsTrans(s, LowerSeq(s, kids), Lower(s, n));
    case ExprStmt(e) => NodeGrows(s, e);
    case Block(stmts) => SeqGrows(s, stmts);
    case If(c, t, f) => IfGrows(s, n);
    case Switch(v, vals, bodies) => SwitchGrows(s, n);
    case Return(e) => if s.fin.None? { NodeGrows(s, e); } ReturnGrows(s, e);
    case Goto(l) => LabelGrows(s, l);
    case LabelDef(l) => LabelGrows(s, l);
    case Defer(u, d) => DeferGrows(s, n);
    case Excep(b, c, f) => ExcepGrows(s, n);
  }

  lemma ReturnGrows(s: State, e: Node)
    requires s.fin.None? ==> Grows(s, Lower(s, e))
    ensures Grows(s, Lower(s, Return(e)))
  {
    hide Put, Lower, Grows;
    ReturnIs(s, e);
    if s.fin.Some? {
      var s1 := s.(cached := OrElse(s.cached, Some(e)));
      PutGrows(s1, Br(s.fin.value));
      SameCode(s1, Put(s1, Br(s.fin.value)), s, Lower(s, Return(e)));
    } else {
      SameCode(s, Lower(s, e), s, Lower(s, Return(e)));
    }
  }

  lemma ReturnIs(s: State, e: Node)
    ensures Lower(s, Return(e)) ==
            if s.fin.Some? then Dies(Put(s.(cached := OrElse(s.cached, Some(e))), Br(s.fin.value)))
              else Dies(Lower(s, e))
  {
    hide Put, Dies;
  }

  // Only the code and the labels matter.
  lemma SameCode(a: State, b: State, c: State, d: State)
    requires Grows(a, b) && a.blocks == c.blocks && a.labels == c.labels && b.blocks == d.blocks && b.labels == d.labels
    ensures Grows(c, d)
  {
  }

  lemma LabelGrows(s: State, l: Label)
    ensures Grows(s, LabelBlock(s, l)) && Grows(s, Lower(s, Goto(l))) && Grows(s, Lower(s, LabelDef(l)))
  {
    hide Put, Close;
    var t := LabelBlock(s, l);
    CloseGrows(s, t, t.labels[l]);
    PutGrows(t, Br(t.labels[l]));
    GrowsTrans(s, t, Put(t, Br(t.labels[l])));
  }

  lemma {:induction false} SeqGrows(s: State, ns: seq<Node>)
    ensures Grows(s, LowerSeq(s, ns))
    decreases ns, 2
  {
    if ns != [] {
      NodeGrows(s, ns[0]);
      SeqGrows(Lower(s, ns[0]), ns[1..]);
      GrowsTrans(s, Lower(s, ns[0]), LowerSeq(s, ns));
    }
  }

  lemma GrowsRefl(s: State)
    ensures Grows(s, s)
  {
  }

  lemma PutGrows(s: State, i: Instr)
    ensures Grows(s, Put(s, i))
  {
  }

  lemma AppendGrows(s: State, b: BlockId, i: Instr)
    ensures Grows(s, Append(s, b, i))
  {
  }

  // A walk followed by changes that only add code.
  lemma CloseGrows(s: State, t: State, to: BlockId)
    requires Grows(s, t)
    ensures Grows(s, Close(t, to)) && Grows(s, BrIfLive(t, to))
  {
  }

  lemma {:induction false} IfGrows(s: State, n: Node)
    requires n.If?
    ensures var s1 := Lower(s, n.cond);
      && Grows(s, s1) && Grows(s1, IfThen(s1, Val(n.cond)))
      && Grows(IfThen(s1, Val(n.cond)), IfElse(s1, Val(n.cond), n.thn))
      && Grows(IfElse(s1, Val(n.cond), n.thn), IfTail(s1, Val(n.cond), n.thn, n.els))
      && Grows(s, Lower(s, n))
    decreases n, 0
  {
    hide Lower, Close, Grows;
    var If(c, t, f) := n;
    NodeGrows(s, c);
    var s1 := Lower(s, c);
    var b := |s1.blocks|;
    var sT := IfThen(s1, Val(c));
    assert Grows(s1, sT) by { FreshPutGrows(s1, 3, CondBr(Val(c), b, b + 2), b); }
    NodeGrows(sT, t);
    CloseGrows(sT, Lower(sT, t), b + 1);
    var sF := IfElse(s1, Val(c), t);
    CurGrows(sT, Close(Lower(sT, t), b + 1), Some(b + 2));
    NodeGrows(sF, f);
    CloseGrows(sF, Lower(sF, f), b + 1);
    CurGrows(sF, Close(Lower(sF, f), b + 1), Some(b + 1));
    IfTailIs(s, c, t, f);
    GrowsTrans(s, s1, sT);
    GrowsTrans(s, sT, sF);
    GrowsTrans(s, sF, Lower(s, n));
  }

  lemma FreshPutGrows(s: State, n: nat, i: Instr, b: BlockId)
    ensures Grows(s, Goes(Put(Fresh(s, n), i), b))
  {
  }

  lemma CurGrows(s: State, t: State, c: Option<BlockId>)
    requires Grows(s, t)
    ensures Grows(s, t.(cur := c)) && Grows(s.(cur := c), t) && (c.Some? ==> Grows(s, Goes(t, c.value)))
  {
  }

  lemma {:induction false} BodiesGrow(s: State, ns: seq<Node>, b: BlockId, epilog: BlockId)
    ensures Grows(s, LowerBodies(s, ns, b, epilog))
    decreases ns, 2
  {
    hide Append, Grows;
    if ns == [] {
      GrowsRefl(s);
    } else {
      BodyGrows(s, ns[0], b, epilog);
      BodiesGrow(CaseTail(s, ns[0], b, epilog), ns[1..], b + 1, epilog);
      GrowsTrans(s, CaseTail(s, ns[0], b, epilog), LowerBodies(s, ns, b, epilog));
    }
  }

  lemma {:induction false} BodyGrows(s: State, n: Node, b: BlockId, epilog: BlockId)
    ensures Grows(s, CaseTail(s, n, b, epilog)) && Grows(Lower(Goes(s, b), n), CaseTail(s, n, b, epilog))
    decreases n, 2
  {
    NodeGrows(Goes(s, b), n);
    AppendGrows(Lower(Goes(s, b), n), b, Br(epilog));
  }

  lemma {:induction false} SwitchGrows(s: State, n: Node)
    requires n.Switch?
    ensures var s1 := Lower(s, n.sel); var b := |s1.blocks|; var s2 := BodiesStart(s1, |n.bodies|);
      && Grows(s, s1) && Grows(s1, s2)
      && Grows(s2, LowerBodies(s2, n.bodies, b, b + |n.bodies|))
      && Grows(LowerBodies(s2, n.bodies, b, b + |n.bodies|), Lower(s, n))
      && Grows(s, Lower(s, n))
    decreases n, 0
  {
    hide Lower, LowerBodies;
    NodeGrows(s, n.sel);
    var s1 := Lower(s, n.sel);
    var b := |s1.blocks|;
    var s2 := BodiesStart(s1, |n.bodies|);
    assert Grows(s1, s2);
    BodiesGrow(s2, n.bodies, b, b + |n.bodies|);
    var s3 := LowerBodies(s2, n.bodies, b, b + |n.bodies|);
    SwitchTailIs(s, n);
    LowerBodiesCur(Fresh(s1, |n.bodies| + 1), None, n.bodies, b, b + |n.bodies|);
    assert s3.blocks == LowerBodies(Fresh(s1, |n.bodies| + 1), n.bodies, b, b + |n.bodies|).(cur := None).blocks;
    assert s3.labels == LowerBodies(Fresh(s1, |n.bodies| + 1), n.bodies, b, b + |n.bodies|).(cur := None).labels;
    PutGrows(s3.(cur := s1.cur), SwitchBr(Val(n.sel), b + DefaultCase(n.vals), Arms(n.vals, b)));
    assert Grows(s3, Lower(s, n));
    GrowsTrans(s, s1, s2);
    GrowsTrans(s, s2, s3);
    GrowsTrans(s, s3, Lower(s, n));
  }

  lemma {:induction false} DeferGrows(s: State, n: Node)
    requires n.Defer?
    ensures var u := n.undefer; var d := n.checkdefer;
      && Grows(s, DeferStart(s)) && Grows(DeferStart(s), DeferTry(s, u))
      && Grows(DeferTry(s, u), DeferCatch(s, u)) && Grows(DeferCatch(s, u), Lower(DeferCatch(s, u), d))
      && Grows(Lower(DeferCatch(s, u), d), Lower(s, n))
      && Grows(s, Lower(s, n))
    decreases n, 0
  {
    hide Lower;
    var Defer(u, d) := n;
    var s1 := DeferStart(s);
    assert Grows(s, s1);
    NodeGrows(s1.(pads := s.pads + [|s.blocks| + 1]), u);
    NodeGrows(DeferCatch(s, u), d);
    DeferIs(s, u, d);
    assert Grows(DeferTry(s, u), DeferCatch(s, u));
    assert Grows(Lower(DeferCatch(s, u), d), Lower(s, n));
    GrowsTrans(s, s1, DeferTry(s, u));
    GrowsTrans(s, DeferTry(s, u), DeferCatch(s, u));
    GrowsTrans(s, DeferCatch(s, u), Lower(DeferCatch(s, u), d));
    GrowsTrans(s, Lower(DeferCatch(s, u), d), Lower(s, n));
  }

  lemma TryPieces(s: State, body: Node)
    ensures Grows(s, TryStart(s)) && Grows(Lower(TryStart(s), body), TryPart(s, body))
  {
    PutGrows(Lower(TryStart(s), body), Br(|s.blocks| + 1));
  }

  lemma FreshGrows(s: State, n: nat)
    ensures Grows(s, Fresh(s, n))
  {
  }

  // A landing pad written into block b.
  lemma PadGrows(s: State, b: BlockId, to: BlockId)
    ensures Grows(s, Put(Put(Goes(s, b), LandingPad), Br(to)))
  {
    hide Put, Grows;
    var t := Goes(s, b);
    GrowsRefl(s);
    CurGrows(s, s, Some(b));
    PutGrows(t, LandingPad);
    PutGrows(Put(t, LandingPad), Br(to));
    GrowsTrans(s, t, Put(t, LandingPad));
    GrowsTrans(s, Put(t, LandingPad), Put(Put(t, LandingPad), Br(to)));
  }

  lemma CatchStartGrows(s3: State, b: BlockId)
    ensures Grows(s3, CatchStart(s3, b))
  {
    hide Put, Fresh;
    var k := |s3.blocks|;
    var s4 := Put(Put(Goes(Fresh(s3, 1), b), LandingPad), Br(k));
    FreshGrows(s3, 1);
    PadGrows(Fresh(s3, 1), b, k);
    GrowsTrans(s3, Fresh(s3, 1), s4);
    FreshGrows(s4, 1);
    GrowsTrans(s3, s4, Fresh(s4, 1));
  }

  lemma CatchPieces(s3: State, b: BlockId, onexc: Node)
    ensures Grows(s3, CatchStart(s3, b)) && Grows(Lower(CatchStart(s3, b), onexc), CatchEnd(s3, b, onexc))
    ensures Grows(CatchEnd(s3, b, onexc), CatchPart(s3, b, onexc))
  {
    hide CatchEnd, CatchStart, Grows, Put, Goes;
    CatchStartGrows(s3, b);
    CatchEndGrows(s3, b, onexc);
    PadGrows(CatchEnd(s3, b, onexc), |s3.blocks| + 1, b + 1);
  }

  lemma CatchEndGrows(s3: State, b: BlockId, onexc: Node)
    ensures Grows(Lower(CatchStart(s3, b), onexc), CatchEnd(s3, b, onexc))
  {
    hide CatchStart;
    PutGrows(Lower(CatchStart(s3, b), onexc), Br(b + 1));
  }

  lemma FinGrows(s9: State, fin: Node)
    ensures Grows(Lower(s9, fin), LowerCached(Lower(s9, fin)))
  {
    var t := Lower(s9, fin);
    if t.cached.Some? { InstsGrow(t, Flat(t.cached.value)); }
  }

  lemma {:induction false} ExcepGrows(s: State, n: Node)
    requires n.Excep?
    ensures var b := |s.blocks|; var s3 := TryPart(s, n.body); var s5 := CatchStart(s3, b);
      var s7 := CatchEnd(s3, b, n.onexc); var s8 := CatchPart(s3, b, n.onexc); var s9 := Goes(s8, b + 1);
      && Grows(s, TryStart(s)) && Grows(Lower(TryStart(s), n.body), s3) && Grows(TryStart(s), s3)
      && Grows(s3, s5) && Grows(s5, Lower(s5, n.onexc)) && Grows(Lower(s5, n.onexc), s7) && Grows(s7, s8)
      && Grows(s8, s9) && Grows(s9, Lower(s9, n.fin)) && Grows(Lower(s9, n.fin), Lower(s, n))
      && Grows(s3, Lower(s, n)) && Grows(s, Lower(s, n))
    decreases n, 0
  {
    hide Lower, LowerInsts, LowerCached, Grows, TryStart, TryPart, CatchStart, CatchEnd, CatchPart;
    var b := |s.blocks|;
    var s0 := TryStart(s);
    TryPieces(s, n.body);
    NodeGrows(s0, n.body);
    var s3 := TryPart(s, n.body);
    GrowsTrans(s0, Lower(s0, n.body), s3);
    CatchPieces(s3, b, n.onexc);
    var s5 := CatchStart(s3, b);
    NodeGrows(s5, n.onexc);
    var s7 := CatchEnd(s3, b, n.onexc);
    var s8 := CatchPart(s3, b, n.onexc);
    var s9 := Goes(s8, b + 1);
    GrowsRefl(s8);
    CurGrows(s8, s8, Some(b + 1));
    NodeGrows(s9, n.fin);
    ExcepIs(s, n);
    FinGrows(s9, n.fin);
    var t := Lower(s9, n.fin);
    GrowsTrans(s9, t, Lower(s, n));
    GrowsTrans(s8, s9, Lower(s, n));
    GrowsTrans(s7, s8, Lower(s, n));
    GrowsTrans(Lower(s5, n.onexc), s7, Lower(s, n));
    GrowsTrans(s5, Lower(s5, n.onexc), Lower(s, n));
    GrowsTrans(s3, s5, Lower(s, n));
    GrowsTrans(s0, s3, Lower(s, n));
    GrowsTrans(s, s0, Lower(s, n));
  }
}
