/** The control-flow lowering as a function on its state: the reference that the
    block builder of CodeGen.dfy is proved against, and about which the theorems are stated. */
module Lowering {
  import opened Wrappers
  import opened StmtTree
  import opened Cfg

  // The blocks of the function so far, the block of each label met, the stack of landing pads,
  // the finally block and the delayed return of an open try statement, and the current block.
  datatype State = State(
    blocks: seq<Code>,
    labels: map<Label, BlockId>,
    pads: seq<BlockId>,
    fin: Option<BlockId>,
    cached: Option<Node>,
    cur: Option<BlockId>)

  function Append(s: State, b: BlockId, i: Instr): State {
    if b < |s.blocks| then s.(blocks := s.blocks[b := s.blocks[b] + [i]]) else s
  }

  // Add to the current block; in dead code there is none and the instruction is dropped.
  function Put(s: State, i: Instr): State {
    if s.cur.Some? then Append(s, s.cur.value, i) else s
  }

  predicate Ended(s: State, b: BlockId) {
    b < |s.blocks| && Terminated(s.blocks[b])
  }

  // Branch from the current block, unless it has already been closed.
  function Close(s: State, to: BlockId): State {
    if s.cur.Some? && !Ended(s, s.cur.value) then Put(s, Br(to)) else s
  }

  function Empties(n: nat): (r: seq<Code>)
    ensures |r| == n
    ensures forall i :: 0 <= i < n ==> r[i] == []
  {
    seq(n, _ => [])
  }

  function Fresh(s: State, n: nat): State {
    s.(blocks := s.blocks + Empties(n))
  }

  function Goes(s: State, b: BlockId): State {
    s.(cur := Some(b))
  }

  function Dies(s: State): State {
    s.(cur := None)
  }

  function LabelBlock(s: State, l: Label): State {
    if l in s.labels then s else Fresh(s, 1).(labels := s.labels[l := |s.blocks|])
  }

  function LowerInst(s: State, i: Inst): State {
    if s.cur.Some? && MayThrow(i) && s.pads != [] then
      Goes(Put(Fresh(s, 1), Invoke(i, |s.blocks|, s.pads[|s.pads| - 1])), |s.blocks|)
    else Put(s, Plain(i))
  }

  function LowerInsts(s: State, insts: seq<Inst>): State
    decreases insts
  {
    if insts == [] then s else LowerInsts(LowerInst(s, insts[0]), insts[1..])
  }

  function Lower(s: State, n: Node): State
    decreases n, 0
  {
    match n
    case Expr(kids, insts, _) => LowerInsts(LowerSeq(s, kids), insts)
    case ExprStmt(e) => Lower(s, e)
    case Block(stmts) => LowerSeq(s, stmts)
    case If(c, t, f) =>
      var s1 := Lower(s, c);
      var b := |s1.blocks|;
      var s3 := Put(Fresh(s1, 3), CondBr(Val(c), b, b + 2));
      var s4 := Close(Lower(Goes(s3, b), t), b + 1);
      var s5 := Close(Lower(Goes(s4, b + 2), f), b + 1);
      Goes(s5, b + 1)
    case Switch(v, vals, bodies) =>
      var s1 := Lower(s, v);
      var b := |s1.blocks|;
      var s2 := LowerBodies(Fresh(s1, |bodies| + 1), bodies, b, b + |bodies|);
      var s3 := Put(s2.(cur := s1.cur), SwitchBr(Val(v), b + DefaultCase(vals), Arms(vals, b)));
      Goes(s3, b + |bodies|)
    case Return(e) =>
      if s.fin.Some? then Dies(Put(s.(cached := OrElse(s.cached, Some(e))), Br(s.fin.value)))
      else Dies(Lower(s, e))
    case Goto(l) =>
      var s1 := LabelBlock(s, l);
      Dies(Close(s1, s1.labels[l]))
    case LabelDef(l) =>
      var s1 := LabelBlock(s, l);
      Goes(Put(s1, Br(s1.labels[l])), s1.labels[l])
    case Defer(u, d) =>
      var b := |s.blocks|;  // finish, pad and catch are b, b + 1 and b + 2
      var s1 := Goes(Put(Fresh(s, 3), Br(b)), b);
      var s2 := Lower(s1.(pads := s.pads + [b + 1]), u).(pads := s.pads);
      var s3 := Put(Put(Goes(s2, b + 1), LandingPad), Br(b + 2));
      var s4 := Append(Lower(Goes(s3, b + 2), d), b + 2, Br(b));
      s4.(cur := s2.cur)
    case Excep(body, onexc, fin) =>
      var b := |s.blocks|;  // pad and finally are b and b + 1
      var s3 := BrIfLive(Lower(TryStart(s), body), b + 1).(pads := s.pads);
      var k := |s3.blocks|;  // catch and catchpad are k and k + 1
      var s7 := BrIfLive(Lower(CatchStart(s3, b), onexc), b + 1).(pads := s3.pads, fin := None);
      var s8 := Put(Put(Goes(s7, k + 1), LandingPad), Br(b + 1));
      LowerCached(Lower(Goes(s8, b + 1), fin))
  }

  function BrIfLive(s: State, to: BlockId): State {
    if s.cur.Some? then Put(s, Br(to)) else s
  }

  // The body of a try statement: exceptions go to block b, returns to block b + 1.
  function TryStart(s: State): State {
    var b := |s.blocks|;
    Fresh(s, 2).(fin := Some(b + 1), pads := s.pads + [b])
  }

  // The catch code starts with its landing pad in place in block b.
  function CatchStart(s3: State, b: BlockId): State {
    var k := |s3.blocks|;
    var s4 := Put(Put(Goes(Fresh(s3, 1), b), LandingPad), Br(k));
    Goes(Fresh(s4, 1), k).(pads := s3.pads + [k + 1])
  }

  // The value an expression computes.
  function Val(n: Node): int {
    if n.Expr? then n.value else 0
  }

  function LowerSeq(s: State, ns: seq<Node>): State
    decreases ns, 1
  {
    if ns == [] then s else LowerSeq(Lower(s, ns[0]), ns[1..])
  }

  // Case k is lowered into block b + k. A body that leaves its block open branches to the epilog;
  // where the walk of the body ended up is not looked at.
  function LowerBodies(s: State, ns: seq<Node>, b: BlockId, epilog: BlockId): State
    decreases ns, 1
  {
    if ns == [] then s
    else
      var s1 := Lower(Goes(s, b), ns[0]);
      LowerBodies(if Ended(s1, b) then s1 else Append(s1, b, Br(epilog)), ns[1..], b + 1, epilog)
  }

  function ArmsOf(xs: seq<int>, b: BlockId): (r: seq<(int, BlockId)>)
    ensures |r| == |xs| && forall i :: 0 <= i < |xs| ==> r[i] == (xs[i], b)
  {
    seq(|xs|, i requires 0 <= i < |xs| => (xs[i], b))
  }

  function Arms(vals: seq<seq<int>>, b: BlockId): seq<(int, BlockId)> {
    if vals == [] then [] else ArmsOf(vals[0], b) + Arms(vals[1..], b + 1)
  }

  // The return delayed past the finally clause is put after it.
  function LowerCached(s: State): State {
    if s.cached.Some? then LowerInsts(s, Flat(s.cached.value)).(cached := None) else s
  }
}
