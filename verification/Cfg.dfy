/** Basic blocks, and the machine that runs them. */
module Cfg {
  import opened StmtTree

  type BlockId = nat

  datatype Instr =
    | Plain(i: Inst)                                  // includes a call that is not protected, and `Ret`
    | Invoke(i: Inst, cont: BlockId, pad: BlockId)    // a call with an exception edge
    | LandingPad
    | Br(to: BlockId)
    | CondBr(v: int, yes: BlockId, no: BlockId)
    | SwitchBr(v: int, other: BlockId, arms: seq<(int, BlockId)>)
    | RetZero                                         // the return appended by the epilog fixup

  type Code = seq<Instr>

  predicate IsTerm(i: Instr) {
    match i
    case Plain(x) => x.Ret?
    case LandingPad => false
    case _ => true
  }

  predicate Terminated(c: Code) {
    c != [] && IsTerm(c[|c| - 1])
  }

  // At most one terminator, and only at the end.
  predicate TermLast(c: Code) {
    forall i :: 0 <= i < |c| - 1 ==> !IsTerm(c[i])
  }

  predicate Targets(i: Instr, n: nat) {
    match i
    case Invoke(_, c, p) => c < n && p < n
    case Br(t) => t < n
    case CondBr(_, y, o) => y < n && o < n
    case SwitchBr(_, d, arms) => d < n && forall k :: 0 <= k < |arms| ==> arms[k].1 < n
    case _ => true
  }

  // The block chosen for x: the first matching arm, else the default.
  function Arm(arms: seq<(int, BlockId)>, other: BlockId, x: int): BlockId {
    if arms == [] then other else if arms[0].0 == x then arms[0].1 else Arm(arms[1..], other, x)
  }

  datatype Conf = At(b: BlockId, i: nat, h: Hist) | Halt(how: Ending, h: Hist) | Stuck

  ghost function Step(e: Env, g: seq<Code>, c: Conf): Conf {
    if !c.At? then c
    else if c.b >= |g| || c.i >= |g[c.b]| then Stuck
    else
      match g[c.b][c.i]
      case Plain(i) =>
        if i.Ret? then Halt(Left, c.h + [Did(Ret)])
        else if MayThrow(i) && e.throws(i, c.h) then Halt(Unwound, c.h + [Threw(i)])
        else At(c.b, c.i + 1, c.h + [Did(i)])
      case Invoke(i, cont, pad) =>
        if MayThrow(i) && e.throws(i, c.h) then At(pad, 0, c.h + [Threw(i)])
        else At(cont, 0, c.h + [Did(i)])
      case LandingPad => At(c.b, c.i + 1, c.h)
      case Br(t) => At(t, 0, c.h)
      case CondBr(v, y, n) => At(if e.test(v, c.h) then y else n, 0, c.h)
      case SwitchBr(v, d, arms) => At(Arm(arms, d, e.choose(v, c.h)), 0, c.h)
      case RetZero => Halt(FellOff, c.h)
  }

  ghost function Steps(e: Env, g: seq<Code>, c: Conf, n: nat): Conf
    decreases n
  {
    if n == 0 then c else Steps(e, g, Step(e, g, c), n - 1)
  }

  // c reaches d in at least k steps.
  ghost predicate Reach(e: Env, g: seq<Code>, c: Conf, d: Conf, k: nat) {
    exists n: nat :: n >= k && Steps(e, g, c, n) == d
  }

  lemma {:induction false} StepsAdd(e: Env, g: seq<Code>, c: Conf, m: nat, n: nat)
    ensures Steps(e, g, c, m + n) == Steps(e, g, Steps(e, g, c, m), n)
    decreases m
  {
    if m > 0 { StepsAdd(e, g, Step(e, g, c), m - 1, n); }
  }

  lemma ReachTrans(e: Env, g: seq<Code>, a: Conf, b: Conf, c: Conf, j: nat, k: nat)
    requires Reach(e, g, a, b, j) && Reach(e, g, b, c, k)
    ensures Reach(e, g, a, c, j + k)
  {
    var m: nat :| m >= j && Steps(e, g, a, m) == b;
    var n: nat :| n >= k && Steps(e, g, b, n) == c;
    StepsAdd(e, g, a, m, n);
    assert Steps(e, g, a, m + n) == c;
  }

  lemma ReachRefl(e: Env, g: seq<Code>, a: Conf)
    ensures Reach(e, g, a, a, 0)
  {
    assert Steps(e, g, a, 0) == a;
  }

  lemma ReachStep(e: Env, g: seq<Code>, a: Conf)
    ensures Reach(e, g, a, Step(e, g, a), 1)
  {
    assert Steps(e, g, Step(e, g, a), 0) == Step(e, g, a);
    assert Steps(e, g, a, 1) == Step(e, g, a);
  }
}
