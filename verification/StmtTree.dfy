/** The statement trees handed to the control-flow lowering, and what they mean.

    A tree is the value form of a Bnode tree: an expression carries its children, the
    instructions it owns and the value it computes; a statement carries its children.
    Instructions are opaque labels, except that a call may throw and `Ret` leaves the function. */
module StmtTree {
  import opened Wrappers

  type Label = nat

  datatype Inst = Op(id: int) | Call(callee: int, intrinsic: bool) | Ret

  datatype Node =
    | Expr(kids: seq<Node>, insts: seq<Inst>, value: int)
    | ExprStmt(e: Node)
    | Block(stmts: seq<Node>)
    | If(cond: Node, thn: Node, els: Node)
    | Switch(sel: Node, vals: seq<seq<int>>, bodies: seq<Node>)  // an empty value list is the default case
    | Return(e: Node)
    | Goto(target: Label)
    | LabelDef(lab: Label)
    | Defer(undefer: Node, checkdefer: Node)
    | Excep(body: Node, onexc: Node, fin: Node)

  predicate MayThrow(i: Inst) {
    i.Call? && !i.intrinsic
  }

  // ----- labels -----

  function Defs(n: Node): set<Label>
    decreases n, 0
  {
    match n
    case Expr(kids, _, _) => DefsSeq(kids)
    case ExprStmt(e) => Defs(e)
    case Block(stmts) => DefsSeq(stmts)
    case If(c, t, f) => Defs(c) + Defs(t) + Defs(f)
    case Switch(v, _, bodies) => Defs(v) + DefsSeq(bodies)
    case Return(e) => Defs(e)
    case Goto(_) => {}
    case LabelDef(l) => {l}
    case Defer(u, d) => Defs(u) + Defs(d)
    case Excep(b, c, f) => Defs(b) + Defs(c) + Defs(f)
  }

  function DefsSeq(ns: seq<Node>): set<Label>
    decreases ns, 1
  {
    if ns == [] then {} else Defs(ns[0]) + DefsSeq(ns[1..])
  }

  function Gotos(n: Node): set<Label>
    decreases n, 0
  {
    match n
    case Expr(kids, _, _) => GotosSeq(kids)
    case ExprStmt(e) => Gotos(e)
    case Block(stmts) => GotosSeq(stmts)
    case If(c, t, f) => Gotos(c) + Gotos(t) + Gotos(f)
    case Switch(v, _, bodies) => Gotos(v) + GotosSeq(bodies)
    case Return(e) => Gotos(e)
    case Goto(l) => {l}
    case LabelDef(_) => {}
    case Defer(u, d) => Gotos(u) + Gotos(d)
    case Excep(b, c, f) => Gotos(b) + Gotos(c) + Gotos(f)
  }

  function GotosSeq(ns: seq<Node>): set<Label>
    decreases ns, 1
  {
    if ns == [] then {} else Gotos(ns[0]) + GotosSeq(ns[1..])
  }

  // ----- straight-line expressions and return statements -----

  // An expression tree with no statement inside it.
  predicate Simple(n: Node)
    decreases n, 0
  {
    n.Expr? && SimpleSeq(n.kids)
  }

  predicate SimpleSeq(ns: seq<Node>)
    decreases ns, 1
  {
    ns == [] || (Simple(ns[0]) && SimpleSeq(ns[1..]))
  }

  // The instructions of a straight-line expression, in the order they run.
  function Flat(n: Node): seq<Inst>
    decreases n, 0
  {
    if n.Expr? then FlatSeq(n.kids) + n.insts else []
  }

  function FlatSeq(ns: seq<Node>): seq<Inst>
    decreases ns, 1
  {
    if ns == [] then [] else Flat(ns[0]) + FlatSeq(ns[1..])
  }

  predicate Throws(insts: seq<Inst>) {
    exists i :: i in insts && MayThrow(i)
  }

  function OrElse<T>(a: Option<T>, b: Option<T>): Option<T> {
    if a.Some? then a else b
  }

  // The expression of the first return statement met by the walk.
  function FirstReturn(n: Node): Option<Node>
    decreases n, 0
  {
    match n
    case Expr(kids, _, _) => FirstReturnSeq(kids)
    case ExprStmt(e) => FirstReturn(e)
    case Block(stmts) => FirstReturnSeq(stmts)
    case If(c, t, f) => OrElse(FirstReturn(c), OrElse(FirstReturn(t), FirstReturn(f)))
    case Switch(v, _, bodies) => OrElse(FirstReturn(v), FirstReturnSeq(bodies))
    case Return(e) => Some(e)
    case Goto(_) => None
    case LabelDef(_) => None
    case Defer(u, d) => OrElse(FirstReturn(u), FirstReturn(d))
    case Excep(b, c, f) => OrElse(FirstReturn(b), FirstReturn(c))
  }

  function FirstReturnSeq(ns: seq<Node>): Option<Node>
    decreases ns, 1
  {
    if ns == [] then None else OrElse(FirstReturn(ns[0]), FirstReturnSeq(ns[1..]))
  }

  // Every return statement of the tree runs exactly the instructions `ops`.
  predicate UniformReturns(n: Node, ops: seq<Inst>)
    decreases n, 0
  {
    match n
    case Expr(kids, _, _) => UniformReturnsSeq(kids, ops)
    case ExprStmt(e) => UniformReturns(e, ops)
    case Block(stmts) => UniformReturnsSeq(stmts, ops)
    case If(c, t, f) => UniformReturns(c, ops) && UniformReturns(t, ops) && UniformReturns(f, ops)
    case Switch(v, _, bodies) => UniformReturns(v, ops) && UniformReturnsSeq(bodies, ops)
    case Return(e) => Flat(e) == ops
    case Goto(_) => true
    case LabelDef(_) => true
    case Defer(u, d) => UniformReturns(u, ops) && UniformReturns(d, ops)
    case Excep(b, c, _) => UniformReturns(b, ops) && UniformReturns(c, ops)
  }

  predicate UniformReturnsSeq(ns: seq<Node>, ops: seq<Inst>)
    decreases ns, 1
  {
    ns == [] || (UniformReturns(ns[0], ops) && UniformReturnsSeq(ns[1..], ops))
  }

  // ----- where the walk of a tree ends -----

  // Nowhere (dead code), in the block it started in, or in some other block.
  datatype Pos = Dead | Start | Moved

  function EndInsts(insts: seq<Inst>, p: Pos, pad: bool): Pos {
    if p != Dead && pad && Throws(insts) then Moved else p
  }

  // `pad` says whether calls are rewritten into calls that may land in an exception block.
  function End(n: Node, p: Pos, pad: bool): Pos
    decreases n, 0
  {
    match n
    case Expr(kids, insts, _) => EndInsts(insts, EndSeq(kids, p, pad), pad)
    case ExprStmt(e) => End(e, p, pad)
    case Block(stmts) => EndSeq(stmts, p, pad)
    case If(_, _, _) => Moved
    case Switch(_, _, _) => Moved
    case Return(_) => Dead
    case Goto(_) => Dead
    case LabelDef(_) => Moved
    case Defer(_, _) => Moved
    case Excep(_, _, f) => End(f, Moved, false)
  }

  function EndSeq(ns: seq<Node>, p: Pos, pad: bool): Pos
    decreases ns, 1
  {
    if ns == [] then p else EndSeq(ns[1..], End(ns[0], p, pad), pad)
  }

  // ----- what the lowering asks of its input -----

  // `pad`: inside a protected region; `fin`: returns are to be delayed past a finally clause;
  // `tail`: nothing of the function follows this node.
  predicate Wf(n: Node, p: Pos, pad: bool, fin: bool, tail: bool)
    decreases n, 0
  {
    match n
    case Expr(kids, insts, _) => WfSeq(kids, p, pad, fin, false) && Ret !in insts
    case ExprStmt(e) => e.Expr? && Wf(e, p, pad, fin, false)
    case Block(stmts) => WfSeq(stmts, p, pad, fin, tail)
    case If(c, t, f) =>
      && c.Expr? && Wf(c, p, pad, fin, false) && End(c, p, pad) != Dead
      && Wf(t, Start, pad, fin, false) && Wf(f, Start, pad, fin, false)
      && Defs(c) !! Defs(t) && Defs(c) !! Defs(f) && Defs(t) !! Defs(f)
    case Switch(v, vals, bodies) =>
      && v.Expr? && Wf(v, p, pad, fin, false) && End(v, p, pad) != Dead
      && |vals| == |bodies| && WfBodies(bodies, pad, fin)
      && (forall i, j :: 0 <= i < j < |vals| ==> vals[i] != [] || vals[j] != [])
      && Defs(v) !! DefsSeq(bodies)
    case Return(e) => ReturnExpr(e) && (if fin then p != Dead else !pad)
    case Goto(_) => true
    case LabelDef(_) => true
    case Defer(u, d) => PlainExpr(u) && PlainExpr(d) && (pad ==> !Throws(Flat(d)))
    case Excep(b, c, f) =>
      && tail && !pad && !fin
      && Wf(b, p, true, true, false) && Wf(c, Start, true, true, false) && Wf(f, Moved, false, false, false)
      && Defs(b) !! Defs(c) && Defs(b) !! Defs(f) && Defs(c) !! Defs(f)
      && (FirstReturn(n).Some? ==>
            var ops := Flat(FirstReturn(n).value); UniformReturns(b, ops) && UniformReturns(c, ops))
  }

  predicate WfSeq(ns: seq<Node>, p: Pos, pad: bool, fin: bool, tail: bool)
    decreases ns, 1
  {
    ns == [] ||
    (&& Wf(ns[0], p, pad, fin, tail && |ns| == 1)
     && WfSeq(ns[1..], End(ns[0], p, pad), pad, fin, tail)
     && Defs(ns[0]) !! DefsSeq(ns[1..]))
  }

  predicate WfBodies(ns: seq<Node>, pad: bool, fin: bool)
    decreases ns, 1
  {
    ns == [] ||
    (Wf(ns[0], Start, pad, fin, false) && WfBodies(ns[1..], pad, fin) && Defs(ns[0]) !! DefsSeq(ns[1..]))
  }

  predicate PlainExpr(n: Node) {
    Simple(n) && Ret !in Flat(n)
  }

  // The expression of a return statement computes the result and ends in the return instruction.
  predicate ReturnExpr(e: Node) {
    Simple(e) && e.insts != [] && e.insts[|e.insts| - 1] == Ret
    && Ret !in FlatSeq(e.kids) && Ret !in e.insts[..|e.insts| - 1]
  }

  // No switch case falls out of a block other than the one it started in.
  predicate SafeSwitches(n: Node, pad: bool)
    decreases n, 0
  {
    match n
    case Expr(kids, _, _) => SafeSwitchesSeq(kids, pad)
    case ExprStmt(e) => SafeSwitches(e, pad)
    case Block(stmts) => SafeSwitchesSeq(stmts, pad)
    case If(c, t, f) => SafeSwitches(c, pad) && SafeSwitches(t, pad) && SafeSwitches(f, pad)
    case Switch(v, _, bodies) => SafeSwitches(v, pad) && SafeBodies(bodies, pad)
    case Return(_) => true
    case Goto(_) => true
    case LabelDef(_) => true
    case Defer(_, _) => true
    case Excep(b, c, f) => SafeSwitches(b, true) && SafeSwitches(c, true) && SafeSwitches(f, false)
  }

  predicate SafeSwitchesSeq(ns: seq<Node>, pad: bool)
    decreases ns, 1
  {
    ns == [] || (SafeSwitches(ns[0], pad) && SafeSwitchesSeq(ns[1..], pad))
  }

  predicate SafeBodies(ns: seq<Node>, pad: bool)
    decreases ns, 1
  {
    ns == [] ||
    (SafeSwitches(ns[0], pad) && End(ns[0], Start, pad) != Moved && SafeBodies(ns[1..], pad))
  }

  // ----- meaning -----

  datatype Event = Did(i: Inst) | Threw(i: Inst)

  type Hist = seq<Event>

  // The environment answers every data-dependent question from what has run so far.
  datatype Env = Env(
    throws: (Inst, Hist) -> bool,
    test: (int, Hist) -> bool,
    choose: (int, Hist) -> int)

  datatype Out =
    | Normal(h: Hist)                      // control falls off the end of the node
    | Jump(l: Label, h: Hist)              // a goto was taken
    | Returning(ops: seq<Inst>, h: Hist)   // a return that waits for a finally clause; `ops` still to run
    | Returned(h: Hist)
    | Thrown(h: Hist)
    | OutOfFuel(h: Hist)

  ghost function ExecInsts(e: Env, insts: seq<Inst>, h: Hist): Out {
    if insts == [] then Normal(h)
    else if insts[0].Ret? then Returned(h + [Did(Ret)])
    else if MayThrow(insts[0]) && e.throws(insts[0], h) then Thrown(h + [Threw(insts[0])])
    else ExecInsts(e, insts[1..], h + [Did(insts[0])])
  }

  // Is the node to be run from its start, or from a label inside it?
  predicate From(at: Option<Label>, n: Node) {
    at.None? || at.value in Defs(n)
  }

  predicate FromSeq(at: Option<Label>, ns: seq<Node>) {
    at.None? || at.value in DefsSeq(ns)
  }

  // The index of the first case that lists x; failing that, of the default case; failing that, |vals|.
  function Pick(vals: seq<seq<int>>, x: int): (k: nat)
    ensures k <= |vals|
  {
    if exists i :: 0 <= i < |vals| && x in vals[i] then FirstCase(vals, x) else DefaultCase(vals)
  }

  function FirstCase(vals: seq<seq<int>>, x: int): (k: nat)
    ensures k <= |vals|
    ensures k < |vals| ==> x in vals[k]
    ensures forall i :: 0 <= i < k ==> x !in vals[i]
  {
    if vals == [] || x in vals[0] then 0 else 1 + FirstCase(vals[1..], x)
  }

  function DefaultCase(vals: seq<seq<int>>): (k: nat)
    ensures k <= |vals|
    ensures k < |vals| ==> vals[k] == []
    ensures forall i :: 0 <= i < k ==> vals[i] != []
  {
    if vals == [] || vals[0] == [] then 0 else 1 + DefaultCase(vals[1..])
  }

  // The index of the body that holds label l.
  function Holder(bodies: seq<Node>, l: Label): (k: nat)
    ensures k <= |bodies|
    ensures l in DefsSeq(bodies) ==> k < |bodies| && l in Defs(bodies[k])
  {
    if bodies == [] || l in Defs(bodies[0]) then 0 else 1 + Holder(bodies[1..], l)
  }

  // Runs node n from its start (at == None) or from the label at.value inside it.
  // `delay` says that returns wait for an enclosing finally clause. Fuel bounds the number
  // of times the defer loop goes round.
  ghost function Exec(e: Env, n: Node, at: Option<Label>, delay: bool, h: Hist, fuel: nat): Out
    requires From(at, n)
    decreases fuel, n, 0
  {
    match n
    case Expr(kids, insts, _) =>
      if at.None? || at.value in DefsSeq(kids) then
        var o := ExecSeq(e, kids, at, delay, h, fuel);
        if o.Normal? then ExecInsts(e, insts, o.h) else o
      else Normal(h)
    case ExprStmt(x) => Exec(e, x, at, delay, h, fuel)
    case Block(stmts) => ExecSeq(e, stmts, at, delay, h, fuel)
    case If(c, t, f) =>
      if From(at, c) then
        var o := Exec(e, c, at, delay, h, fuel);
        if !o.Normal? || !c.Expr? then o
        else if e.test(c.value, o.h) then Exec(e, t, None, delay, o.h, fuel)
        else Exec(e, f, None, delay, o.h, fuel)
      else if From(at, t) then Exec(e, t, at, delay, h, fuel)
      else Exec(e, f, at, delay, h, fuel)
    case Switch(v, vals, bodies) =>
      if From(at, v) then
        var o := Exec(e, v, at, delay, h, fuel);
        if !o.Normal? || !v.Expr? then o
        else
          var k := Pick(vals, e.choose(v.value, o.h));
          if k < |bodies| then Exec(e, bodies[k], None, delay, o.h, fuel) else o
      else
        var k := Holder(bodies, at.value);
        Exec(e, bodies[k], at, delay, h, fuel)
    case Return(x) =>
      if at.Some? then Exec(e, x, at, delay, h, fuel)
      else if delay then Returning(Flat(x), h)
      else Exec(e, x, None, delay, h, fuel)
    case Goto(l) => Jump(l, h)
    case LabelDef(_) => Normal(h)
    case Defer(u, d) =>
      var o := if From(at, u) then Exec(e, u, at, delay, h, fuel) else Exec(e, d, at, delay, h, fuel);
      if From(at, u) && !o.Thrown? then o
      else
        var o2 := if From(at, u) then Exec(e, d, None, delay, o.h, fuel) else o;
        if !o2.Normal? then o2
        else if fuel == 0 then OutOfFuel(o2.h)
        else Exec(e, n, None, delay, o2.h, fuel - 1)
    case Excep(b, c, f) =>
      if From(at, b) then
        var o := Exec(e, b, at, true, h, fuel);
        if o.Thrown? then ExecFinally(e, n, Exec(e, c, None, true, o.h, fuel), fuel)
        else ExecFinally(e, n, o, fuel)
      else if From(at, c) then ExecFinally(e, n, Exec(e, c, at, true, h, fuel), fuel)
      else AfterFinally(e, n, None, Exec(e, f, at, false, h, fuel))
  }

  ghost function ExecSeq(e: Env, ns: seq<Node>, at: Option<Label>, delay: bool, h: Hist, fuel: nat): Out
    requires FromSeq(at, ns)
    decreases fuel, ns, 1
  {
    if ns == [] then Normal(h)
    else if From(at, ns[0]) then
      var o := Exec(e, ns[0], at, delay, h, fuel);
      if o.Normal? then ExecSeq(e, ns[1..], None, delay, o.h, fuel) else o
    else ExecSeq(e, ns[1..], at, delay, h, fuel)
  }

  // What follows once the protected part of the try statement n has come to `o`. Here and below the
  // statement is given the meaning its code has: an exception of the catch code is dropped. What it
  // is meant to do, and when that is the same, is in TryMeaning.dfy.
  ghost function ExecFinally(e: Env, n: Node, o: Out, fuel: nat): Out
    requires n.Excep?
    decreases fuel, n.fin, 2
  {
    if o.Normal? || o.Returning? || o.Thrown? then
      AfterFinally(e, n, if o.Returning? then Some(o.ops) else None, Exec(e, n.fin, None, false, o.h, fuel))
    else o
  }

  // After the finally code came to `o`: a waiting return completes. When the protected part ended
  // otherwise but holds a return statement, the first of them is carried out all the same.
  ghost function AfterFinally(e: Env, n: Node, waiting: Option<seq<Inst>>, o: Out): Out {
    if !o.Normal? then o
    else if waiting.Some? then ExecInsts(e, waiting.value, o.h)
    else if FirstReturn(n).Some? then ExecInsts(e, Flat(FirstReturn(n).value), o.h)
    else o
  }

  datatype Ending = FellOff | Left | Unwound

  datatype Final = Done(how: Ending, h: Hist) | Unfinished(h: Hist)

  // A whole run of a function body: gotos resume at their label, fuel bounds how many are taken.
  ghost function Run(e: Env, n: Node, at: Option<Label>, h: Hist, fuel: nat): Final
    requires From(at, n)
    decreases fuel
  {
    match Exec(e, n, at, false, h, fuel)
    case Normal(h') => Done(FellOff, h')
    case Returned(h') => Done(Left, h')
    case Returning(_, h') => Done(Left, h')
    case Thrown(h') => Done(Unwound, h')
    case OutOfFuel(h') => Unfinished(h')
    case Jump(l, h') =>
      if fuel == 0 || l !in Defs(n) then Unfinished(h') else Run(e, n, Some(l), h', fuel - 1)
  }
}
