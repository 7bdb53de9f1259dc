/** Chains of address, indirection, field and index operators over a local variable, or over a value that
    is already there, such as the result of a call. Whether a chain over a variable is wanted for its
    address or for its value is known only to its consumer, so loads are put off: each expression carries
    a context that says what is pending. */
module VarContexts {
  import opened Wrappers

  datatype Ty =
    | Scalar(size: nat)
    | Ptr(to: Ty)
    | Struct(fields: seq<Ty>, offsets: seq<int>)
    | Array(elem: Ty, stride: nat)

  // ----- code -----

  // Memory holds a word at every address; every variable has an address, and every call its result.
  datatype Machine = Machine(mem: int -> int, at: int -> int, result: int -> int)

  // The code of an expression: the address of a variable, the result of a call, a load, or an offset.
  datatype Code = Base(x: int) | Result(call: int) | Load(v: Code) | Offset(v: Code, off: int)

  function Eval(m: Machine, v: Code): int {
    match v
    case Base(x) => m.at(x)
    case Result(call) => m.result(call)
    case Load(w) => m.mem(Eval(m, w))
    case Offset(w, off) => Eval(m, w) + off
  }

  function Loads(v: Code): nat {
    match v
    case Base(_) => 0
    case Result(_) => 0
    case Load(w) => 1 + Loads(w)
    case Offset(w, _) => Loads(w)
  }

  // ----- chains, and what they mean -----

  datatype Chain =
    | Var(x: int, ty: Ty)
    | Held(v: Code, ty: Ty)  // computed already: nothing is pending
    | Addr(e: Chain)
    | Deref(e: Chain)
    | Field(e: Chain, i: nat)
    | Index(e: Chain, k: int)

  // A chain on a value computed already.
  predicate Settled(c: Chain) {
    match c
    case Var(_, _) => false
    case Held(_, _) => true
    case Addr(e) => Settled(e)
    case Deref(e) => Settled(e)
    case Field(e, _) => Settled(e)
    case Index(e, _) => Settled(e)
  }

  // The type of a chain, if it has one. Only what lies in a variable, or is reached from one, has an
  // address to be taken.
  function TypeOf(c: Chain): Option<Ty> {
    match c
    case Var(_, ty) => Some(ty)
    case Held(_, ty) => Some(ty)
    case Addr(e) =>
      var t := TypeOf(e);
      if t.Some? && !e.Addr? && !Settled(e) then Some(Ptr(t.value)) else None
    case Deref(e) =>
      var t := TypeOf(e);
      if t.Some? && t.value.Ptr? then Some(t.value.to) else None
    case Field(e, i) =>
      var t := TypeOf(e);
      if t.Some? && t.value.Struct? && |t.value.offsets| == |t.value.fields| && i < |t.value.fields|
      then Some(t.value.fields[i]) else None
    case Index(e, _) =>
      var t := TypeOf(e);
      if t.Some? && t.value.Array? then Some(t.value.elem) else None
  }

  predicate Typed(c: Chain) {
    TypeOf(c).Some?
  }

  // Where a chain on a variable lies.
  function Place(m: Machine, c: Chain): int
    requires Typed(c) && !c.Addr? && !Settled(c)
    decreases c, 0
  {
    match c
    case Var(x, _) => m.at(x)
    case Deref(e) => Value(m, e)
    case Field(e, i) => Place(m, e) + TypeOf(e).value.offsets[i]
    case Index(e, k) => Place(m, e) + k * TypeOf(e).value.stride
  }

  // A value already computed stands for itself if it is a word, and for the place it lies at if it is a
  // struct or an array; what a pointer that is computed points to is read at once.
  function Word(m: Machine, c: Chain): int
    requires Typed(c) && Settled(c)
  {
    match c
    case Held(v, _) => Eval(m, v)
    case Deref(e) => m.mem(Word(m, e))
    case Field(e, i) => Word(m, e) + TypeOf(e).value.offsets[i]
    case Index(e, k) => Word(m, e) + k * TypeOf(e).value.stride
  }

  function Value(m: Machine, c: Chain): int
    requires Typed(c)
    decreases c, 1
  {
    if Settled(c) then Word(m, c) else if c.Addr? then Place(m, c.e) else m.mem(Place(m, c))
  }

  // ----- the operations, on values -----

  datatype Context = Context(pending: bool, lvalue: bool, addrLevel: nat)
  datatype Low = Low(code: Code, ty: Ty, ctx: Context)
  datatype Position = LvaluePos | RvaluePos

  function Resolved(): Context {
    Context(false, false, 0)
  }

  function VarLow(x: int, ty: Ty, pos: Position): Low {
    Low(Base(x), ty, Context(true, pos.LvaluePos?, 0))
  }

  function HeldLow(v: Code, ty: Ty): Low {
    Low(v, ty, Resolved())
  }

  function AddrLow(l: Low): Low {
    Low(l.code, Ptr(l.ty), Context(true, l.ctx.lvalue, l.ctx.addrLevel + 1))
  }

  function DerefLow(l: Low, ty: Ty): Low {
    if l.ctx.pending && l.ctx.addrLevel != 0 then Low(l.code, ty, Context(true, l.ctx.lvalue, l.ctx.addrLevel - 1))
    else Low(Load(l.code), ty, if l.ctx.pending then l.ctx else Resolved())
  }

  function OffsetLow(l: Low, off: int, ty: Ty): Low {
    Low(Offset(l.code, off), ty, if l.ctx.pending then l.ctx else Resolved())
  }

  function ResolveLow(l: Low, pos: Position): Low {
    if !l.ctx.pending then l
    else if l.ctx.addrLevel == 1 || l.ctx.lvalue || pos.LvaluePos? then l.(ctx := l.ctx.(pending := false))
    else Low(Load(l.code), l.ty, Resolved())
  }

  function Lower(c: Chain, pos: Position): Low
    requires Typed(c)
  {
    match c
    case Var(x, ty) => VarLow(x, ty, pos)
    case Held(v, ty) => HeldLow(v, ty)
    case Addr(e) => AddrLow(Lower(e, pos))
    case Deref(e) => DerefLow(Lower(e, pos), TypeOf(c).value)
    case Field(e, i) => OffsetLow(Lower(e, pos), TypeOf(e).value.offsets[i], TypeOf(c).value)
    case Index(e, k) => OffsetLow(Lower(e, pos), k * TypeOf(e).value.stride, TypeOf(c).value)
  }

  // ----- what is lowered means what the chain means -----

  // On whatever is not pending, the operations act at once: an indirection reads the word at the
  // operand's value, a field or an element lies at an offset from it, and nothing gets pending. An address
  // taken adds no code.
  lemma NotPendingActsAtOnce(m: Machine, l: Low, ty: Ty, off: int, pos: Position)
    requires !l.ctx.pending
    ensures var d := DerefLow(l, ty);
      !d.ctx.pending && Eval(m, d.code) == m.mem(Eval(m, l.code)) && Loads(d.code) == Loads(l.code) + 1
    ensures var d := OffsetLow(l, off, ty);
      !d.ctx.pending && Eval(m, d.code) == Eval(m, l.code) + off && Loads(d.code) == Loads(l.code)
    ensures ResolveLow(l, pos) == l
    ensures AddrLow(l) == Low(l.code, Ptr(l.ty), Context(true, l.ctx.lvalue, l.ctx.addrLevel + 1))
  {
  }

  // The code of a chain computes where it lies; of an address, or on a value computed already, what it
  // is. The pending context says which.
  lemma {:induction false} LoweredMeans(m: Machine, c: Chain, pos: Position)
    requires Typed(c)
    ensures var l := Lower(c, pos);
      && l.ty == TypeOf(c).value
      && l.ctx == (if Settled(c) then Context(false, false, 0)
                   else Context(true, pos.LvaluePos?, if c.Addr? then 1 else 0))
      && Eval(m, l.code) == if c.Addr? || Settled(c) then Value(m, c) else Place(m, c)
    decreases c
  {
    match c
    case Var(_, _) =>
    case Held(_, _) =>
    case Addr(e) => LoweredMeans(m, e, pos);
    case Deref(e) => LoweredMeans(m, e, pos);
    case Field(e, _) => LoweredMeans(m, e, pos);
    case Index(e, _) => LoweredMeans(m, e, pos);
  }

  // Used as the root says it will be, a chain yields its place on the left of an assignment and its
  // value on the right; on a value computed already, that is the same.
  lemma ResolvedMeans(m: Machine, c: Chain, pos: Position)
    requires Typed(c) && (pos.LvaluePos? ==> !c.Addr?)
    ensures var l := ResolveLow(Lower(c, pos), pos);
      && !l.ctx.pending && l.ty == TypeOf(c).value
      && Eval(m, l.code) == if pos.LvaluePos? && !Settled(c) then Place(m, c) else Value(m, c)
  {
    LoweredMeans(m, c, pos);
  }

  // A variable once resolved, or a pointer read out of one, can be gone on from: the chain on the value
  // computed means the chain as a whole.
  lemma GoOnFromResolved(m: Machine, c: Chain)
    requires Typed(c) && TypeOf(c).value.Ptr?
    ensures var l := ResolveLow(Lower(c, RvaluePos), RvaluePos); var d := DerefLow(l, l.ty.to);
      && Typed(Deref(c)) && Typed(Deref(Held(l.code, l.ty)))
      && !d.ctx.pending && Eval(m, d.code) == Value(m, Deref(Held(l.code, l.ty))) == Value(m, Deref(c))
  {
    var l := ResolveLow(Lower(c, RvaluePos), RvaluePos);
    ResolvedMeans(m, c, RvaluePos);
    NotPendingActsAtOnce(m, l, l.ty.to, 0, RvaluePos);
    var h := Held(l.code, l.ty);
    assert Settled(h) && TypeOf(h) == Some(l.ty);
    assert Settled(Deref(h)) && Word(m, Deref(h)) == m.mem(Word(m, h)) == m.mem(Value(m, c));
    if Settled(c) {
      assert Word(m, Deref(c)) == m.mem(Word(m, c));
    } else {
      assert Place(m, Deref(c)) == Value(m, c);
    }
  }

  // An aggregate is handed over by its address, whatever the root says.
  lemma AggregateByAddress(m: Machine, c: Chain, pos: Position)
    requires Typed(c) && !c.Addr? && !Settled(c)
    ensures Eval(m, ResolveLow(Lower(c, pos), LvaluePos).code) == Place(m, c)
  {
    LoweredMeans(m, c, pos);
  }

  // A chain used on the right yields its value on every machine exactly when its root was not marked as
  // being on the left, or is no variable, or the chain is an address.
  lemma RightUseExactly(c: Chain, pos: Position)
    requires Typed(c)
    ensures (forall m: Machine :: Eval(m, ResolveLow(Lower(c, pos), RvaluePos).code) == Value(m, c))
      <==> (c.Addr? || Settled(c) || pos.RvaluePos?)
  {
    forall m: Machine
      ensures c.Addr? || Settled(c) || pos.RvaluePos? ==>
                Eval(m, ResolveLow(Lower(c, pos), RvaluePos).code) == Value(m, c)
    {
      LoweredMeans(m, c, pos);
    }
    if !c.Addr? && !Settled(c) && pos.LvaluePos? {
      var m := Machine((a: int) => a + 1, (x: int) => 0, (x: int) => 0);
      LoweredMeans(m, c, pos);
      assert Eval(m, ResolveLow(Lower(c, pos), RvaluePos).code) == Place(m, c) != Value(m, c);
    }
  }

  // An indirection of an address is lowered to nothing at all.
  lemma StarAmpersandIsNothing(e: Chain, pos: Position)
    requires Typed(e) && !e.Addr? && !Settled(e)
    ensures Typed(Deref(Addr(e))) && Lower(Deref(Addr(e)), pos) == Lower(e, pos)
  {
    LoweredMeans(AnyMachine(), e, pos);
    assert TypeOf(Addr(e)) == Some(Ptr(TypeOf(e).value));
    assert Lower(Addr(e), pos) == AddrLow(Lower(e, pos));
  }

  function AnyMachine(): Machine {
    Machine((a: int) => a, (x: int) => x, (x: int) => x)
  }

  // The indirections that are not of an address, and those already done.
  function Indirections(c: Chain): nat {
    match c
    case Var(_, _) => 0
    case Held(v, _) => Loads(v)
    case Addr(e) => Indirections(e)
    case Deref(e) => Indirections(e) + if e.Addr? then 0 else 1
    case Field(e, _) => Indirections(e)
    case Index(e, _) => Indirections(e)
  }

  // One load for each such indirection, and one more for a value that is pending and no address.
  lemma {:induction false} LoadsAreNeeded(c: Chain, pos: Position)
    requires Typed(c)
    ensures Loads(Lower(c, pos).code) == Indirections(c)
    ensures Loads(ResolveLow(Lower(c, pos), pos).code)
         == Indirections(c) + if c.Addr? || Settled(c) || pos.LvaluePos? then 0 else 1
    decreases c
  {
    LoweredMeans(AnyMachine(), c, pos);
    match c
    case Var(_, _) =>
    case Held(_, _) =>
    case Addr(e) => LoadsAreNeeded(e, pos);
    case Deref(e) =>
      LoweredMeans(AnyMachine(), e, pos);
      LoadsAreNeeded(e, pos);
    case Field(e, _) => LoadsAreNeeded(e, pos);
    case Index(e, _) => LoadsAreNeeded(e, pos);
  }

  // ----- the builders -----

  class VarContext {
    var addrLevel: nat
    var lvalue: bool
    var pending: bool

    ghost function View(): Context
      reads this
    {
      Context(pending, lvalue, addrLevel)
    }

    constructor ()
      ensures View() == Resolved()
    {
      addrLevel, lvalue, pending := 0, false, false;
    }

    method SetPending(lvalue: bool, addrLevel: nat)
      requires !pending
      modifies this
      ensures View() == Context(true, lvalue, addrLevel)
    {
      this.pending := true;
      this.lvalue := lvalue;
      this.addrLevel := addrLevel;
    }

    method Reset()
      requires pending
      modifies this
      ensures View() == old(View()).(pending := false)
    {
      pending := false;
    }
  }

  class Bexpression {
    const code: Code
    const btype: Ty
    const varContext: VarContext

    ghost function View(): Low
      reads varContext
    {
      Low(code, btype, varContext.View())
    }

    constructor (code: Code, btype: Ty)
      ensures this.code == code && this.btype == btype && fresh(varContext) && View() == Low(code, btype, Resolved())
    {
      this.code := code;
      this.btype := btype;
      this.varContext := new VarContext();
    }

    // Takes over the context of an expression that is pending.
    method SetVarExprPending(src: VarContext)
      requires src.pending && !varContext.pending
      modifies varContext
      ensures varContext.View() == old(src.View())
    {
      varContext.SetPending(src.lvalue, src.addrLevel);
    }
  }

  method VarExpression(x: int, ty: Ty, pos: Position) returns (r: Bexpression)
    ensures fresh(r) && fresh(r.varContext) && r.View() == VarLow(x, ty, pos)
  {
    r := new Bexpression(Base(x), ty);
    r.varContext.SetPending(pos.LvaluePos?, 0);
  }

  method AddressExpression(e: Bexpression) returns (r: Bexpression)
    ensures fresh(r) && fresh(r.varContext) && r.View() == AddrLow(e.View())
  {
    r := new Bexpression(e.code, Ptr(e.btype));
    r.varContext.SetPending(e.varContext.lvalue, e.varContext.addrLevel + 1);
  }

  method LoadFromExpr(e: Bexpression, ty: Ty) returns (r: Bexpression)
    ensures fresh(r) && fresh(r.varContext) && r.View() == Low(Load(e.code), ty, Resolved())
  {
    r := new Bexpression(Load(e.code), ty);
  }

  method IndirectExpression(ty: Ty, e: Bexpression) returns (r: Bexpression)
    requires e.btype.Ptr?
    ensures fresh(r) && fresh(r.varContext) && r.View() == DerefLow(e.View(), ty)
  {
    if e.varContext.pending && e.varContext.addrLevel != 0 {
      r := new Bexpression(e.code, ty);
      r.varContext.SetPending(e.varContext.lvalue, e.varContext.addrLevel - 1);
      return;
    }
    r := LoadFromExpr(e, ty);
    if e.varContext.pending {
      r.SetVarExprPending(e.varContext);
    }
  }

  method StructFieldExpression(e: Bexpression, index: nat) returns (r: Bexpression)
    requires e.btype.Struct? && |e.btype.offsets| == |e.btype.fields| && index < |e.btype.fields|
    ensures fresh(r) && fresh(r.varContext) && r.View()
      == OffsetLow(e.View(), e.btype.offsets[index], e.btype.fields[index])
  {
    r := new Bexpression(Offset(e.code, e.btype.offsets[index]), e.btype.fields[index]);
    if e.varContext.pending {
      r.SetVarExprPending(e.varContext);
    }
  }

  method ArrayIndexExpression(e: Bexpression, index: int) returns (r: Bexpression)
    requires e.btype.Array?
    ensures fresh(r) && fresh(r.varContext) && r.View() == OffsetLow(e.View(), index * e.btype.stride, e.btype.elem)
  {
    r := new Bexpression(Offset(e.code, index * e.btype.stride), e.btype.elem);
    if e.varContext.pending {
      r.SetVarExprPending(e.varContext);
    }
  }

  // Either the expression itself, its context cleared in place, or a load from it.
  method ResolveVarContext(e: Bexpression, pos: Position) returns (r: Bexpression)
    requires e.varContext.pending ==> e.varContext.addrLevel == 0 || (e.varContext.addrLevel == 1 && e.btype.Ptr?)
    modifies e.varContext
    ensures r.View() == ResolveLow(old(e.View()), pos)
    ensures !old(e.varContext.pending) ==> r == e
  {
    if e.varContext.pending {
      if e.varContext.addrLevel == 1 || e.varContext.lvalue || pos.LvaluePos? {
        e.varContext.Reset();
        return e;
      }
      r := LoadFromExpr(e, e.btype);
      return;
    }
    return e;
  }

  // Building a typed chain operator by operator comes to its lowering.
  method BuildChain(c: Chain, pos: Position) returns (r: Bexpression)
    requires Typed(c)
    ensures fresh(r) && fresh(r.varContext) && r.View() == Lower(c, pos)
    decreases c
  {
    LoweredMeans(AnyMachine(), c, pos);
    match c
    case Var(x, ty) =>
      r := VarExpression(x, ty, pos);
    case Held(v, ty) =>
      r := new Bexpression(v, ty);
    case Addr(e) =>
      var b := BuildChain(e, pos);
      r := AddressExpression(b);
    case Deref(e) =>
      LoweredMeans(AnyMachine(), e, pos);
      var b := BuildChain(e, pos);
      r := IndirectExpression(b.btype.to, b);
    case Field(e, i) =>
      LoweredMeans(AnyMachine(), e, pos);
      var b := BuildChain(e, pos);
      r := StructFieldExpression(b, i);
    case Index(e, k) =>
      LoweredMeans(AnyMachine(), e, pos);
      var b := BuildChain(e, pos);
      r := ArrayIndexExpression(b, k);
  }
}
