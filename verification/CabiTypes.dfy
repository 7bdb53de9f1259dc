/** Go types as trees of sizes and alignments, and how they are laid out in memory. */
module CabiTypes {
  datatype Kind = Integer(unsigned: bool) | Float | Pointer

  datatype Ty =
    | Scalar(kind: Kind, size: nat)
    | Struct(fields: seq<Ty>)
    | Array(elem: Ty, count: nat)

  // A scalar inside a type, with the offset it is stored at.
  datatype Leaf = Leaf(ty: Ty, off: nat)

  predicate ValidScalar(k: Kind, size: nat) {
    match k
    case Integer(_) => size in {1, 2, 4, 8}
    case Float => size in {4, 8}
    case Pointer => size == 8
  }

  predicate Valid(t: Ty)
    decreases t, 0
  {
    match t
    case Scalar(k, s) => ValidScalar(k, s)
    case Struct(fs) => ValidSeq(fs)
    case Array(e, _) => Valid(e)
  }

  predicate ValidSeq(fs: seq<Ty>)
    decreases fs, 1
  {
    fs == [] || (Valid(fs[0]) && ValidSeq(fs[1..]))
  }

  function Max(a: nat, b: nat): nat {
    if a < b then b else a
  }

  predicate PowerTo8(a: nat) {
    a == 1 || a == 2 || a == 4 || a == 8
  }

  // The next multiple of a.
  function Up(x: nat, a: nat): nat {
    if a == 0 || x % a == 0 then x else x + a - x % a
  }

  lemma UpFactsOf(x: nat)
    ensures Up(x, 1) == x && x <= Up(x, 2) < x + 2 && x <= Up(x, 4) < x + 4 && x <= Up(x, 8) < x + 8
    ensures Up(x, 2) % 2 == 0 && Up(x, 4) % 4 == 0 && Up(x, 8) % 8 == 0
  {
    UpTo2(x);
    UpTo4(x);
    UpTo8(x);
  }

  lemma UpTo2(x: nat)
    ensures x <= Up(x, 2) < x + 2 && Up(x, 2) % 2 == 0
  {
  }

  lemma UpTo4(x: nat)
    ensures x <= Up(x, 4) < x + 4 && Up(x, 4) % 4 == 0
  {
  }

  lemma UpTo8(x: nat)
    ensures x <= Up(x, 8) < x + 8 && Up(x, 8) % 8 == 0
  {
  }

  lemma UpFacts(x: nat, a: nat)
    requires PowerTo8(a)
    ensures Up(x, a) % a == 0 && x <= Up(x, a) < x + a
  {
    hide Up;
    UpFactsOf(x);
  }

  lemma UpStays2(x: nat, y: nat)
    requires x <= y <= Up(x, 2)
    ensures Up(y, 2) == Up(x, 2)
  {
  }

  lemma UpStays4(x: nat, y: nat)
    requires x <= y <= Up(x, 4)
    ensures Up(y, 4) == Up(x, 4)
  {
  }

  lemma UpStays8(x: nat, y: nat)
    requires x <= y <= Up(x, 8)
    ensures Up(y, 8) == Up(x, 8)
  {
  }

  lemma UpMonotone(x: nat, y: nat, a: nat)
    requires PowerTo8(a) && x <= y <= Up(x, a)
    ensures Up(y, a) == Up(x, a)
  {
    hide Up;
    if a == 1 {
      UpFacts(x, 1);
    } else if a == 2 {
      UpStays2(x, y);
    } else if a == 4 {
      UpStays4(x, y);
    } else {
      UpStays8(x, y);
    }
  }

  lemma UpDoubles(x: nat)
    ensures x <= Up(x, 1) <= Up(x, 2) <= Up(x, 4) <= Up(x, 8)
  {
  }

  lemma UpLess(x: nat, a: nat, b: nat)
    requires PowerTo8(a) && PowerTo8(b) && a <= b
    ensures Up(x, a) <= Up(x, b)
  {
    hide Up;
    UpDoubles(x);
  }

  function Align(t: Ty): (a: nat)
    ensures Valid(t) ==> PowerTo8(a)
    decreases t, 0
  {
    match t
    case Scalar(_, s) => s
    case Struct(fs) => AlignSeq(fs)
    case Array(e, _) => Align(e)
  }

  function AlignSeq(fs: seq<Ty>): (a: nat)
    ensures ValidSeq(fs) ==> PowerTo8(a)
    decreases fs, 1
  {
    if fs == [] then 1 else Max(Align(fs[0]), AlignSeq(fs[1..]))
  }

  // The allocation size: the distance between successive objects of the type.
  function SizeOf(t: Ty): nat
    decreases t, 0
  {
    match t
    case Scalar(_, s) => s
    case Struct(fs) => Up(EndOf(fs, 0), AlignSeq(fs))
    case Array(e, n) => n * SizeOf(e)
  }

  // Where the fields end that are laid out from `pos` on.
  function EndOf(fs: seq<Ty>, pos: nat): nat
    decreases fs, 1
  {
    if fs == [] then pos else EndOf(fs[1..], Up(pos, Align(fs[0])) + SizeOf(fs[0]))
  }

  // The offset of field k of a struct.
  function FieldOffset(fs: seq<Ty>, k: nat): nat
    requires k < |fs|
  {
    Up(EndOf(fs[..k], 0), Align(fs[k]))
  }

  // The scalars of a type stored at `off`, in the order of its fields and elements.
  function Leaves(t: Ty, off: nat): seq<Leaf>
    decreases t, 0
  {
    match t
    case Scalar(_, _) => [Leaf(t, off)]
    case Struct(fs) => LeavesSeq(fs, 0, off)
    case Array(e, n) => LeavesArray(e, n, off)
  }

  function LeavesSeq(fs: seq<Ty>, pos: nat, off: nat): seq<Leaf>
    decreases fs, 1
  {
    if fs == [] then []
    else
      var o := Up(pos, Align(fs[0]));
      Leaves(fs[0], off + o) + LeavesSeq(fs[1..], o + SizeOf(fs[0]), off)
  }

  function LeavesArray(e: Ty, n: nat, off: nat): seq<Leaf>
    decreases e, n + 1
  {
    if n == 0 then [] else LeavesArray(e, n - 1, off) + Leaves(e, off + (n - 1) * SizeOf(e))
  }

  // ----- layout -----

  // A leaf is a scalar at a multiple of its size.
  predicate Placed(l: Leaf) {
    l.ty.Scalar? && ValidScalar(l.ty.kind, l.ty.size) && l.off % l.ty.size == 0
  }

  // The leaves lie in order between lo and hi without overlapping, and no gap goes beyond the next
  // multiple of a.
  predicate Tight(lo: nat, ls: seq<Leaf>, hi: nat, a: nat)
    decreases ls
  {
    if ls == [] then lo <= hi <= Up(lo, a)
    else Placed(ls[0]) && lo <= ls[0].off <= Up(lo, a) && Tight(ls[0].off + ls[0].ty.size, ls[1..], hi, a)
  }

  lemma {:induction false} TightOrder(lo: nat, ls: seq<Leaf>, hi: nat, a: nat)
    requires Tight(lo, ls, hi, a)
    ensures lo <= hi
    decreases ls
  {
    if ls != [] { TightOrder(ls[0].off + ls[0].ty.size, ls[1..], hi, a); }
  }

  // Padding before.
  lemma TightShift(lo: nat, mid: nat, ls: seq<Leaf>, hi: nat, a: nat)
    requires PowerTo8(a) && lo <= mid <= Up(lo, a) && Tight(mid, ls, hi, a)
    ensures Tight(lo, ls, hi, a)
  {
    UpMonotone(lo, mid, a);
    TightOrder(mid, ls, hi, a);
  }

  lemma {:induction false} TightAppend(lo: nat, xs: seq<Leaf>, mid: nat, ys: seq<Leaf>, hi: nat, a: nat)
    requires PowerTo8(a) && Tight(lo, xs, mid, a) && Tight(mid, ys, hi, a)
    ensures Tight(lo, xs + ys, hi, a)
    decreases xs
  {
    hide Up;
    if xs == [] {
      assert xs + ys == ys;
      TightOrder(mid, ys, hi, a);
      TightShift(lo, mid, ys, hi, a);
    } else {
      assert (xs + ys)[1..] == xs[1..] + ys;
      TightAppend(xs[0].off + xs[0].ty.size, xs[1..], mid, ys, hi, a);
    }
  }

  lemma Add2(x: nat, y: nat)
    requires x % 2 == 0
    ensures (x + y) % 2 == y % 2
  {
    var q, r := x / 2, y / 2;
    assert x + y == 2 * (q + r) + y % 2;
  }

  lemma Add4(x: nat, y: nat)
    requires x % 4 == 0
    ensures (x + y) % 4 == y % 4
  {
    var q, r := x / 4, y / 4;
    assert x + y == 4 * (q + r) + y % 4;
  }

  lemma Add8(x: nat, y: nat)
    requires x % 8 == 0
    ensures (x + y) % 8 == y % 8
  {
    var q, r := x / 8, y / 8;
    assert x + y == 8 * (q + r) + y % 8;
  }

  lemma ModAdd(x: nat, y: nat, a: nat)
    requires PowerTo8(a) && x % a == 0
    ensures (x + y) % a == y % a
  {
    if a == 2 {
      Add2(x, y);
    } else if a == 4 {
      Add4(x, y);
    } else if a == 8 {
      Add8(x, y);
    }
  }

  lemma Half4(x: nat)
    requires x % 4 == 0
    ensures x % 2 == 0
  {
    var m := 2 * (x / 4);
    assert x == m + m;
  }

  lemma Half8(x: nat)
    requires x % 8 == 0
    ensures x % 4 == 0
  {
    var m := 2 * (x / 8);
    assert x == m + m + m + m;
  }

  lemma Divides(x: nat, a: nat, b: nat)
    requires PowerTo8(a) && PowerTo8(b) && a <= b && x % b == 0
    ensures x % a == 0
  {
    if b == 8 && a < 8 {
      Half8(x);
      if a == 2 { Half4(x); }
    } else if b == 4 && a == 2 {
      Half4(x);
    }
  }

  lemma AddUp(off: nat, pos: nat, a: nat, b: nat)
    requires PowerTo8(a) && PowerTo8(b) && a <= b && off % a == 0
    ensures (off + Up(pos, a)) % a == 0
    ensures off + Up(pos, a) == Up(off + pos, a)
    ensures off + pos <= off + Up(pos, a) <= Up(off + pos, b)
  {
    ModAdd(off, pos, a);
    UpFacts(pos, a);
    ModAdd(off, Up(pos, a), a);
    UpFacts(off + pos, a);
    UpLess(off + pos, a, b);
  }

  lemma SizeAligned(t: Ty)
    requires Valid(t)
    ensures SizeOf(t) % Align(t) == 0
    decreases t
  {
    match t
    case Scalar(_, _) =>
    case Struct(fs) => UpFacts(EndOf(fs, 0), AlignSeq(fs));
    case Array(e, n) =>
      SizeAligned(e);
      MulMod(n, SizeOf(e), Align(e));
  }

  lemma {:induction false} MulMod(n: nat, s: nat, a: nat)
    requires PowerTo8(a) && s % a == 0
    ensures n * s % a == 0
    decreases n
  {
    if n > 0 {
      MulMod(n - 1, s, a);
      assert n * s == (n - 1) * s + s;
      ModAdd((n - 1) * s, s, a);
    }
  }

  lemma ScalarTight(t: Ty, off: nat, a: nat)
    requires t.Scalar? && Valid(t) && off % t.size == 0 && PowerTo8(a)
    ensures Tight(off, Leaves(t, off), off + SizeOf(t), a)
  {
    assert Leaves(t, off)[1..] == [];
    UpFacts(off, a);
    UpFacts(off + t.size, a);
  }

  // A type stored at a multiple of its alignment is laid out tightly: no padding goes beyond the
  // next multiple of the alignment.
  lemma {:induction false} TypeTight(t: Ty, off: nat, a: nat)
    requires Valid(t) && off % Align(t) == 0 && PowerTo8(a) && Align(t) <= a
    ensures Tight(off, Leaves(t, off), off + SizeOf(t), a)
    decreases t, 0
  {
    hide Up, Placed;
    match t
    case Scalar(k, s) => ScalarTight(t, off, a);
    case Struct(fs) =>
      FieldsTight(fs, 0, off, Align(t), a);
      TightUp(off, LeavesSeq(fs, 0, off), off, EndOf(fs, 0), AlignSeq(fs), a);
    case Array(e, n) => ElemsTight(e, n, off, a);
  }

  lemma {:induction false} FieldsTight(fs: seq<Ty>, pos: nat, off: nat, b: nat, a: nat)
    requires ValidSeq(fs) && PowerTo8(b) && PowerTo8(a) && AlignSeq(fs) <= b <= a && off % b == 0
    ensures Tight(off + pos, LeavesSeq(fs, pos, off), off + EndOf(fs, pos), a)
    decreases fs, 1
  {
    hide Up, Tight;
    if fs == [] {
      TightNone(off + pos, a);
    } else {
      var f := fs[0];
      Divides(off, Align(f), b);
      AddUp(off, pos, Align(f), a);
      var o := Up(pos, Align(f));
      TypeTight(f, off + o, a);
      TightShift(off + pos, off + o, Leaves(f, off + o), off + o + SizeOf(f), a);
      FieldsTight(fs[1..], o + SizeOf(f), off, b, a);
      TightAppend(off + pos, Leaves(f, off + o), off + o + SizeOf(f), LeavesSeq(fs[1..], o + SizeOf(f), off),
        off + EndOf(fs, pos), a);
    }
  }

  lemma TightNone(lo: nat, a: nat)
    ensures Tight(lo, [], lo, a)
  {
  }

  // Padding after.
  lemma {:induction false} TightUp(lo: nat, ls: seq<Leaf>, off: nat, end: nat, b: nat, a: nat)
    requires PowerTo8(b) && PowerTo8(a) && b <= a && off % b == 0 && Tight(lo, ls, off + end, a)
    ensures Tight(lo, ls, off + Up(end, b), a)
    decreases ls
  {
    if ls == [] {
      AddUp(off, end, b, a);
      UpMonotone(lo, off + end, a);
    } else {
      TightUp(ls[0].off + ls[0].ty.size, ls[1..], off, end, b, a);
    }
  }

  lemma {:induction false} ElemsTight(e: Ty, n: nat, off: nat, a: nat)
    requires Valid(e) && off % Align(e) == 0 && PowerTo8(a) && Align(e) <= a
    ensures Tight(off, LeavesArray(e, n, off), off + n * SizeOf(e), a)
    decreases e, n + 1
  {
    hide Up, Tight;
    if n == 0 {
      TightNone(off, a);
    } else {
      ElemsTight(e, n - 1, off, a);
      SizeAligned(e);
      MulMod(n - 1, SizeOf(e), Align(e));
      ModAdd(off, (n - 1) * SizeOf(e), Align(e));
      TypeTight(e, off + (n - 1) * SizeOf(e), a);
      assert off + (n - 1) * SizeOf(e) + SizeOf(e) == off + n * SizeOf(e);
      TightAppend(off, LeavesArray(e, n - 1, off), off + (n - 1) * SizeOf(e), Leaves(e, off + (n - 1) * SizeOf(e)),
        off + n * SizeOf(e), a);
    }
  }

  lemma {:induction false} EndOfTake(fs: seq<Ty>, k: nat, pos: nat)
    requires k < |fs|
    ensures EndOf(fs[..k + 1], pos) == Up(EndOf(fs[..k], pos), Align(fs[k])) + SizeOf(fs[k])
    decreases k
  {
    if k == 0 {
      assert fs[..1][1..] == [] && fs[..1][0] == fs[0];
    } else {
      EndOfTake(fs[1..], k - 1, Up(pos, Align(fs[0])) + SizeOf(fs[0]));
      assert fs[1..][..k - 1] == fs[..k][1..];
      assert fs[1..][..k] == fs[..k + 1][1..];
    }
  }

  // ----- no padding that no scalar asks for -----

  // The size of the largest scalar inside.
  function Widest(t: Ty): nat
    decreases t, 0
  {
    match t
    case Scalar(_, s) => s
    case Struct(fs) => WidestSeq(fs)
    case Array(e, n) => if n == 0 then 1 else Widest(e)
  }

  function WidestSeq(fs: seq<Ty>): nat
    decreases fs, 1
  {
    if fs == [] then 1 else Max(Widest(fs[0]), WidestSeq(fs[1..]))
  }

  // No member without bytes raises the alignment of the type.
  predicate Plain(t: Ty) {
    Align(t) == Widest(t)
  }

  lemma {:induction false} WidestLeaf(t: Ty, off: nat) returns (k: nat)
    requires Widest(t) > 1
    ensures k < |Leaves(t, off)| && Leaves(t, off)[k].ty.Scalar? && Leaves(t, off)[k].ty.size == Widest(t)
    decreases t, 0
  {
    match t
    case Scalar(_, _) => k := 0;
    case Struct(fs) => k := WidestLeafSeq(fs, 0, off);
    case Array(e, n) =>
      var o := off + (n - 1) * SizeOf(e);
      k := WidestLeaf(e, o);
      k := k + |LeavesArray(e, n - 1, off)|;
  }

  lemma {:induction false} WidestLeafSeq(fs: seq<Ty>, pos: nat, off: nat) returns (k: nat)
    requires WidestSeq(fs) > 1
    ensures var ls := LeavesSeq(fs, pos, off); k < |ls| && ls[k].ty.Scalar? && ls[k].ty.size == WidestSeq(fs)
    decreases fs, 1
  {
    var o := Up(pos, Align(fs[0]));
    if Widest(fs[0]) == WidestSeq(fs) {
      k := WidestLeaf(fs[0], off + o);
    } else {
      k := WidestLeafSeq(fs[1..], o + SizeOf(fs[0]), off);
      k := k + |Leaves(fs[0], off + o)|;
    }
  }
}
