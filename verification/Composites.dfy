/** Composite literals given sparsely, as indexes and values: which element gets which value, and when an
    element is left without any. */
module Composites {
  import opened Wrappers

  // The place of the last occurrence of i among the indexes.
  function LastAt(indexes: seq<nat>, i: nat): (r: Option<nat>)
    ensures r.Some? ==> r.value < |indexes| && indexes[r.value] == i && forall k | r.value < k < |indexes| ::
      indexes[k] != i
    ensures r.None? ==> i !in indexes
    decreases |indexes|
  {
    if indexes == [] then None
    else if indexes[|indexes| - 1] == i then Some(|indexes| - 1)
    else LastAt(indexes[..|indexes| - 1], i)
  }

  // Element i of the composite: the value last given for it, else zero; but when there are as many
  // values as elements no zeros are filled in, and None stands for an element never set.
  function Element<V>(n: nat, indexes: seq<nat>, vals: seq<V>, zero: nat -> V, i: nat): Option<V>
    requires |indexes| == |vals|
  {
    match LastAt(indexes, i)
    case Some(k) => Some(vals[k])
    case None => if n != |vals| then Some(zero(i)) else None
  }

  ghost predicate InRange(n: nat, indexes: seq<nat>) {
    forall k | 0 <= k < |indexes| :: indexes[k] < n
  }

  ghost predicate Distinct(indexes: seq<nat>) {
    forall j, k | 0 <= j < k < |indexes| :: indexes[j] != indexes[k]
  }

  // ----- when every element is set -----

  ghost function Below(n: nat): (s: set<nat>)
    ensures |s| == n && forall i: nat :: i in s <==> i < n
  {
    if n == 0 then {} else Below(n - 1) + {n - 1}
  }

  lemma SubsetSize(a: set<nat>, b: set<nat>)
    requires a <= b
    ensures |a| <= |b| && (|a| == |b| ==> a == b)
  {
    assert b == a + (b - a);
    assert |b| == |a| + |b - a|;
    if |a| == |b| { assert b - a == {}; }
  }

  ghost function Elems(indexes: seq<nat>): set<nat> {
    set k | 0 <= k < |indexes| :: indexes[k]
  }

  // A list has as many different members as entries just when none is repeated.
  lemma {:induction false} ElemsSize(indexes: seq<nat>)
    ensures |Elems(indexes)| <= |indexes|
    ensures |Elems(indexes)| == |indexes| <==> Distinct(indexes)
    decreases |indexes|
  {
    if indexes == [] {
      assert Elems(indexes) == {};
    } else {
      var front, last := indexes[..|indexes| - 1], indexes[|indexes| - 1];
      ElemsSize(front);
      assert Elems(indexes) == Elems(front) + {last} by {
        forall x | x in Elems(indexes)
          ensures x in Elems(front) + {last}
        {
          var k :| 0 <= k < |indexes| && indexes[k] == x;
          if k < |front| { assert front[k] == x; }
        }
        forall x | x in Elems(front) + {last}
          ensures x in Elems(indexes)
        {
          if x in Elems(front) { var k :| 0 <= k < |front| && front[k] == x; assert indexes[k] == x; }
        }
      }
      assert Distinct(indexes) <==> Distinct(front) && last !in Elems(front) by {
        if Distinct(indexes) {
          assert forall k | 0 <= k < |front| :: front[k] == indexes[k];
        }
        if Distinct(front) && last !in Elems(front) {
          assert forall k | 0 <= k < |front| :: indexes[k] == front[k] && front[k] in Elems(front);
        }
      }
      if last in Elems(front) { assert Elems(indexes) == Elems(front); }
    }
  }

  // Every element is set exactly when the counts differ or no index is given twice.
  lemma AllSetExactly<V>(n: nat, indexes: seq<nat>, vals: seq<V>, zero: nat -> V)
    requires |indexes| == |vals| && InRange(n, indexes)
    ensures (forall i | 0 <= i < n :: Element(n, indexes, vals, zero, i).Some?) <==> (n != |vals| || Distinct(indexes))
  {
    if n == |vals| {
      ElemsSize(indexes);
      SubsetSize(Elems(indexes), Below(n));
      assert forall i | 0 <= i < n :: Element(n, indexes, vals, zero, i).Some? <==> i in Elems(indexes);
      if forall i | 0 <= i < n :: i in Elems(indexes) {
        assert Elems(indexes) == Below(n);
      }
    }
  }

  // With distinct indexes every element is the value given for it, or zero.
  lemma DistinctElements<V>(n: nat, indexes: seq<nat>, vals: seq<V>, zero: nat -> V)
    requires |indexes| == |vals| && InRange(n, indexes) && Distinct(indexes)
    ensures forall k | 0 <= k < |vals| :: Element(n, indexes, vals, zero, indexes[k]) == Some(vals[k])
    ensures forall i | 0 <= i < n && i !in indexes :: Element(n, indexes, vals, zero, i) == Some(zero(i))
  {
    AllSetExactly(n, indexes, vals, zero);
    forall k | 0 <= k < |vals|
      ensures LastAt(indexes, indexes[k]) == Some(k)
    {
      var r := LastAt(indexes, indexes[k]);
      assert indexes[k] in indexes;
    }
  }

  lemma LastAtMore(indexes: seq<nat>, k: nat, i: nat)
    requires k < |indexes|
    ensures LastAt(indexes[..k + 1], i) == if indexes[k] == i then Some(k) else LastAt(indexes[..k], i)
  {
    assert indexes[..k + 1][..k] == indexes[..k];
  }

  // The initial values of a composite whose storage is settled later.
  method MakeDelayedCompositeExpr<V>(n: nat, indexes: seq<nat>, vals: seq<V>, zero: nat -> V)
    returns (r: seq<Option<V>>)
    requires |indexes| == |vals| && InRange(n, indexes)
    ensures |r| == n && forall i | 0 <= i < n :: r[i] == Element(n, indexes, vals, zero, i)
  {
    var touched: set<nat> := {};
    var initVals := new Option<V>[n](_ => None);
    for ii := 0 to |indexes|
      invariant n != |vals| ==> forall i: nat | i < n :: i in touched <==> LastAt(indexes[..ii], i).Some?
      invariant forall i | 0 <= i < n ::
                  initVals[i] == match LastAt(indexes[..ii], i) case Some(k) => Some(vals[k]) case None => None
    {
      var idx := indexes[ii];
      forall i: nat
        ensures LastAt(indexes[..ii + 1], i) == if idx == i then Some(ii) else LastAt(indexes[..ii], i)
      {
        LastAtMore(indexes, ii, i);
      }
      if n != |vals| { touched := touched + {idx}; }
      initVals[idx] := Some(vals[ii]);
    }
    assert indexes[..|indexes|] == indexes;
    if n != |vals| {
      for ii := 0 to n
        invariant forall i | 0 <= i < ii :: initVals[i] == Element(n, indexes, vals, zero, i)
        invariant forall i | ii <= i < n ::
                    initVals[i] == match LastAt(indexes, i) case Some(k) => Some(vals[k]) case None => None
      {
        if ii !in touched { initVals[ii] := Some(zero(ii)); }
      }
    }
    r := initVals[..];
  }

  // ----- constants -----

  datatype Const = Const(bits: int, ty: int)

  // A constant is cast to the element type at the position it has in the list of values.
  function Cast(c: Const, ty: int): Const {
    c.(ty := ty)
  }

  function CastAll(vals: seq<Const>, typeAt: nat -> int): (r: seq<Const>)
    ensures |r| == |vals| && forall k | 0 <= k < |vals| :: r[k] == Cast(vals[k], typeAt(k))
  {
    seq(|vals|, k requires 0 <= k < |vals| => Cast(vals[k], typeAt(k)))
  }

  function Null(typeAt: nat -> int): nat -> Const {
    (i: nat) => Const(0, typeAt(i))
  }

  // The elements are those of the delayed composite of the cast values.
  method MakeConstCompositeExpr(n: nat, indexes: seq<nat>, vals: seq<Const>, typeAt: nat -> int)
    returns (r: seq<Option<Const>>)
    requires |indexes| == |vals| && InRange(n, indexes)
    ensures |r| == n && forall i | 0 <= i < n :: r[i] == Element(n, indexes, CastAll(vals, typeAt), Null(typeAt), i)
  {
    var touched: set<nat> := {};
    var llvals := new Option<Const>[n](_ => None);
    ghost var cast := CastAll(vals, typeAt);
    for ii := 0 to |indexes|
      invariant n != |vals| ==> forall i: nat | i < n :: i in touched <==> LastAt(indexes[..ii], i).Some?
      invariant forall i | 0 <= i < n ::
                  llvals[i] == match LastAt(indexes[..ii], i) case Some(k) => Some(cast[k]) case None => None
    {
      var idx := indexes[ii];
      forall i: nat
        ensures LastAt(indexes[..ii + 1], i) == if idx == i then Some(ii) else LastAt(indexes[..ii], i)
      {
        LastAtMore(indexes, ii, i);
      }
      if n != |vals| { touched := touched + {idx}; }
      var con := vals[ii];
      if typeAt(ii) != con.ty { con := Cast(con, typeAt(ii)); }
      llvals[idx] := Some(con);
    }
    assert indexes[..|indexes|] == indexes;
    if n != |vals| {
      for ii := 0 to n
        invariant forall i | 0 <= i < ii :: llvals[i] == Element(n, indexes, cast, Null(typeAt), i)
        invariant forall i | ii <= i < n ::
                    llvals[i] == match LastAt(indexes, i) case Some(k) => Some(cast[k]) case None => None
      {
        if ii !in touched { llvals[ii] := Some(Const(0, typeAt(ii))); }
      }
    }
    r := llvals[..];
  }

  // Every element has the type of its own place exactly when each index that counts has the type of its
  // position in the list. Both callers below see to that.
  lemma ElementTypesExactly(n: nat, indexes: seq<nat>, vals: seq<Const>, typeAt: nat -> int)
    requires |indexes| == |vals| && InRange(n, indexes) && Distinct(indexes)
    ensures (forall i | 0 <= i < n ::
               var e := Element(n, indexes, CastAll(vals, typeAt), Null(typeAt), i); e.Some? && e.value.ty == typeAt(i))
      <==> (forall k | 0 <= k < |indexes| :: typeAt(indexes[k]) == typeAt(k))
  {
    var cast := CastAll(vals, typeAt);
    DistinctElements(n, indexes, cast, Null(typeAt));
    forall k | 0 <= k < |indexes|
      ensures Element(n, indexes, cast, Null(typeAt), indexes[k]) == Some(Cast(vals[k], typeAt(k)))
    {
    }
    if forall i | 0 <= i < n ::
         var e := Element(n, indexes, cast, Null(typeAt), i); e.Some? && e.value.ty == typeAt(i) {
      forall k | 0 <= k < |indexes|
        ensures typeAt(indexes[k]) == typeAt(k)
      {
        assert indexes[k] < n;
        var e := Element(n, indexes, cast, Null(typeAt), indexes[k]);
        assert e.Some? && e.value.ty == typeAt(indexes[k]);
      }
    }
  }

  // A constant struct, one value for each field in order: every field has its value and its own type.
  method ConstructorExpression(vals: seq<Const>, typeAt: nat -> int) returns (r: seq<Option<Const>>)
    ensures |r| == |vals| && forall i | 0 <= i < |vals| :: r[i] == Some(Const(vals[i].bits, typeAt(i)))
  {
    var indexes: seq<nat> := [];
    for ii := 0 to |vals|
      invariant |indexes| == ii && forall k | 0 <= k < ii :: indexes[k] == k
    {
      indexes := indexes + [ii];
    }
    r := MakeConstCompositeExpr(|vals|, indexes, vals, typeAt);
    DistinctElements(|vals|, indexes, CastAll(vals, typeAt), Null(typeAt));
    forall i | 0 <= i < |vals|
      ensures r[i] == Some(Const(vals[i].bits, typeAt(i)))
    {
      assert indexes[i] == i;
      assert Element(|vals|, indexes, CastAll(vals, typeAt), Null(typeAt), indexes[i])
        == Some(CastAll(vals, typeAt)[i]);
    }
  }

  // A constant array of n elements: with distinct indexes every element has the value given for it, or
  // zero. Whatever the indexes, what is set has the type of the elements.
  method ArrayConstructorExpression(n: nat, elem: int, indexes: seq<nat>, vals: seq<Const>)
    returns (r: seq<Option<Const>>)
    requires |indexes| == |vals| && InRange(n, indexes)
    ensures |r| == n && forall i | 0 <= i < n :: r[i].Some? ==> r[i].value.ty == elem
    ensures Distinct(indexes) ==>
      && (forall k | 0 <= k < |vals| :: r[indexes[k]] == Some(Const(vals[k].bits, elem)))
      && (forall i | 0 <= i < n && i !in indexes :: r[i] == Some(Const(0, elem)))
  {
    var typeAt := (i: nat) => elem;
    r := MakeConstCompositeExpr(n, indexes, vals, typeAt);
    ghost var cast := CastAll(vals, typeAt);
    forall i | 0 <= i < n && r[i].Some?
      ensures r[i].value.ty == elem
    {
      assert r[i] == Element(n, indexes, cast, Null(typeAt), i);
    }
    if Distinct(indexes) {
      DistinctElements(n, indexes, cast, Null(typeAt));
      forall k | 0 <= k < |vals|
        ensures r[indexes[k]] == Some(Const(vals[k].bits, elem))
      {
        assert indexes[k] < n;
        assert Element(n, indexes, cast, Null(typeAt), indexes[k]) == Some(cast[k]);
      }
      forall i | 0 <= i < n && i !in indexes
        ensures r[i] == Some(Const(0, elem))
      {
        assert Element(n, indexes, cast, Null(typeAt), i) == Some(Null(typeAt)(i));
      }
    }
  }
}
