/** How a switch statement lays its parts out among its children, and how they are read back. */
module SwitchLayout {
  // Where the values of a case start, how many there are, and where its statement is.
  datatype CaseDesc = CaseDesc(st: nat, len: nat, stmt: nat)

  function Flatten<T>(vals: seq<seq<T>>): seq<T> {
    if vals == [] then [] else vals[0] + Flatten(vals[1..])
  }

  lemma {:induction false} FlattenSplit<T>(vals: seq<seq<T>>, k: nat)
    requires k <= |vals|
    ensures Flatten(vals) == Flatten(vals[..k]) + Flatten(vals[k..])
    decreases k
  {
    if k > 0 {
      FlattenSplit(vals[1..], k - 1);
      assert vals[..k][1..] == vals[1..][..k - 1] && vals[1..][k - 1..] == vals[k..];
    }
  }

  lemma FlattenNext<T>(vals: seq<seq<T>>, k: nat)
    requires k < |vals|
    ensures Flatten(vals[..k + 1]) == Flatten(vals[..k]) + vals[k]
  {
    FlattenSplit(vals[..k + 1], k);
    assert vals[..k + 1][..k] == vals[..k] && vals[..k + 1][k..] == [vals[k]];
    assert Flatten([vals[k]]) == vals[k];
  }

  // The children: what is switched on, the values of all cases, the statements of all cases.
  function Children<T>(value: T, vals: seq<seq<T>>, stmts: seq<T>): seq<T> {
    [value] + Flatten(vals) + stmts
  }

  function Desc<T>(vals: seq<seq<T>>, k: nat): CaseDesc
    requires k < |vals|
  {
    CaseDesc(1 + |Flatten(vals[..k])|, |vals[k]|, 1 + |Flatten(vals)| + k)
  }

  // Through the descriptors each case gets back its own values and its own statement.
  lemma LayoutReadsBack<T>(value: T, vals: seq<seq<T>>, stmts: seq<T>, k: nat)
    requires |stmts| == |vals| && k < |vals|
    ensures var kids := Children(value, vals, stmts); var d := Desc(vals, k);
      && d.st + d.len <= |kids| && kids[d.st..d.st + d.len] == vals[k]
      && d.stmt < |kids| && kids[d.stmt] == stmts[k]
      && kids[0] == value && 1 <= d.st && d.st + d.len <= d.stmt
  {
    FlattenSplit(vals, k);
    assert vals[k..][0] == vals[k];
    var a, b := Flatten(vals[..k]), Flatten(vals[k..][1..]);
    assert Flatten(vals) == a + (vals[k] + b);
    var kids := Children(value, vals, stmts);
    assert kids == ([value] + a) + vals[k] + (b + stmts);
  }

  class SwitchDescriptor {
    var cases: seq<CaseDesc>

    constructor <T>(vals: seq<seq<T>>)
      ensures |cases| == |vals| && forall k | 0 <= k < |vals| :: cases[k] == Desc(vals, k)
    {
      cases := [];
      new;
      var stidx := 1;
      for k := 0 to |vals|
        invariant stidx == 1 + |Flatten(vals[..k])| && cases == []
      {
        FlattenNext(vals, k);
        stidx := stidx + |vals[k]|;
      }
      assert vals[..|vals|] == vals;
      var idx := 1;
      for k := 0 to |vals|
        invariant idx == 1 + |Flatten(vals[..k])| && stidx == 1 + |Flatten(vals)| + k
        invariant |cases| == k && forall j | 0 <= j < k :: cases[j] == Desc(vals, j)
      {
        FlattenNext(vals, k);
        cases := cases + [CaseDesc(idx, |vals[k]|, stidx)];
        stidx := stidx + 1;
        idx := idx + |vals[k]|;
      }
    }
  }

  class SwitchStmt<T> {
    var kids: seq<T>
    const swcases: SwitchDescriptor

    // The statement holds these parts.
    ghost predicate Holds(value: T, vals: seq<seq<T>>, stmts: seq<T>)
      reads this, swcases
    {
      && kids == Children(value, vals, stmts) && |stmts| == |vals| == |swcases.cases|
      && forall k | 0 <= k < |vals| :: swcases.cases[k] == Desc(vals, k)
    }

    constructor (value: T, vals: seq<seq<T>>, stmts: seq<T>)
      requires |stmts| == |vals|
      ensures Holds(value, vals, stmts)
    {
      kids := [value];
      swcases := new SwitchDescriptor(vals);
      new;
      for i := 0 to |vals|
        invariant kids == [value] + Flatten(vals[..i])
        invariant |swcases.cases| == |vals| && forall k | 0 <= k < |vals| :: swcases.cases[k] == Desc(vals, k)
      {
        FlattenNext(vals, i);
        ghost var before := kids;
        for j := 0 to |vals[i]|
          invariant kids == before + vals[i][..j]
          invariant |swcases.cases| == |vals| && forall k | 0 <= k < |vals| :: swcases.cases[k] == Desc(vals, k)
        {
          kids := kids + [vals[i][j]];
        }
        assert vals[i][..|vals[i]|] == vals[i];
      }
      assert vals[..|vals|] == vals;
      for i := 0 to |stmts|
        invariant kids == [value] + Flatten(vals) + stmts[..i]
        invariant |swcases.cases| == |vals| && forall k | 0 <= k < |vals| :: swcases.cases[k] == Desc(vals, k)
      {
        kids := kids + [stmts[i]];
      }
      assert stmts[..|stmts|] == stmts;
    }

    method NthCase(idx: nat, ghost value: T, ghost vals: seq<seq<T>>, ghost stmts: seq<T>) returns (r: seq<T>)
      requires Holds(value, vals, stmts) && idx < |vals|
      ensures r == vals[idx]
    {
      LayoutReadsBack(value, vals, stmts, idx);
      var cdesc := swcases.cases[idx];
      r := [];
      for ii := 0 to cdesc.len
        invariant r == kids[cdesc.st..cdesc.st + ii]
      {
        r := r + [kids[ii + cdesc.st]];
      }
    }

    method NthStmt(idx: nat, ghost value: T, ghost vals: seq<seq<T>>, ghost stmts: seq<T>) returns (r: T)
      requires Holds(value, vals, stmts) && idx < |vals|
      ensures r == stmts[idx]
    {
      LayoutReadsBack(value, vals, stmts, idx);
      r := kids[swcases.cases[idx].stmt];
    }
  }
}
