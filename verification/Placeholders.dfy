/** Types that stand for types not yet known: pointer, array and struct types whose components are given
    later, and how a type being resolved resolves the types that wait for it. */
module Placeholders {
  datatype Kind = Basic | Pointer | Array | Struct

  class Btype {
    const kind: Kind
    var given: bool          // have the components been given?
    var comps: seq<Btype>    // what is pointed to, the element, or the fields
    var isPlaceholder: bool

    constructor (kind: Kind, given: bool, comps: seq<Btype>, isPlaceholder: bool)
      ensures this.kind == kind && this.given == given && this.comps == comps && this.isPlaceholder == isPlaceholder
    {
      this.kind := kind;
      this.given := given;
      this.comps := comps;
      this.isPlaceholder := isPlaceholder;
    }

    predicate IsUnresolvedPlaceholder()
      reads this
    {
      if kind.Struct? then false else isPlaceholder
    }
  }

  // ----- what being resolved means -----

  // The components of the types for which they are given.
  type Defs = map<Btype, seq<Btype>>

  // All components are structs or in U.
  ghost predicate Follows(d: Defs, U: set<Btype>, t: Btype) {
    t in d && forall i | 0 <= i < |d[t]| :: d[t][i].kind.Struct? || d[t][i] in U
  }

  ghost predicate ClosedUnder(d: Defs, U: set<Btype>) {
    forall t | t in d && Follows(d, U, t) :: t in U
  }

  // U is within every set of types that holds whatever follows from it.
  ghost predicate Founded(d: Defs, U: set<Btype>, T: set<Btype>) {
    forall S | S <= T && ClosedUnder(d, S) :: U <= S
  }

  // The types resolved by rule: the least set that holds a type when its components are given, and each
  // is a struct or in the set.
  ghost predicate IsLeast(d: Defs, U: set<Btype>, T: set<Btype>) {
    U <= T && ClosedUnder(d, U) && Founded(d, U, T)
  }

  // What is resolved is settled by the components given: no order of events or of visits matters.
  lemma LeastIsUnique(d: Defs, U: set<Btype>, V: set<Btype>, T: set<Btype>)
    requires IsLeast(d, U, T) && IsLeast(d, V, T)
    ensures U == V
  {
    assert V <= T && ClosedUnder(d, V) && U <= T && ClosedUnder(d, U);
  }

  // A set of types each of which lacks its components, or has in the set one that is not a struct.
  ghost predicate Knot(d: Defs, F: set<Btype>) {
    forall t | t in F && t in d :: exists i :: 0 <= i < |d[t]| && !d[t][i].kind.Struct? && d[t][i] in F
  }

  // A type stays unresolved exactly when it is in a knot: through pointers and arrays alone it leads
  // to a type not yet given, or round in a circle. A struct on the way unties it.
  lemma StuckExactly(d: Defs, U: set<Btype>, T: set<Btype>, t: Btype)
    requires IsLeast(d, U, T) && t in T && d.Keys <= T
    requires forall u, i | u in d && 0 <= i < |d[u]| :: d[u][i] in T
    ensures t !in U <==> exists F | F <= T :: t in F && Knot(d, F)
  {
    if t !in U {
      var F := T - U;
      forall u | u in F && u in d
        ensures exists i :: 0 <= i < |d[u]| && !d[u][i].kind.Struct? && d[u][i] in F
      {
        assert !Follows(d, U, u);
      }
      assert Knot(d, F);
    }
    if exists F | F <= T :: t in F && Knot(d, F) {
      var F :| F <= T && t in F && Knot(d, F);
      var S := T - F;
      forall u | u in d && Follows(d, S, u)
        ensures u in S
      {
      }
      assert U <= S;
    }
  }

  lemma FoundedGrows(d: Defs, U: set<Btype>, T: set<Btype>, t: Btype)
    requires Founded(d, U, T) && Follows(d, U, t)
    ensures Founded(d, U + {t}, T)
  {
    forall S | S <= T && ClosedUnder(d, S)
      ensures U + {t} <= S
    {
      assert U <= S;
      assert Follows(d, S, t);
    }
  }

  // Giving the components of one more type, or having one more type, unsettles nothing.
  lemma FoundedDefines(d: Defs, d': Defs, U: set<Btype>, T: set<Btype>, T': set<Btype>)
    requires Founded(d, U, T) && d.Keys <= d'.Keys && (forall t | t in d :: d'[t] == d[t]) && T <= T' && d.Keys <= T
    requires forall t, i | t in d && 0 <= i < |d[t]| :: d[t][i] in T
    ensures Founded(d', U, T')
  {
    forall S | S <= T' && ClosedUnder(d', S)
      ensures U <= S
    {
      var R := S * T;
      forall t | t in d && Follows(d, R, t)
        ensures t in R
      {
        assert Follows(d', S, t);
      }
      assert R <= T && ClosedUnder(d, R);
      assert U <= R;
    }
  }

  // The types of the manager as they stand.
  datatype Info = Info(given: bool, comps: seq<Btype>, flagged: bool)

  type Types = map<Btype, Info>

  ghost function Look(T: set<Btype>): Types
    reads T
  {
    map t | t in T :: Info(t.given, t.comps, t.isPlaceholder)
  }

  ghost function DefsOf(m: Types): Defs {
    map t | t in m && m[t].given :: m[t].comps
  }

  ghost function Resolved(m: Types): set<Btype> {
    set t | t in m && !m[t].flagged
  }

  ghost function Flagged(m: Types): set<Btype> {
    set t | t in m && m[t].flagged
  }

  ghost predicate Unresolved(m: Types, c: Btype) {
    c in m && m[c].flagged && !c.kind.Struct?
  }

  ghost predicate Waits(m: Types, comps: seq<Btype>) {
    exists i :: 0 <= i < |comps| && Unresolved(m, comps[i])
  }

  // ----- what the type manager keeps -----

  type Refs = map<Btype, set<Btype>>

  function RefsTo(refs: Refs, t: Btype): set<Btype> {
    if t in refs then refs[t] else {}
  }

  // Components are types of the manager; pointers and arrays have one; what is not given is flagged.
  ghost predicate Shaped(m: Types) {
    forall t | t in m ::
      && (forall i | 0 <= i < |m[t].comps| :: m[t].comps[i] in m)
      && (m[t].given && (t.kind.Pointer? || t.kind.Array?) ==> |m[t].comps| == 1)
      && (t.kind.Basic? ==> m[t] == Info(true, [], false))
      && (!m[t].given ==> m[t].flagged)
  }

  // A reference is recorded just for components that may have to be waited for, and for every
  // component that a flagged type waits for.
  ghost predicate RefsRight(m: Types, refs: Refs) {
    && refs.Keys <= m.Keys
    && (forall c | c in refs ::
          refs[c] <= m.Keys && (forall t | t in refs[c] :: m[t].given && c in m[t].comps && !c.kind.Struct?))
    && (forall t, i | t in m && m[t].flagged && m[t].given && 0 <= i < |m[t].comps| && Unresolved(m, m[t].comps[i]) ::
          t in RefsTo(refs, m[t].comps[i]))
  }

  // A flagged type that need not wait any longer.
  ghost predicate Due(m: Types, t: Btype) {
    t in m && m[t].flagged && m[t].given && !Waits(m, m[t].comps)
  }

  // What holds also while resolution is under way: the types still due are among W.
  ghost predicate Going(m: Types, refs: Refs, W: set<Btype>) {
    && Shaped(m) && RefsRight(m, refs) && Founded(DefsOf(m), Resolved(m), m.Keys)
    && forall t | t in m && Due(m, t) :: t in W
  }

  // Between operations the resolved types are the least set closed under the rule.
  lemma GoneIsLeast(m: Types, refs: Refs)
    requires Going(m, refs, {})
    ensures IsLeast(DefsOf(m), Resolved(m), m.Keys)
  {
    var d := DefsOf(m);
    forall t | t in d && Follows(d, Resolved(m), t)
      ensures t in Resolved(m)
    {
      if m[t].flagged { assert Due(m, t); }
    }
  }

  // t is recorded with each of its components that has to be waited for, and nothing else changes.
  ghost predicate RefsGrown(m: Types, refs: Refs, refs': Refs, t: Btype, comps: seq<Btype>) {
    && refs'.Keys <= m.Keys
    && forall c | c in m :: RefsTo(refs', c) == RefsTo(refs, c) + if c in comps && Unresolved(m, c) then {t} else {}
  }

  // A new type, flagged just when it waits for a component.
  lemma NewType(m: Types, refs: Refs, refs': Refs, t: Btype, x: Info)
    requires Going(m, refs, {}) && t !in m && RefsGrown(m, refs, refs', t, x.comps)
    requires (forall i | 0 <= i < |x.comps| :: x.comps[i] in m) && x.flagged == (!x.given || Waits(m, x.comps))
    requires x.given && (t.kind.Pointer? || t.kind.Array?) ==> |x.comps| == 1
    requires !x.given ==> x.comps == [] && !t.kind.Basic?
    requires t.kind.Basic? ==> x.comps == []
    ensures Going(m[t := x], refs', {})
  {
    hide Founded;
    var m' := m[t := x];
    assert forall u | u in m :: m'[u] == m[u];
    NewFounded(m, t, x);
    NewRefs(m, refs, refs', t, x);
    forall u | u in m && Due(m', u)
      ensures Due(m, u)
    {
      WaitsStill(m, m', m[u].comps);
    }
    WaitsStill(m, m', x.comps);
    assert m'.Keys == m.Keys + {t};
    assert Shaped(m');
    assert !Due(m', t);
  }

  lemma WaitsStill(m: Types, m': Types, comps: seq<Btype>)
    requires m.Keys <= m'.Keys && forall u | u in m :: m'[u].flagged == m[u].flagged
    requires forall i | 0 <= i < |comps| :: comps[i] in m
    ensures Waits(m', comps) <==> Waits(m, comps)
  {
    forall i | 0 <= i < |comps|
      ensures Unresolved(m', comps[i]) <==> Unresolved(m, comps[i])
    {
    }
  }

  lemma NewFounded(m: Types, t: Btype, x: Info)
    requires Shaped(m) && Founded(DefsOf(m), Resolved(m), m.Keys) && t !in m
    requires (forall i | 0 <= i < |x.comps| :: x.comps[i] in m) && x.flagged == (!x.given || Waits(m, x.comps))
    ensures Founded(DefsOf(m[t := x]), Resolved(m[t := x]), m.Keys + {t})
  {
    var m' := m[t := x];
    var d, d', U := DefsOf(m), DefsOf(m'), Resolved(m);
    assert forall u | u in d :: d'[u] == d[u];
    FoundedDefines(d, d', U, m.Keys, m.Keys + {t});
    if !x.flagged {
      forall i | 0 <= i < |x.comps|
        ensures x.comps[i].kind.Struct? || x.comps[i] in U
      {
        assert !Unresolved(m, x.comps[i]);
      }
      FoundedGrows(d', U, m.Keys + {t}, t);
      assert Resolved(m') == U + {t};
    } else {
      assert Resolved(m') == U;
    }
  }

  lemma NewRefs(m: Types, refs: Refs, refs': Refs, t: Btype, x: Info)
    requires Shaped(m) && RefsRight(m, refs) && t !in m && RefsGrown(m, refs, refs', t, x.comps)
    requires (forall i | 0 <= i < |x.comps| :: x.comps[i] in m) && (x.comps != [] ==> x.given)
    ensures RefsRight(m[t := x], refs')
  {
    var m' := m[t := x];
    forall c | c in refs'
      ensures refs'[c] <= m'.Keys && forall u | u in refs'[c] :: m'[u].given && c in m'[u].comps && !c.kind.Struct?
    {
      assert RefsTo(refs', c) == refs'[c];
    }
  }

  // The flag of a type that is due is cleared: those that wait for it may come due.
  lemma Cleared(m: Types, refs: Refs, W: set<Btype>, r: Btype)
    requires Going(m, refs, W + {r}) && Due(m, r)
    ensures var m' := m[r := m[r].(flagged := false)];
      Going(m', refs, W + RefsTo(refs, r)) && DefsOf(m') == DefsOf(m) && Flagged(m') == Flagged(m) - {r}
  {
    hide Founded, Shaped, RefsRight;
    var m' := m[r := m[r].(flagged := false)];
    ClearedFounded(m, r);
    ClearedKeeps(m, refs, r);
    forall t | t in m && Due(m', t)
      ensures t in W + RefsTo(refs, r)
    {
      if !Due(m, t) {
        var i :| 0 <= i < |m[t].comps| && Unresolved(m, m[t].comps[i]);
        assert !Unresolved(m', m[t].comps[i]);
        assert m[t].comps[i] == r;
        Awaited(m, refs, t, i);
      }
    }
  }

  lemma Awaited(m: Types, refs: Refs, t: Btype, i: nat)
    requires RefsRight(m, refs) && t in m && m[t].flagged && m[t].given && i < |m[t].comps|
      && Unresolved(m, m[t].comps[i])
    ensures t in RefsTo(refs, m[t].comps[i])
  {
  }

  lemma ClearedKeeps(m: Types, refs: Refs, r: Btype)
    requires Shaped(m) && RefsRight(m, refs) && Due(m, r)
    ensures var m' := m[r := m[r].(flagged := false)]; Shaped(m') && RefsRight(m', refs)
  {
    var m' := m[r := m[r].(flagged := false)];
    assert forall u | u in m && u != r :: m'[u] == m[u];
    forall t, i | t in m' && m'[t].flagged && m'[t].given && 0 <= i < |m'[t].comps| && Unresolved(m', m'[t].comps[i])
      ensures t in RefsTo(refs, m'[t].comps[i])
    {
      assert Unresolved(m, m[t].comps[i]);
    }
  }

  lemma ClearedFounded(m: Types, r: Btype)
    requires Shaped(m) && Founded(DefsOf(m), Resolved(m), m.Keys) && Due(m, r)
    ensures var m' := m[r := m[r].(flagged := false)];
      Founded(DefsOf(m'), Resolved(m'), m'.Keys) && DefsOf(m') == DefsOf(m) && Flagged(m') == Flagged(m) - {r}
  {
    var m' := m[r := m[r].(flagged := false)];
    assert DefsOf(m') == DefsOf(m);
    assert Resolved(m') == Resolved(m) + {r};
    forall i | 0 <= i < |m[r].comps|
      ensures m[r].comps[i].kind.Struct? || m[r].comps[i] in Resolved(m)
    {
      assert !Unresolved(m, m[r].comps[i]);
    }
    FoundedGrows(DefsOf(m), Resolved(m), m.Keys, r);
    assert m'.Keys == m.Keys;
  }

  // The components of p are given, and p recorded with those it waits for.
  lemma Given(m: Types, refs: Refs, refs': Refs, p: Btype, comps: seq<Btype>)
    requires Going(m, refs, {}) && p in m && m[p].flagged && !m[p].given && !p.kind.Basic?
    requires (forall i | 0 <= i < |comps| :: comps[i] in m) && (p.kind.Pointer? || p.kind.Array? ==> |comps| == 1)
    requires RefsGrown(m[p := Info(true, comps, true)], refs, refs', p, comps)
    ensures var m' := m[p := Info(true, comps, true)];
      && Going(m', refs', if Waits(m', comps) then {} else {p})
      && (!Waits(m', comps) ==> Due(m', p))
      && DefsOf(m') == DefsOf(m)[p := comps]
  {
    hide Founded, RefsRight, RefsGrown, Due, Waits;
    var m' := m[p := Info(true, comps, true)];
    GivenFounded(m, p, comps);
    GrownAlike(m, m', refs, refs', p, comps);
    GivenRefs(m, refs, refs', p, comps);
    GivenDue(m, refs, p, comps);
    assert forall u | u in m && u != p :: m'[u] == m[u];
    assert Shaped(m');
    if !Waits(m', comps) { DueIs(m', p); }
  }

  lemma GrownAlike(m: Types, m': Types, refs: Refs, refs': Refs, p: Btype, comps: seq<Btype>)
    requires m'.Keys == m.Keys && forall u | u in m :: m'[u].flagged == m[u].flagged
    ensures RefsGrown(m, refs, refs', p, comps) <==> RefsGrown(m', refs, refs', p, comps)
  {
    assert forall c | c in m :: Unresolved(m', c) == Unresolved(m, c);
  }

  lemma DueIs(m: Types, t: Btype)
    requires t in m && m[t].flagged && m[t].given && !Waits(m, m[t].comps)
    ensures Due(m, t)
  {
  }

  lemma GivenFounded(m: Types, p: Btype, comps: seq<Btype>)
    requires Shaped(m) && Founded(DefsOf(m), Resolved(m), m.Keys) && p in m && m[p].flagged && !m[p].given
    ensures var m' := m[p := Info(true, comps, true)];
      Founded(DefsOf(m'), Resolved(m'), m'.Keys) && DefsOf(m') == DefsOf(m)[p := comps]
  {
    var m' := m[p := Info(true, comps, true)];
    assert m'.Keys == m.Keys;
    assert DefsOf(m') == DefsOf(m)[p := comps];
    assert Resolved(m') == Resolved(m);
    FoundedDefines(DefsOf(m), DefsOf(m'), Resolved(m), m.Keys, m.Keys);
  }

  lemma GivenDue(m: Types, refs: Refs, p: Btype, comps: seq<Btype>)
    requires Going(m, refs, {}) && p in m && m[p].flagged && (forall i | 0 <= i < |comps| :: comps[i] in m)
    ensures var m' := m[p := Info(true, comps, true)];
      forall t | t in m' && Due(m', t) :: t == p && !Waits(m', comps)
  {
    var m' := m[p := Info(true, comps, true)];
    forall t | t in m' && Due(m', t)
      ensures t == p && !Waits(m', comps)
    {
      if t != p {
        assert m'[t] == m[t];
        WaitsStill(m, m', m[t].comps);
        assert false;
      }
    }
  }

  lemma GivenRefs(m: Types, refs: Refs, refs': Refs, p: Btype, comps: seq<Btype>)
    requires Shaped(m) && RefsRight(m, refs) && p in m && m[p].flagged && !m[p].given
    requires RefsGrown(m, refs, refs', p, comps)
    ensures RefsRight(m[p := Info(true, comps, true)], refs')
  {
    var m' := m[p := Info(true, comps, true)];
    assert forall u | u in m && u != p :: m'[u] == m[u];
    forall c, u | c in refs' && u in refs'[c]
      ensures u in m' && m'[u].given && c in m'[u].comps && !c.kind.Struct?
    {
      assert u in RefsTo(refs', c);
      if u != p { assert u in RefsTo(refs, c); }
    }
    forall t, i | t in m' && m'[t].flagged && m'[t].given && 0 <= i < |m'[t].comps| && Unresolved(m', m'[t].comps[i])
      ensures t in RefsTo(refs', m'[t].comps[i])
    {
      var c := m'[t].comps[i];
      assert Unresolved(m, c);
      if t != p { assert t in RefsTo(refs, c); }
    }
  }

  class TypeManager {
    var placeholders: set<Btype>
    var placeholderRefs: Refs
    ghost var types: set<Btype>

    ghost predicate Valid()
      reads this, types
    {
      && Going(Look(types), placeholderRefs, {}) && placeholders <= types
      && forall t | t in placeholders :: !t.kind.Basic?
    }

    constructor ()
      ensures Valid() && types == {}
    {
      placeholders := {};
      placeholderRefs := map[];
      types := {};
    }

    // The resolved types are those the rule resolves, and no others.
    lemma Settled()
      requires Valid()
      ensures IsLeast(DefsOf(Look(types)), Resolved(Look(types)), types)
    {
      GoneIsLeast(Look(types), placeholderRefs);
    }

    method AddPlaceholderRefs(btype: Btype) returns (waits: bool)
      requires forall i | 0 <= i < |btype.comps| :: btype.comps[i] in types
      requires placeholderRefs.Keys <= types
      modifies this`placeholderRefs
      ensures waits == Waits(Look(types), btype.comps)
      ensures RefsGrown(Look(types), old(placeholderRefs), placeholderRefs, btype, btype.comps)
    {
      hide RefsGrown;
      waits := false;
      ghost var m := Look(types);
      NoneGrown(m, placeholderRefs, btype);
      for i := 0 to |btype.comps|
        invariant placeholderRefs.Keys <= types
        invariant waits <==> exists j :: 0 <= j < i && Unresolved(m, btype.comps[j])
        invariant RefsGrown(m, old(placeholderRefs), placeholderRefs, btype, btype.comps[..i])
      {
        var c := btype.comps[i];
        assert btype.comps[..i + 1] == btype.comps[..i] + [c];
        assert c.IsUnresolvedPlaceholder() == Unresolved(m, c);
        GrowNext(m, old(placeholderRefs), placeholderRefs, btype, btype.comps[..i], c);
        if c.IsUnresolvedPlaceholder() {
          placeholderRefs := placeholderRefs[c := RefsTo(placeholderRefs, c) + {btype}];
          waits := true;
        }
      }
      assert btype.comps[..|btype.comps|] == btype.comps;
    }

    // ----- creation -----

    method BasicType() returns (t: Btype)
      requires Valid()
      modifies this`types
      ensures Valid() && fresh(t) && types == old(types) + {t} && !t.isPlaceholder
    {
      hide Going, Founded, Shaped, RefsRight, RefsGrown, Due, DefsOf, IsLeast;
      t := new Btype(Basic, true, [], false);
      ghost var m := Look(types);
      NoRefs(m, placeholderRefs, t);
      NewType(m, placeholderRefs, placeholderRefs, t, Info(true, [], false));
      types := types + {t};
      assert Look(types) == m[t := Info(true, [], false)];
    }

    method PlaceholderType(kind: Kind) returns (t: Btype)
      requires Valid() && !kind.Basic?
      modifies this`types, this`placeholders
      ensures Valid() && fresh(t) && types == old(types) + {t}
      ensures t.kind == kind && t.isPlaceholder && !t.given && placeholders == old(placeholders) + {t}
    {
      hide Going, Founded, Shaped, RefsRight, RefsGrown, Due, DefsOf, IsLeast;
      t := new Btype(kind, false, [], true);
      ghost var m := Look(types);
      NoRefs(m, placeholderRefs, t);
      NewType(m, placeholderRefs, placeholderRefs, t, Info(false, [], true));
      types := types + {t};
      assert Look(types) == m[t := Info(false, [], true)];
      placeholders := placeholders + {t};
    }

    // Pointer, array and struct types over given components.
    method CompoundType(kind: Kind, comps: seq<Btype>) returns (t: Btype)
      requires Valid() && !kind.Basic? && (forall i | 0 <= i < |comps| :: comps[i] in types)
      requires kind.Pointer? || kind.Array? ==> |comps| == 1
      modifies this`types, this`placeholderRefs
      ensures Valid() && fresh(t) && types == old(types) + {t}
      ensures t.kind == kind && t.given && t.comps == comps
      ensures t.isPlaceholder <==> exists i :: 0 <= i < |comps| && comps[i].IsUnresolvedPlaceholder()
    {
      hide Going, Founded, Shaped, RefsRight, RefsGrown, Due, DefsOf, IsLeast;
      t := new Btype(kind, true, comps, false);
      KeysKnown(types, placeholderRefs);
      ghost var m, refs := Look(types), placeholderRefs;
      WaitsIs(types, comps);
      var waits := AddPlaceholderRefs(t);
      assert Look(types) == m;
      t.isPlaceholder := waits;
      assert Look(types) == m;
      NewType(m, refs, placeholderRefs, t, Info(true, comps, waits));
      types := types + {t};
      assert Look(types) == m[t := Info(true, comps, waits)];
    }

    // ----- resolution -----

    // b has just been resolved; resolves all that waited for nothing else.
    method PostProcessResolvedPlaceholder(b: Btype, ghost W: set<Btype>)
      requires b in types && !b.isPlaceholder && Going(Look(types), placeholderRefs, W + RefsTo(placeholderRefs, b))
      modifies types`isPlaceholder
      ensures Going(Look(types), placeholderRefs, W)
      ensures DefsOf(Look(types)) == old(DefsOf(Look(types))) && Flagged(Look(types)) <= old(Flagged(Look(types)))
      decreases Flagged(Look(types)), 1
    {
      hide Going, Founded, Shaped, RefsRight, RefsGrown, Due, DefsOf, IsLeast;
      var todo := RefsTo(placeholderRefs, b);
      ghost var d := DefsOf(Look(types));
      FlagsAre(types);
      while todo != {}
        invariant Going(Look(types), placeholderRefs, W + todo) && todo <= RefsTo(placeholderRefs, b)
          && b !in Flagged(Look(types))
        invariant DefsOf(Look(types)) == d && Flagged(Look(types)) <= old(Flagged(Look(types)))
        decreases todo
      {
        RefsKnown(types, placeholderRefs, W + todo, b);
        FlagsAre(types);
        var refType :| refType in todo;
        assert (W + (todo - {refType})) + {refType} == W + todo;
        todo := todo - {refType};
        if !refType.isPlaceholder { Unflagged(types, refType); NotDue(Look(types), placeholderRefs, W + todo, refType);
          }
        if refType.isPlaceholder {
          if refType.kind.Struct? {
            PostProcessResolvedStructPlaceholder(refType, b, W + todo);
          } else {
            PostProcessResolvedSinglePlaceholder(refType, b, W + todo);
          }
        }
      }
      assert W + todo == W;
    }

    // Pointers and arrays wait for one component only.
    method PostProcessResolvedSinglePlaceholder(t: Btype, b: Btype, ghost W: set<Btype>)
      requires t in types && b in types && t.isPlaceholder && t.given && t.comps == [b] && !b.isPlaceholder
      requires Going(Look(types), placeholderRefs, W + {t})
      modifies types`isPlaceholder
      ensures Going(Look(types), placeholderRefs, W)
      ensures DefsOf(Look(types)) == old(DefsOf(Look(types))) && Flagged(Look(types)) <= old(Flagged(Look(types)))
      decreases Flagged(Look(types)), 0
    {
      hide Going, Founded, Shaped, RefsRight, RefsGrown, Due, DefsOf, IsLeast;
      ghost var m := Look(types);
      NotWaiting(types, t);
      Cleared(m, placeholderRefs, W, t);
      t.isPlaceholder := false;
      assert Look(types) == m[t := m[t].(flagged := false)];
      PostProcessResolvedPlaceholder(t, W);
    }

    method PostProcessResolvedStructPlaceholder(t: Btype, b: Btype, ghost W: set<Btype>)
      requires t in types && b in types && t.isPlaceholder && t.given && b in t.comps && !b.isPlaceholder
        && t.kind.Struct?
      requires forall i | 0 <= i < |t.comps| :: t.comps[i] in types
      requires Going(Look(types), placeholderRefs, W + {t})
      modifies types`isPlaceholder
      ensures Going(Look(types), placeholderRefs, W)
      ensures DefsOf(Look(types)) == old(DefsOf(Look(types))) && Flagged(Look(types)) <= old(Flagged(Look(types)))
      decreases Flagged(Look(types)), 0
    {
      hide Going, Founded, Shaped, RefsRight, RefsGrown, Due, DefsOf, IsLeast;
      var hasPl := false;
      for i := 0 to |t.comps|
        invariant hasPl <==> exists j :: 0 <= j < i && t.comps[j].IsUnresolvedPlaceholder()
      {
        if t.comps[i] != b && t.comps[i].IsUnresolvedPlaceholder() {
          hasPl := true;
        }
      }
      if hasPl {
        Waiting(types, t);
        NotDue(Look(types), placeholderRefs, W, t);
      } else {
        ghost var m := Look(types);
        NotWaiting(types, t);
        Cleared(m, placeholderRefs, W, t);
        t.isPlaceholder := false;
        assert Look(types) == m[t := m[t].(flagged := false)];
        PostProcessResolvedPlaceholder(t, W);
      }
    }

    // The placeholder is resolved, and with it what waits for it.
    method ResolvePlaceholder(p: Btype, ghost m: Types)
      requires p in types && m == Look(types)
      requires Going(m[p := m[p].(flagged := false)], placeholderRefs, {} + RefsTo(placeholderRefs, p))
      requires DefsOf(m[p := m[p].(flagged := false)]) == DefsOf(m)
      modifies types`isPlaceholder
      ensures Going(Look(types), placeholderRefs, {}) && DefsOf(Look(types)) == DefsOf(m)
    {
      hide Going, DefsOf;
      p.isPlaceholder := false;
      assert Look(types) == m[p := m[p].(flagged := false)];
      PostProcessResolvedPlaceholder(p, {});
    }

    // ----- giving the components -----

    method SetPlaceholderStructType(placeholder: Btype, fields: seq<Btype>)
      requires Valid() && placeholder in placeholders && placeholder.kind.Struct?
      requires !placeholder.given && forall i | 0 <= i < |fields| :: fields[i] in types
      modifies this`placeholderRefs, placeholder, types`isPlaceholder
      ensures Valid() && DefsOf(Look(types)) == old(DefsOf(Look(types)))[placeholder := fields]
      ensures IsLeast(DefsOf(Look(types)), Resolved(Look(types)), types)
    {
      hide Going, Founded, Shaped, RefsRight, RefsGrown, Due, DefsOf, IsLeast;
      ghost var m, refs := Look(types), placeholderRefs;
      KeysKnown(types, placeholderRefs);
      placeholder.comps := fields;
      placeholder.given := true;
      PlaceholderKnown(m, refs, placeholder);
      ghost var m1 := m[placeholder := Info(true, fields, true)];
      assert Look(types) == m1;
      var isplace := AddPlaceholderRefs(placeholder);
      assert Look(types) == m1;
      Given(m, refs, placeholderRefs, placeholder, fields);
      if !isplace {
        NoneBut(placeholder, placeholderRefs);
        Cleared(m1, placeholderRefs, {}, placeholder);
        ResolvePlaceholder(placeholder, m1);
      }
      Settled();
    }

    method SetPlaceholderArrayType(placeholder: Btype, elem: Btype)
      requires Valid() && placeholder in placeholders && placeholder.kind.Array?
      requires !placeholder.given && elem in types
      modifies this`placeholderRefs, placeholder, types`isPlaceholder
      ensures Valid() && DefsOf(Look(types)) == old(DefsOf(Look(types)))[placeholder := [elem]]
      ensures IsLeast(DefsOf(Look(types)), Resolved(Look(types)), types)
    {
      hide Going, Founded, Shaped, RefsRight, RefsGrown, Due, DefsOf, IsLeast;
      ghost var m, refs := Look(types), placeholderRefs;
      KeysKnown(types, placeholderRefs);
      placeholder.comps := [elem];
      placeholder.given := true;
      PlaceholderKnown(m, refs, placeholder);
      ghost var m1 := m[placeholder := Info(true, [elem], true)];
      assert Look(types) == m1;
      var isplace := AddPlaceholderRefs(placeholder);
      assert Look(types) == m1;
      Given(m, refs, placeholderRefs, placeholder, [elem]);
      if !isplace {
        NoneBut(placeholder, placeholderRefs);
        Cleared(m1, placeholderRefs, {}, placeholder);
        ResolvePlaceholder(placeholder, m1);
      }
      Settled();
    }

    // May be called again with the same target.
    method SetPlaceholderPointerType(placeholder: Btype, toType: Btype)
      requires Valid() && placeholder in placeholders && placeholder.kind.Pointer?
      requires toType in types && (placeholder.given ==> placeholder.comps == [toType])
      modifies this`placeholderRefs, placeholder, types`isPlaceholder
      ensures Valid() && DefsOf(Look(types)) == old(DefsOf(Look(types)))[placeholder := [toType]]
      ensures IsLeast(DefsOf(Look(types)), Resolved(Look(types)), types)
    {
      hide Going, Founded, Shaped, RefsRight, RefsGrown, Due, DefsOf, IsLeast;
      hide Flagged, Unresolved, RefsTo;
      ghost var m, refs, again := Look(types), placeholderRefs, placeholder.given;
      ghost var m1 := m[placeholder := Info(true, [toType], m[placeholder].flagged)];
      PointerGiven(m, refs, placeholder, toType, again);
      assert toType.IsUnresolvedPlaceholder() == Unresolved(m, toType) by { UnresolvedIs(types, toType); }
      var waits := toType.IsUnresolvedPlaceholder();
      placeholder.comps := [toType];
      placeholder.given := true;
      assert Look(types) == m1;
      if waits {
        placeholderRefs := placeholderRefs[toType := RefsTo(placeholderRefs, toType) + {placeholder}];
        assert Look(types) == m1;
      } else {
        ResolvePlaceholder(placeholder, m1);
      }
      Settled();
    }
  }

  lemma NoneGrown(m: Types, refs: Refs, t: Btype)
    requires refs.Keys <= m.Keys
    ensures RefsGrown(m, refs, refs, t, [])
  {
  }

  lemma GrowNext(m: Types, refs: Refs, refs': Refs, t: Btype, comps: seq<Btype>, c: Btype)
    requires RefsGrown(m, refs, refs', t, comps) && c in m
    ensures RefsGrown(m, refs, if Unresolved(m, c) then refs'[c := RefsTo(refs', c) + {t}] else refs', t, comps + [c])
  {
    var grown := if Unresolved(m, c) then refs'[c := RefsTo(refs', c) + {t}] else refs';
    forall x | x in m
      ensures RefsTo(grown, x) == RefsTo(refs, x) + if x in comps + [c] && Unresolved(m, x) then {t} else {}
    {
    }
  }

  lemma NoRefs(m: Types, refs: Refs, t: Btype)
    requires Going(m, refs, {})
    ensures RefsGrown(m, refs, refs, t, [])
  {
  }

  lemma NoneBut(t: Btype, refs: Refs)
    ensures {} + {t} == {t} && {} + RefsTo(refs, t) == RefsTo(refs, t)
  {
  }

  lemma Weaker(m: Types, refs: Refs, W: set<Btype>)
    requires Going(m, refs, {})
    ensures Going(m, refs, W)
  {
  }

  lemma PlaceholderKnown(m: Types, refs: Refs, p: Btype)
    requires Going(m, refs, {}) && p in m && !m[p].given
    ensures m[p].flagged
  {
  }

  lemma WaitsIs(T: set<Btype>, comps: seq<Btype>)
    requires forall i | 0 <= i < |comps| :: comps[i] in T
    ensures Waits(Look(T), comps) <==> exists i :: 0 <= i < |comps| && comps[i].IsUnresolvedPlaceholder()
  {
    assert forall i | 0 <= i < |comps| :: comps[i].IsUnresolvedPlaceholder() == Unresolved(Look(T), comps[i]);
  }

  lemma KeysKnown(T: set<Btype>, refs: Refs)
    requires Going(Look(T), refs, {})
    ensures refs.Keys <= T
  {
  }

  lemma Unflagged(T: set<Btype>, t: Btype)
    requires t in T && !t.isPlaceholder
    ensures !Due(Look(T), t)
  {
  }

  lemma Waiting(T: set<Btype>, t: Btype)
    requires t in T && (forall i | 0 <= i < |t.comps| :: t.comps[i] in T)
    requires exists i :: 0 <= i < |t.comps| && t.comps[i].IsUnresolvedPlaceholder()
    ensures !Due(Look(T), t)
  {
    var i :| 0 <= i < |t.comps| && t.comps[i].IsUnresolvedPlaceholder();
    assert Unresolved(Look(T), t.comps[i]);
  }

  lemma NotWaiting(T: set<Btype>, t: Btype)
    requires t in T && t.given && t.isPlaceholder && (forall i | 0 <= i < |t.comps| :: t.comps[i] in T)
    requires forall i | 0 <= i < |t.comps| :: !t.comps[i].IsUnresolvedPlaceholder()
    ensures Due(Look(T), t)
  {
  }

  lemma FlagsAre(T: set<Btype>)
    ensures forall t | t in T :: t.isPlaceholder <==> t in Flagged(Look(T))
  {
  }

  // A recorded type is a given one that has b as a component; a pointer or an array has no other.
  lemma RefsKnown(T: set<Btype>, refs: Refs, W: set<Btype>, b: Btype)
    requires Going(Look(T), refs, W) && b in T
    ensures forall t | t in RefsTo(refs, b) ::
              && t in T && t.given && b in t.comps && (forall i | 0 <= i < |t.comps| :: t.comps[i] in T)
              && (!t.kind.Struct? ==> t.comps == [b])
  {
    var m := Look(T);
    forall t | t in RefsTo(refs, b)
      ensures t in T && m[t] == Info(t.given, t.comps, t.isPlaceholder) && m[t].given && b in m[t].comps
    {
    }
  }

  lemma NotDue(m: Types, refs: Refs, W: set<Btype>, t: Btype)
    requires Going(m, refs, W + {t}) && !Due(m, t)
    ensures Going(m, refs, W)
  {
  }

  lemma UnresolvedIs(T: set<Btype>, t: Btype)
    requires t in T
    ensures t.IsUnresolvedPlaceholder() == Unresolved(Look(T), t)
  {
  }

  // A pointer given its target is recorded with it or is due; given the same target again, nothing comes due.
  lemma PointerGiven(m: Types, refs: Refs, p: Btype, to: Btype, again: bool)
    requires Going(m, refs, {}) && p in m && to in m && p.kind.Pointer? && again == m[p].given
    requires again ==> m[p].comps == [to]
    ensures var m1 := m[p := Info(true, [to], m[p].flagged)]; var m2 := m1[p := m1[p].(flagged := false)];
      && (Unresolved(m, to) ==> Going(m1, refs[to := RefsTo(refs, to) + {p}], {}))
      && (!Unresolved(m, to) ==> Going(m2, refs, {} + RefsTo(refs, p)))
      && DefsOf(m1) == DefsOf(m2) == DefsOf(m)[p := [to]]
  {
    hide Founded;
    var m1 := m[p := Info(true, [to], m[p].flagged)];
    var m2 := m1[p := m1[p].(flagged := false)];
    assert forall c | c in m :: c in [to] <==> c == to;
    WaitsOne(m, to);
    assert DefsOf(m1) == DefsOf(m)[p := [to]];
    assert DefsOf(m2) == DefsOf(m1);
    if again {
      assert m1 == m;
      if Unresolved(m, to) {
        RefsAgain(m, refs, p, to);
      } else {
        assert !Due(m, p);
        assert m2 == m;
        Weaker(m, refs, {} + RefsTo(refs, p));
      }
    } else {
      PointerFirst(m, refs, p, to);
    }
  }

  lemma PointerFirst(m: Types, refs: Refs, p: Btype, to: Btype)
    requires Going(m, refs, {}) && p in m && to in m && p.kind.Pointer? && !m[p].given
    ensures var m1 := m[p := Info(true, [to], m[p].flagged)]; var m2 := m1[p := m1[p].(flagged := false)];
      && (Unresolved(m, to) ==> Going(m1, refs[to := RefsTo(refs, to) + {p}], {}))
      && (!Unresolved(m, to) ==> Going(m2, refs, {} + RefsTo(refs, p)))
  {
    PlaceholderKnown(m, refs, p);
    KeysAre(m, refs);
    hide Founded, Shaped, RefsRight, Due, RefsGrown;
    var m1 := m[p := Info(true, [to], true)];
    var refs1 := if Unresolved(m, to) then refs[to := RefsTo(refs, to) + {p}] else refs;
    WaitsOne(m1, to);
    assert Unresolved(m1, to) == Unresolved(m, to);
    NoneGrown(m1, refs, p);
    GrowNext(m1, refs, refs, p, [], to);
    assert [] + [to] == [to];
    Given(m, refs, refs1, p, [to]);
    if !Unresolved(m, to) {
      NoneBut(p, refs);
      Cleared(m1, refs, {}, p);
    }
  }

  lemma KeysAre(m: Types, refs: Refs)
    requires Going(m, refs, {})
    ensures refs.Keys <= m.Keys
  {
  }

  lemma WaitsOne(m: Types, c: Btype)
    ensures Waits(m, [c]) <==> Unresolved(m, c)
  {
    assert [c][0] == c;
  }

  lemma RefsAgain(m: Types, refs: Refs, p: Btype, to: Btype)
    requires RefsRight(m, refs) && p in m && to in m && m[p].given && m[p].comps == [to] && Unresolved(m, to)
    ensures RefsRight(m, refs[to := RefsTo(refs, to) + {p}])
  {
  }
}
