/** The invariant every step of the walk keeps, and a book-keeping predicate with one rule per
    primitive step, from which the walk of each kind of node is put together. */
module LoweringFrame {
  import opened Wrappers
  import opened StmtTree
  import opened Cfg
  import opened Lowering

  // D is the set of labels defined so far.
  ghost predicate Inv(s: State, D: set<Label>) {
    && (s.cur.Some? ==> s.cur.value < |s.blocks|)
    && (s.fin.Some? ==> s.fin.value < |s.blocks|)
    && (forall i :: 0 <= i < |s.pads| ==> s.pads[i] < |s.blocks|)
    && (forall l :: l in s.labels ==> s.labels[l] < |s.blocks|)
    && (forall l, k :: l in s.labels && k in s.labels && l != k ==> s.labels[l] != s.labels[k])
    && (forall l :: l in s.labels && l !in D ==> s.blocks[s.labels[l]] == [] && s.cur != Some(s.labels[l]))
    && D <= s.labels.Keys
    && (forall b :: 0 <= b < |s.blocks| ==> TermLast(s.blocks[b]) && TargetsOk(s.blocks[b], |s.blocks|))
  }

  // Every branch goes to one of n blocks.
  ghost predicate TargetsOk(c: Code, n: nat) {
    forall i :: 0 <= i < |c| ==> Targets(c[i], n)
  }

  ghost predicate OpenCur(s: State) {
    s.cur.Some? ==> !Ended(s, s.cur.value)
  }

  ghost function LabelBlocks(s: State, L: set<Label>): set<BlockId> {
    set l | l in L && l in s.labels :: s.labels[l]
  }

  // The blocks of s a walk that defines the labels L may add to.
  ghost function Touch(s: State, L: set<Label>): set<BlockId> {
    (if s.cur.Some? then {s.cur.value} else {}) + LabelBlocks(s, L)
  }

  // From a to b blocks and labels only grow, and of the blocks of a only those in T do.
  ghost predicate Mod(a: State, b: State, T: set<BlockId>) {
    && |a.blocks| <= |b.blocks|
    && (forall x :: 0 <= x < |a.blocks| ==> a.blocks[x] <= b.blocks[x])
    && (forall x :: 0 <= x < |a.blocks| && x !in T ==> a.blocks[x] == b.blocks[x])
    && (forall l :: l in a.labels ==> l in b.labels && a.labels[l] == b.labels[l])
    && (forall l :: l in b.labels && l !in a.labels ==> b.labels[l] >= |a.blocks|)
  }

  // The effect of walking something that defines the labels L.
  ghost predicate Walked(s: State, t: State, L: set<Label>, D: set<Label>) {
    && Inv(t, D + L)
    && Mod(s, t, Touch(s, L))
    && t.pads == s.pads && t.fin == s.fin
    && (t.cur.Some? ==> t.cur.value in Touch(s, L) || t.cur.value >= |s.blocks|)
    && (s.cur.Some? && t.cur != s.cur ==> Ended(t, s.cur.value))
  }

  lemma ModTrans(a: State, b: State, c: State, T: set<BlockId>, U: set<BlockId>)
    requires Mod(a, b, T) && Mod(b, c, U)
    requires forall x :: x in U && x < |a.blocks| ==> x in T
    ensures Mod(a, c, T)
  {
  }

  lemma WalkedTrans(s: State, t: State, u: State, L: set<Label>, K: set<Label>, D: set<Label>)
    requires Inv(s, D) && D !! L && D !! K && L !! K
    requires Walked(s, t, L, D) && Walked(t, u, K, D + L)
    ensures Walked(s, u, L + K, D)
    ensures s.cur.Some? && t.cur != s.cur ==> u.cur != s.cur
  {
    hide Inv, Mod, Touch;
    assert D + (L + K) == (D + L) + K;
    TouchLater(s, t, L, K, D);
    ModMore(s, t, Touch(s, L), Touch(s, L + K));
    ModTrans(s, t, u, Touch(s, L + K), Touch(t, K));
    if s.cur.Some? && t.cur != s.cur { DeadStays(s, t, u, L, K, D); }
  }

  // The blocks a second walk may add to: those the first may, and new ones.
  lemma TouchLater(s: State, t: State, L: set<Label>, K: set<Label>, D: set<Label>)
    requires Walked(s, t, L, D)
    ensures forall x :: x in Touch(t, K) && x < |s.blocks| ==> x in Touch(s, L + K)
    ensures Touch(s, L) <= Touch(s, L + K)
  {
    hide Inv;
    forall x | x in Touch(t, K) && x < |s.blocks|
      ensures x in Touch(s, L + K)
    {
      if t.cur == Some(x) {
        assert x in Touch(s, L);
      } else {
        var l :| l in K && l in t.labels && t.labels[l] == x;
        assert l in s.labels;
      }
    }
  }

  lemma ModMore(a: State, b: State, T: set<BlockId>, U: set<BlockId>)
    requires Mod(a, b, T) && T <= U
    ensures Mod(a, b, U)
  {
  }

  // What was walked out of is not come back to.
  lemma DeadStays(s: State, t: State, u: State, L: set<Label>, K: set<Label>, D: set<Label>)
    requires Inv(s, D) && D !! L && D !! K && L !! K && Walked(s, t, L, D) && Walked(t, u, K, D + L)
    requires s.cur.Some? && t.cur != s.cur
    ensures u.cur != s.cur && Ended(u, s.cur.value)
  {
    assert s.cur.value !in Touch(t, K);
  }

  lemma WalkedRefl(s: State, D: set<Label>)
    requires Inv(s, D)
    ensures Walked(s, s, {}, D)
  {
    assert D + {} == D;
  }

  // ----- book-keeping -----

  ghost predicate SameFields(s: State, t: State) {
    t.labels == s.labels && t.pads == s.pads && t.fin == s.fin && t.cached == s.cached
  }

  // T: blocks of the start state that may grow; D: labels defined; R: blocks made and not yet
  // used; E: blocks known to be closed; P: open blocks set aside, to be gone on with later.
  datatype Book = Book(T: set<BlockId>, D: set<Label>, R: set<BlockId>, E: set<BlockId>, P: set<BlockId>)

  ghost predicate Prog(s: State, t: State, k: Book) {
    && Inv(t, k.D) && Mod(s, t, k.T)
    && (t.cur.Some? ==> t.cur.value in k.T || t.cur.value >= |s.blocks|)
    && (forall x :: x in k.R ==> Reserved(s, t, x))
    && (forall x :: x in k.E ==> Ended(t, x))
    && (forall x :: x in k.P ==> Parked(s, t, k, x))
  }

  ghost predicate Parked(s: State, t: State, k: Book, x: BlockId) {
    && x < |t.blocks| && (x in k.T || x >= |s.blocks|) && !Ended(t, x) && t.cur != Some(x) && x !in k.R
    && (forall l :: l in t.labels && l !in k.D ==> t.labels[l] != x)
  }

  ghost predicate Reserved(s: State, t: State, x: BlockId) {
    && |s.blocks| <= x < |t.blocks| && t.blocks[x] == [] && t.cur != Some(x)
    && (forall l :: l in t.labels ==> t.labels[l] != x)
  }

  // A block that has been closed stays as it is.
  lemma EndedStays(a: State, b: State, T: set<BlockId>, D: set<Label>, x: BlockId)
    requires Mod(a, b, T) && Inv(b, D) && Ended(a, x)
    ensures Ended(b, x) && b.blocks[x] == a.blocks[x]
  {
    assert TermLast(b.blocks[x]) && a.blocks[x] <= b.blocks[x];
    var k := |a.blocks[x]| - 1;
    assert b.blocks[x][k] == a.blocks[x][k];
  }

  lemma ProgStart(s: State, L: set<Label>, D: set<Label>)
    requires Inv(s, D)
    ensures Prog(s, s, Book(Touch(s, L), D, {}, {}, {}))
  {
  }

  lemma ProgEnd(s: State, t: State, L: set<Label>, D: set<Label>, k: Book)
    requires Prog(s, t, k) && k.T == Touch(s, L) && k.D == D + L
    requires t.pads == s.pads && t.fin == s.fin
    requires s.cur.Some? && t.cur != s.cur ==> s.cur.value in k.E
    ensures Walked(s, t, L, D)
  {
  }

  ghost function Range(b: BlockId, n: nat): (r: set<BlockId>)
    ensures forall x :: x in r <==> b <= x < b + n
    decreases n
  {
    if n == 0 then {} else {b} + Range(b + 1, n - 1)
  }

  lemma ProgFresh(s: State, t: State, n: nat, k: Book)
    requires Prog(s, t, k)
    ensures Prog(s, Fresh(t, n), k.(R := k.R + Range(|t.blocks|, n)))
    ensures OpenCur(t) ==> OpenCur(Fresh(t, n))
    ensures SameFields(t, Fresh(t, n)) && Fresh(t, n).cur == t.cur && |Fresh(t, n).blocks| == |t.blocks| + n
  {
    hide Inv, Mod;
    var u := Fresh(t, n);
    FreshKeeps(s, t, n, k.T, k.D);
    forall x | x in k.R + Range(|t.blocks|, n)
      ensures Reserved(s, u, x)
    {
      if x in k.R { assert Reserved(s, t, x); }
      else { NotYet(t, x, k.D); MadeLater(s, t, k.T); }
    }
    forall x | x in k.P
      ensures Parked(s, u, k.(R := k.R + Range(|t.blocks|, n)), x)
    {
      assert Parked(s, t, k, x);
    }
  }

  lemma FreshKeeps(s: State, t: State, n: nat, T: set<BlockId>, D: set<Label>)
    requires Inv(t, D) && Mod(s, t, T)
    ensures Inv(Fresh(t, n), D) && Mod(s, Fresh(t, n), T)
    ensures OpenCur(t) ==> OpenCur(Fresh(t, n))
  {
    var u := Fresh(t, n);
    forall x | 0 <= x < |u.blocks|
      ensures TermLast(u.blocks[x]) && TargetsOk(u.blocks[x], |u.blocks|)
    {
      if x < |t.blocks| { assert TermLast(t.blocks[x]) && TargetsOk(t.blocks[x], |t.blocks|); }
    }
  }

  lemma NotYet(t: State, x: BlockId, D: set<Label>)
    requires Inv(t, D) && x >= |t.blocks|
    ensures t.cur != Some(x) && forall l :: l in t.labels ==> t.labels[l] != x
  {
  }

  lemma MadeLater(s: State, t: State, T: set<BlockId>)
    requires Mod(s, t, T)
    ensures |s.blocks| <= |t.blocks|
  {
  }

  // Adding to an open block: the current one, or one reserved.
  lemma ProgAppend(s: State, t: State, b: BlockId, i: Instr, k: Book)
    requires Prog(s, t, k) && b < |t.blocks| && !Ended(t, b) && Targets(i, |t.blocks|)
    requires (b in k.T || b >= |s.blocks|) && b !in k.P
    requires forall l :: l in t.labels && l !in k.D ==> t.labels[l] != b
    ensures var u := Append(t, b, i);
      && Prog(s, u, k.(R := k.R - {b}, E := if IsTerm(i) then k.E + {b} else k.E))
      && (Ended(u, b) <==> IsTerm(i))
      && SameFields(t, u) && u.cur == t.cur && |u.blocks| == |t.blocks|
  {
    var u := Append(t, b, i);
    var c := t.blocks[b];
    assert TermLast(c) && TargetsOk(c, |t.blocks|);
    assert forall x :: 0 <= x < |c| ==> !IsTerm(c[x]);
    forall x | 0 <= x < |u.blocks|
      ensures TermLast(u.blocks[x]) && TargetsOk(u.blocks[x], |u.blocks|)
    {
      if x != b { assert TermLast(t.blocks[x]) && TargetsOk(t.blocks[x], |t.blocks|); }
    }
    ModTrans(s, t, u, k.T, {b});
    forall x | x in k.R - {b}
      ensures Reserved(s, u, x)
    {
      assert Reserved(s, t, x);
    }
    forall x | x in k.P
      ensures Parked(s, u, k.(R := k.R - {b}), x)
    {
      assert Parked(s, t, k, x);
    }
  }

  lemma ProgPut(s: State, t: State, i: Instr, k: Book)
    requires Prog(s, t, k) && OpenCur(t) && Targets(i, |t.blocks|)
    ensures Prog(s, Put(t, i), k.(E := if IsTerm(i) && t.cur.Some? then k.E + {t.cur.value} else k.E))
    ensures !IsTerm(i) ==> OpenCur(Put(t, i))
    ensures SameFields(t, Put(t, i)) && Put(t, i).cur == t.cur && |Put(t, i).blocks| == |t.blocks|
    ensures forall x :: x in k.P ==> x < |t.blocks| && t.blocks[x] == Put(t, i).blocks[x]
  {
    assert forall x :: x in k.P ==> Parked(s, t, k, x);
    if t.cur.Some? {
      ProgAppend(s, t, t.cur.value, i, k);
      forall x | x in k.R
        ensures x != t.cur.value
      {
        assert Reserved(s, t, x);
      }
      assert k.R - {t.cur.value} == k.R;
    }
  }

  // Moving the current block to a reserved one.
  lemma ProgGoes(s: State, t: State, b: BlockId, k: Book)
    requires Prog(s, t, k) && b in k.R
    ensures Prog(s, Goes(t, b), k.(R := k.R - {b})) && OpenCur(Goes(t, b))
    ensures |s.blocks| <= b < |t.blocks| && t.blocks[b] == []
    ensures SameFields(t, Goes(t, b)) && Goes(t, b).cur == Some(b) && Goes(t, b).blocks == t.blocks
  {
    assert Reserved(s, t, b);
    forall x | x in k.R - {b}
      ensures Reserved(s, Goes(t, b), x)
    {
      assert Reserved(s, t, x);
    }
    forall x | x in k.P
      ensures Parked(s, Goes(t, b), k.(R := k.R - {b}), x)
    {
      assert Parked(s, t, k, x);
    }
  }

  // The same, setting the block left aside.
  lemma ProgPark(s: State, t: State, b: BlockId, k: Book)
    requires Prog(s, t, k) && b in k.R && OpenCur(t) && t.cur.Some?
    ensures Prog(s, Goes(t, b), k.(R := k.R - {b}, P := k.P + {t.cur.value}))
    ensures OpenCur(Goes(t, b)) && |s.blocks| <= b < |t.blocks| && t.blocks[b] == []
    ensures SameFields(t, Goes(t, b)) && Goes(t, b).cur == Some(b) && Goes(t, b).blocks == t.blocks
  {
    ProgGoes(s, t, b, k);
    assert forall x :: x in k.R ==> Reserved(s, t, x);
    var k1 := k.(R := k.R - {b}, P := k.P + {t.cur.value});
    forall x | x in k1.P
      ensures Parked(s, Goes(t, b), k1, x)
    {
      if x in k.P { assert Parked(s, t, k, x); }
    }
  }

  lemma ParkedIn(s: State, t: State, k: Book)
    requires Prog(s, t, k)
    ensures forall x :: x in k.P ==> x < |t.blocks| && t.cur != Some(x)
  {
    assert forall x :: x in k.P ==> Parked(s, t, k, x);
  }

  lemma ProgUnpark(s: State, t: State, b: BlockId, k: Book)
    requires Prog(s, t, k) && b in k.P
    ensures Prog(s, t.(cur := Some(b)), k.(P := k.P - {b})) && OpenCur(t.(cur := Some(b)))
    ensures b < |t.blocks|
  {
    var u := t.(cur := Some(b));
    assert Parked(s, t, k, b);
    forall x | x in k.R
      ensures Reserved(s, u, x)
    {
      assert Reserved(s, t, x);
    }
    forall x | x in k.P - {b}
      ensures Parked(s, u, k, x)
    {
      assert Parked(s, t, k, x);
    }
  }

  lemma ProgDies(s: State, t: State, k: Book)
    requires Prog(s, t, k)
    ensures Prog(s, Dies(t), k)
  {
    forall x | x in k.R
      ensures Reserved(s, Dies(t), x)
    {
      assert Reserved(s, t, x);
    }
    forall x | x in k.P
      ensures Parked(s, Dies(t), k, x)
    {
      assert Parked(s, t, k, x);
    }
  }

  // The pad stack, the finally block and the delayed return may be set freely.
  lemma ProgFields(s: State, t: State, pads: seq<BlockId>, fin: Option<BlockId>, cached: Option<Node>, k: Book)
    requires Prog(s, t, k)
    requires forall i :: 0 <= i < |pads| ==> pads[i] < |t.blocks|
    requires fin.Some? ==> fin.value < |t.blocks|
    ensures Prog(s, t.(pads := pads, fin := fin, cached := cached), k)
  {
    forall x | x in k.R
      ensures Reserved(s, t.(pads := pads, fin := fin, cached := cached), x)
    {
      assert Reserved(s, t, x);
    }
    forall x | x in k.P
      ensures Parked(s, t.(pads := pads, fin := fin, cached := cached), k, x)
    {
      assert Parked(s, t, k, x);
    }
  }

  lemma ProgWalk(s: State, t: State, u: State, L: set<Label>, k: Book)
    requires Prog(s, t, k) && Walked(t, u, L, k.D) && k.D !! L
    requires LabelBlocks(s, L) <= k.T
    ensures Prog(s, u, k.(D := k.D + L)) && |t.blocks| <= |u.blocks|
    ensures forall x :: x in k.R + k.P ==> x < |t.blocks| && t.blocks[x] == u.blocks[x]
    ensures t.cur.Some? && u.cur != t.cur ==> Prog(s, u, k.(D := k.D + L, E := k.E + {t.cur.value}))
  {
    forall x | x in Touch(t, L) && x < |s.blocks|
      ensures x in k.T
    {
      if t.cur != Some(x) {
        var l :| l in L && l in t.labels && t.labels[l] == x;
        assert l in s.labels;
        assert x in LabelBlocks(s, L);
      }
    }
    ModTrans(s, t, u, k.T, Touch(t, L));
    forall x | x in k.R
      ensures Reserved(s, u, x) && t.blocks[x] == u.blocks[x]
    {
      assert Reserved(s, t, x);
      assert x !in Touch(t, L);
    }
    forall x | x in k.E
      ensures Ended(u, x)
    {
      EndedStays(t, u, Touch(t, L), k.D + L, x);
    }
    forall x | x in k.P
      ensures Parked(s, u, k.(D := k.D + L), x) && t.blocks[x] == u.blocks[x]
    {
      assert Parked(s, t, k, x);
      assert x !in Touch(t, L);
    }
  }

  // The labels of a part are labels of the whole.
  lemma LabelBlocksPart(s: State, L: set<Label>, K: set<Label>)
    requires L <= K
    ensures LabelBlocks(s, L) <= LabelBlocks(s, K) <= Touch(s, K)
  {
  }
}
