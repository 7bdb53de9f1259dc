/** What the marks of a walk tell of the graph walked, and what putting clones into the recorded slots
    does to it: the tree it stands for stays, and no tracked node keeps a second holder. */
module NodeRepair {
  import opened NodeGraph
  import opened NodeSharing

  lemma TraceIn(g: Graph, n: Bnode)
    requires Wf(g) && n in g
    ensures EventsIn(g, Trace(g, n))
  {
    forall e | e in Trace(g, n) && e.Child?
      ensures e.c in g
    {
      TraceIsBelow(g, n, e);
    }
  }

  ghost function WalkMarks(g: Graph, ctl: Control, root: Bnode): Marks
    requires Wf(g) && root in g
  {
    TraceIn(g, root);
    NoteAll(g, ctl, NoMarks(), Trace(g, root))
  }

  ghost predicate SharedChild(m: Marks, c: Bnode) {
    exists k :: 0 <= k < |m.sharing| && m.sharing[k].child == c
  }

  // A tracked node is recorded just when it has two holders.
  lemma RecordedIsShared(g: Graph, ctl: Control, root: Bnode, c: Bnode)
    requires Wf(g) && root in g && c in g && Tracked(g, ctl, c)
    ensures SharedChild(WalkMarks(g, ctl, root), c) <==> !OneHolder(g, root, c)
  {
    hide Tracked, Note, NoteAll, InstsNoted, LastNoted, PairsRecorded;
    var es := Trace(g, root);
    var m := WalkMarks(g, ctl, root);
    TraceIn(g, root);
    NotedAll(g, ctl, es);
    if SharedChild(m, c) {
      var k :| 0 <= k < |m.sharing| && m.sharing[k].child == c;
      var r := m.sharing[k];
      var j :| 0 <= j < |es| && es[j].Child? && es[j].c == c && Slot(es[j].parent, es[j].slot) != r.at;
      TraceIsBelow(g, root, Child(c, r.at.parent, r.at.index));
      TraceIsBelow(g, root, es[j]);
      assert Holds(g, r.at.parent, r.at.index, c) && Holds(g, es[j].parent, es[j].slot, c);
    }
    if !OneHolder(g, root, c) {
      var p, i, q, j :| p in Below(g, root) && q in Below(g, root) && Holds(g, p, i, c) && Holds(g, q, j, c)
        && !(p == q && i == j);
      TwoHoldersRecorded(g, ctl, root, c, p, i, q, j);
    }
  }

  // Of two holders of a tracked node, at least one is recorded.
  lemma TwoHoldersRecorded(g: Graph, ctl: Control, root: Bnode, c: Bnode, p: Bnode, i: nat, q: Bnode, j: nat)
    requires Wf(g) && root in g && c in g && Tracked(g, ctl, c) && p in Below(g, root) && q in Below(g, root)
    requires Holds(g, p, i, c) && Holds(g, q, j, c) && !(p == q && i == j)
    ensures var s := WalkMarks(g, ctl, root).sharing; Shared(c, Slot(p, i)) in s || Shared(c, Slot(q, j)) in s
  {
    hide Tracked;
    var es := Trace(g, root);
    TraceIn(g, root);
    NotedAll(g, ctl, es);
    TraceIsBelow(g, root, Child(c, p, i));
    TraceIsBelow(g, root, Child(c, q, j));
    var a :| 0 <= a < |es| && es[a] == Child(c, p, i);
    var b :| 0 <= b < |es| && es[b] == Child(c, q, j);
  }

  // Every recorded slot lies below the root and holds its child.
  lemma RecordedHold(g: Graph, ctl: Control, root: Bnode, r: Shared)
    requires Wf(g) && root in g && r in WalkMarks(g, ctl, root).sharing
    ensures r.at.parent in Below(g, root) && Holds(g, r.at.parent, r.at.index, r.child)
    ensures r.child in Below(g, root) && Tracked(g, ctl, r.child)
  {
    hide Tracked;
    var es := Trace(g, root);
    TraceIn(g, root);
    NotedAll(g, ctl, es);
    TraceIsBelow(g, root, Child(r.child, r.at.parent, r.at.index));
    BelowClosed(g, root);
  }

  // The counts are nought just when nothing of their kind is shared.
  lemma CountsTell(g: Graph, ctl: Control, root: Bnode)
    requires Wf(g) && root in g
    ensures var m := WalkMarks(g, ctl, root);
      && (m.instShares == 0 <==> InstsUnshared(g, root))
      && (m.stmtShares == 0 <==> StmtsUnshared(g, ctl, root))
      && (m.exprShares == 0 <==> ExprsUnshared(g, ctl, root))
  {
    hide Tracked, OneHolder, InstsUnshared;
    var m := WalkMarks(g, ctl, root);
    TraceIn(g, root);
    NotedAll(g, ctl, Trace(g, root));
    InstCountTells(g, ctl, root);
    forall c | c in Below(g, root) && Tracked(g, ctl, c)
      ensures SharedChild(m, c) <==> !OneHolder(g, root, c)
    {
      RecordedIsShared(g, ctl, root, c);
    }
    forall k | 0 <= k < |m.sharing|
      ensures var c := m.sharing[k].child; c in Below(g, root) && Tracked(g, ctl, c) && !OneHolder(g, root, c)
    {
      RecordedHold(g, ctl, root, m.sharing[k]);
      assert SharedChild(m, m.sharing[k].child);
    }
  }

  // An instruction met in two places shows in the count.
  lemma UncountedHaveOneOwner(es: seq<Event>, m: Marks, x: Instruction, p: Bnode, i: int, q: Bnode, j: int)
    requires InstsNoted(es, m) && m.instShares == 0 && i >= 0 && j >= 0
    requires Inst(x, p, i) in es && Inst(x, q, j) in es
    ensures p == q && i == j
  {
    var a :| 0 <= a < |es| && es[a] == Inst(x, p, i);
    var b :| 0 <= b < |es| && es[b] == Inst(x, q, j);
    assert m.iparent[es[a].x] == Slot(p, i) && m.iparent[es[b].x] == Slot(q, j);
  }

  // A count above zero comes from an instruction met in two places.
  lemma CountedHasTwoOwners(es: seq<Event>, m: Marks) returns (x: Instruction, s: Slot, t: Slot)
    requires InstsNoted(es, m) && m.instShares != 0
    ensures s != t && Inst(x, s.parent, s.index) in es && Inst(x, t.parent, t.index) in es
  {
    var k :| 0 <= k < |es| && es[k].Inst? && m.iparent[es[k].x] != Slot(es[k].parent, es[k].slot);
    x, s, t := es[k].x, m.iparent[es[k].x], Slot(es[k].parent, es[k].slot);
    assert InstSeen(es, x, s);
  }

  lemma InstCountTells(g: Graph, ctl: Control, root: Bnode)
    requires Wf(g) && root in g
    ensures WalkMarks(g, ctl, root).instShares == 0 <==> InstsUnshared(g, root)
  {
    var es := Trace(g, root);
    var m := WalkMarks(g, ctl, root);
    TraceIn(g, root);
    NotedAll(g, ctl, es);
    hide ChildrenNoted, InstsNoted, Below, Trace, NoteAll, WalkMarks;
    if m.instShares == 0 {
      forall p, i, q, j | p in Below(g, root) && q in Below(g, root) && !p.flavor.IsStmt() && 0 <= i < |p.insts|
        && HoldsInst(q, j, p.insts[i])
        ensures p == q && i == j
      {
        var x := p.insts[i];
        TraceIsBelow(g, root, Inst(x, p, i));
        TraceIsBelow(g, root, Inst(x, q, j));
        UncountedHaveOneOwner(es, m, x, p, i, q, j);
      }
    } else {
      var x, s, t := CountedHasTwoOwners(es, m);
      TraceIsBelow(g, root, Inst(x, s.parent, s.index));
      TraceIsBelow(g, root, Inst(x, t.parent, t.index));
      assert HoldsInst(s.parent, s.index, x) && HoldsInst(t.parent, t.index, x);
    }
  }

  // ----- putting clones in place -----

  // G is g with clones, in new nodes, put into some slots of the nodes of g.
  ghost predicate Mended(g: Graph, G: Graph) {
    && SameTrees(g, G)
    && (forall n | n in g :: |G[n]| == |g[n]|)
    && (forall n, i | n in g && 0 <= i < |g[n]| :: G[n][i] == g[n][i] || G[n][i] !in g)
    && (forall n, i | n in G && n !in g && 0 <= i < |G[n]| :: G[n][i] !in g)
    && NewHeldOnce(g, G)
    && NewInstsApart(g, G)
  }

  ghost predicate NewHeldOnce(g: Graph, G: Graph) {
    forall p, i, q, j | p in G && 0 <= i < |G[p]| && q in G && 0 <= j < |G[q]| && G[p][i] == G[q][j] && G[p][i] !in g ::
      p == q && i == j
  }

  ghost predicate NewInstsApart(g: Graph, G: Graph) {
    forall p, i, q, j | p in G && p !in g && 0 <= i < |p.insts| && q in G && 0 <= j < |q.insts|
      && p.insts[i] == q.insts[j] ::
      p == q && i == j
  }

  lemma MendedRefl(g: Graph)
    requires Wf(g)
    ensures Mended(g, g)
  {
  }

  // The graph G with the tree h, rooted at r, added and put into the slot.
  ghost function Grafted(G: Graph, h: Graph, p: Bnode, slot: nat, r: Bnode): Graph
    requires p in G && slot < |G[p]|
  {
    (G + h)[p := G[p][slot := r]]
  }

  lemma GraftWf(G: Graph, h: Graph, p: Bnode, slot: nat, r: Bnode)
    requires Wf(G) && Forest(h, [r]) && G.Keys !! h.Keys
    requires p in G && slot < |G[p]| && r.rank < p.rank && r.flavor == G[p][slot].flavor
    ensures Wf(G + h) && Wf(Grafted(G, h, p, slot, r)) && r in h
  {
    assert r == [r][0] && r in h;
    var H := G + h;
    assert forall n | n in G :: H[n] == G[n];
    assert forall n | n in h :: H[n] == h[n];
    assert Wf(H);
    var K := Grafted(G, h, p, slot, r);
    forall n | n in K
      ensures |K[n]| == |H[n]| && forall i | 0 <= i < |K[n]| ::
                                    K[n][i] in K && K[n][i].rank < n.rank && K[n][i].flavor == H[n][i].flavor
    {
      if n == p { assert K[n] == G[p][slot := r]; } else { assert K[n] == H[n]; }
    }
  }

  // One graft keeps every tree, and what has been mended stays mended.
  lemma GraftMends(g: Graph, G: Graph, h: Graph, p: Bnode, slot: nat, r: Bnode)
    requires Mended(g, G) && p in g && slot < |g[p]|
    requires Forest(h, [r]) && r in h && G.Keys !! h.Keys && r.rank < p.rank
    requires Unfold(h, r) == Unfold(g, g[p][slot])
    requires NewInstsApart(G, G + h)
    ensures Mended(g, Grafted(G, h, p, slot, r)) && Grafted(G, h, p, slot, r)[p][slot] !in g
  {
    hide Unfold, NewInstsApart, NewHeldOnce, Wf, Forest, Grafted;
    SlotTree(g, G, p, slot);
    GraftSlot(g, G, p, slot, h, r);
    GraftWf(G, h, p, slot, r);
    GraftTrees(g, G, h, p, slot, r);
    GraftHeldOnce(g, G, h, p, slot, r);
    GraftKeys(G, h, p, slot, r);
    GraftInsts(g, G, h, Grafted(G, h, p, slot, r));
    GraftShape(g, G, h, p, slot, r);
  }

  lemma GraftKeys(G: Graph, h: Graph, p: Bnode, slot: nat, r: Bnode)
    requires p in G && slot < |G[p]|
    ensures Grafted(G, h, p, slot, r).Keys == G.Keys + h.Keys
  {
  }

  lemma GraftShape(g: Graph, G: Graph, h: Graph, p: Bnode, slot: nat, r: Bnode)
    requires g.Keys <= G.Keys && p in g && slot < |g[p]| && G.Keys !! h.Keys && r in h
    requires Forest(h, [r])
    requires forall n | n in g :: |G[n]| == |g[n]|
    requires forall n, i | n in g && 0 <= i < |g[n]| :: G[n][i] == g[n][i] || G[n][i] !in g
    requires forall n, i | n in G && n !in g && 0 <= i < |G[n]| :: G[n][i] !in g
    ensures var K := Grafted(G, h, p, slot, r);
      && K[p][slot] !in g
      && (forall n | n in g :: |K[n]| == |g[n]|)
      && (forall n, i | n in g && 0 <= i < |g[n]| :: K[n][i] == g[n][i] || K[n][i] !in g)
      && (forall n, i | n in K && n !in g && 0 <= i < |K[n]| :: K[n][i] !in g)
  {
    var K := Grafted(G, h, p, slot, r);
    assert forall n | n in G && n != p :: K[n] == G[n];
    assert forall n | n in h :: K[n] == h[n];
    assert K[p] == G[p][slot := r];
    forall n, i | n in g && 0 <= i < |g[n]|
      ensures K[n][i] == G[n][i] || K[n][i] == r
    {
    }
  }

  lemma SlotTree(g: Graph, G: Graph, p: Bnode, slot: nat)
    requires SameTrees(g, G) && p in g && slot < |g[p]| && |G[p]| == |g[p]|
    ensures Unfold(G, G[p][slot]) == Unfold(g, g[p][slot])
  {
    assert Unfold(G, p).kids[slot] == Unfold(g, p).kids[slot];
  }

  lemma GraftSlot(g: Graph, G: Graph, p: Bnode, slot: nat, h: Graph, r: Bnode)
    requires Mended(g, G) && p in g && slot < |g[p]| && Forest(h, [r]) && r.rank < p.rank
    requires Unfold(G, G[p][slot]) == Unfold(g, g[p][slot]) && r in h && Unfold(h, r) == Unfold(g, g[p][slot])
    ensures r.flavor == G[p][slot].flavor
  {
  }

  lemma GraftTrees(g: Graph, G: Graph, h: Graph, p: Bnode, slot: nat, r: Bnode)
    requires SameTrees(g, G) && p in g && slot < |G[p]| && G.Keys !! h.Keys && Forest(h, [r]) && r in h
    requires Wf(G + h) && Wf(Grafted(G, h, p, slot, r)) && Unfold(h, r) == Unfold(G, G[p][slot])
    ensures SameTrees(g, Grafted(G, h, p, slot, r))
  {
    var H := G + h;
    var K := Grafted(G, h, p, slot, r);
    assert forall n | n in G :: H[n] == G[n];
    assert forall n | n in h :: H[n] == h[n];
    UnfoldExtends(G, H);
    UnfoldExtends(h, H);
    forall n | n in g
      ensures Unfold(K, n) == Unfold(g, n)
    {
      UnfoldPlaced(H, K, p, slot, r, n);
    }
  }

  lemma GraftHeldOnce(g: Graph, G: Graph, h: Graph, p: Bnode, slot: nat, r: Bnode)
    requires Mended(g, G) && p in g && slot < |g[p]| && Forest(h, [r]) && G.Keys !! h.Keys && r in h
    ensures NewHeldOnce(g, Grafted(G, h, p, slot, r))
  {
    hide Unfold, NewInstsApart;
    var K := Grafted(G, h, p, slot, r);
    assert r in [r];
    forall a, i, b, j | a in K && 0 <= i < |K[a]| && b in K && 0 <= j < |K[b]| && K[a][i] == K[b][j] && K[a][i] !in g
      ensures a == b && i == j
    {
      GraftHolder(G, h, p, slot, r, a, i);
      GraftHolder(G, h, p, slot, r, b, j);
    }
  }

  // A slot of the grafted graph is the slot filled, one of the old graph, or one of the new tree.
  lemma GraftHolder(G: Graph, h: Graph, p: Bnode, slot: nat, r: Bnode, a: Bnode, i: nat)
    requires Wf(G) && Forest(h, [r]) && G.Keys !! h.Keys && p in G && slot < |G[p]| && r in h
    requires var K := Grafted(G, h, p, slot, r); a in K && i < |K[a]|
    ensures var K := Grafted(G, h, p, slot, r); var c := K[a][i];
      || (a == p && i == slot && c == r)
      || (a in h && i < |h[a]| && c == h[a][i] && c in h && c != r)
      || (a in G && i < |G[a]| && c == G[a][i] && c in G && !(a == p && i == slot))
  {
    assert r in [r];
  }

  lemma GraftInsts(g: Graph, G: Graph, h: Graph, K: Graph)
    requires NewInstsApart(g, G) && NewInstsApart(G, G + h) && K.Keys == G.Keys + h.Keys && g.Keys <= G.Keys
    ensures NewInstsApart(g, K)
  {
    var H := G + h;
    forall p, i, q, j | p in K && p !in g && 0 <= i < |p.insts| && q in K && 0 <= j < |q.insts|
      && p.insts[i] == q.insts[j]
      ensures p == q && i == j
    {
      assert p in H && q in H;
      if p in G && q !in G { assert q == p && j == i; }
    }
  }

  // ----- after the last graft -----

  // Nodes of the old graph that can still be reached could be reached before.
  lemma MendedBelow(g: Graph, G: Graph, root: Bnode, n: Bnode)
    requires Mended(g, G) && root in g && n in Below(G, root) && n in g
    ensures n in Below(g, root)
  {
    hide Unfold, NewHeldOnce, NewInstsApart;
    var S := Below(g, root) + (G.Keys - g.Keys);
    BelowClosed(g, root);
    forall p, i | p in S && p in G && 0 <= i < |G[p]|
      ensures G[p][i] in S
    {
      if p in g && G[p][i] in g {
        assert G[p][i] == g[p][i];
        assert p in Below(g, root);
      }
    }
    BelowWithin(G, root, S);
  }

  lemma MendedTracked(g: Graph, G: Graph, ctl: Control, c: Bnode)
    requires Mended(g, G) && c in g
    ensures Tracked(G, ctl, c) <==> Tracked(g, ctl, c)
  {
    if c.flavor.NConversion? { SlotTree(g, G, c, 0); }
  }

  ghost predicate AllFilled(g: Graph, G: Graph, rs: seq<Shared>) {
    forall k | 0 <= k < |rs| ::
      var s := rs[k].at; s.parent in G && s.index < |G[s.parent]| && G[s.parent][s.index] !in g
  }

  // Once every recorded slot holds a clone, nothing is shared any more.
  lemma MendedIsUnshared(g: Graph, G: Graph, ctl: Control, root: Bnode)
    requires Mended(g, G) && root in g && AllFilled(g, G, WalkMarks(g, ctl, root).sharing)
    requires InstsUnshared(g, root)
    ensures InstsUnshared(G, root) && StmtsUnshared(G, ctl, root) && ExprsUnshared(G, ctl, root)
  {
    hide Unfold, Tracked, InstsUnshared;
    MendedInsts(g, G, root);
    forall c | c in Below(G, root) && Tracked(G, ctl, c)
      ensures OneHolder(G, root, c)
    {
      if c in g { MendedTracked(g, G, ctl, c); MendedOneHolder(g, G, ctl, root, c); }
    }
  }

  lemma MendedOneHolder(g: Graph, G: Graph, ctl: Control, root: Bnode, c: Bnode)
    requires Mended(g, G) && root in g && AllFilled(g, G, WalkMarks(g, ctl, root).sharing)
    requires c in g && Tracked(g, ctl, c)
    ensures OneHolder(G, root, c)
  {
    hide Unfold, Tracked, WalkMarks;
    forall p, i, q, j | p in Below(G, root) && q in Below(G, root) && Holds(G, p, i, c) && Holds(G, q, j, c)
      ensures p == q && i == j
    {
      assert p in g && q in g;
      MendedBelow(g, G, root, p);
      MendedBelow(g, G, root, q);
      if !(p == q && i == j) {
        TwoHoldersRecorded(g, ctl, root, c, p, i, q, j);
      }
    }
  }

  lemma MendedInsts(g: Graph, G: Graph, root: Bnode)
    requires Mended(g, G) && root in g && InstsUnshared(g, root)
    ensures InstsUnshared(G, root)
  {
    hide Unfold, NewHeldOnce;
    forall p, i, q, j | p in Below(G, root) && q in Below(G, root) && !p.flavor.IsStmt() && 0 <= i < |p.insts|
      && HoldsInst(q, j, p.insts[i])
      ensures p == q && i == j
    {
      if p in g && q in g {
        MendedBelow(g, G, root, p);
        MendedBelow(g, G, root, q);
        assert HoldsInst(q, j, p.insts[i]);
      }
    }
  }
}
