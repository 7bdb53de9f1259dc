/** The checker of node sharing, working on the nodes in place: it walks the graph, noting who holds
    what, and undoes the sharing of plain expressions by cloning. */
module TreeIntegrity {
  import opened NodeGraph
  import opened NodeSharing
  import opened NodeRepair

  // ----- cloning -----

  method CloneInstructions(insts: seq<Instruction>) returns (r: seq<Instruction>, ghost I: set<Instruction>)
    ensures fresh(I) && Opcodes(r) == Opcodes(insts)
    ensures forall k | 0 <= k < |r| :: r[k] in I
    ensures forall j, k | 0 <= j < |r| && 0 <= k < |r| && r[j] == r[k] :: j == k
  {
    r, I := [], {};
    for k := 0 to |insts|
      invariant fresh(I) && |r| == k
      invariant forall j | 0 <= j < k :: r[j] in I && r[j].opcode == insts[j].opcode
      invariant forall i, j | 0 <= i < k && 0 <= j < k && r[i] == r[j] :: i == j
    {
      var x := new Instruction(insts[k].opcode);
      r, I := r + [x], I + {x};
    }
  }

  lemma InstsMerge(N: set<Bnode>, I: set<Instruction>, M: set<Bnode>, J: set<Instruction>)
    requires InstsIn(N, I) && InstsApart(N) && InstsIn(M, J) && InstsApart(M) && I !! J
    ensures InstsIn(N + M, I + J) && InstsApart(N + M)
  {
    forall p, i, q, j | p in N + M && 0 <= i < |p.insts| && q in N + M && 0 <= j < |q.insts| && p.insts[i] == q.insts[j]
      ensures p == q && i == j
    {
      if p in N { assert p.insts[i] in I; } else { assert p.insts[i] in J; }
      if q in N { assert q.insts[j] in I; } else { assert q.insts[j] in J; }
    }
  }

  ghost predicate ClonesOf(h: Graph, roots: seq<Bnode>, g: Graph, kids: seq<Bnode>)
    requires Wf(h) && Wf(g)
  {
    && |roots| <= |kids|
    && forall k | 0 <= k < |roots| ::
         roots[k] in h && kids[k] in g && roots[k].rank == kids[k].rank && Unfold(h, roots[k]) == Unfold(g, kids[k])
  }

  lemma ClonesMerge(h: Graph, roots: seq<Bnode>, k: Graph, r: Bnode, g: Graph, kids: seq<Bnode>)
    requires Forest(h, roots) && Forest(k, [r]) && r in k && h.Keys !! k.Keys && Wf(g)
    requires ClonesOf(h, roots, g, kids) && |roots| < |kids| && kids[|roots|] in g
    requires r.rank == kids[|roots|].rank && Unfold(k, r) == Unfold(g, kids[|roots|])
    ensures Forest(h + k, roots + [r]) && ClonesOf(h + k, roots + [r], g, kids)
  {
    ForestsMerge(h, roots, k, r);
  }

  // A copy of a node over clones of its children stands for the same tree.
  lemma CloneRooted(h: Graph, roots: seq<Bnode>, g: Graph, n: Bnode, r: Bnode)
    requires Forest(h, roots) && Wf(g) && n in g && |roots| == |g[n]| && ClonesOf(h, roots, g, g[n]) && r !in h
    requires r.flavor == n.flavor && r.u == n.u && r.value == n.value && r.rank == n.rank
    requires Opcodes(r.insts) == Opcodes(n.insts)
    ensures var k := h[r := roots]; Forest(k, [r]) && Unfold(k, r) == Unfold(g, n)
  {
    var k := h[r := roots];
    forall i | 0 <= i < |roots|
      ensures roots[i].flavor == g[n][i].flavor
    {
      assert Unfold(h, roots[i]).flavor == Unfold(g, g[n][i]).flavor;
    }
    ForestRooted(h, roots, r);
    assert Unfold(k, r).kids == Unfold(g, n).kids;
  }

  lemma SnapAdd(N: set<Bnode>, M: set<Bnode>)
    requires N !! M
    ensures Snap(N + M) == Snap(N) + Snap(M)
  {
  }

  ghost predicate Plain(N: set<Bnode>) {
    forall n | n in N :: n.flavor in {NConst, NVar, NConversion, NDeref, NStructField}
  }

  lemma PlainMerge(N: set<Bnode>, M: set<Bnode>)
    requires Plain(N) && Plain(M)
    ensures Plain(N + M)
  {
  }

  method CloneSubtree(expr: Bnode, ghost S: set<Bnode>)
    returns (res: Bnode, ghost N: set<Bnode>, ghost I: set<Instruction>)
    requires Wf(Snap(S)) && expr in S && AllAcceptable(Unfold(Snap(S), expr))
    ensures fresh(N) && fresh(I) && res in N && InstsIn(N, I) && InstsApart(N)
    ensures Forest(Snap(N), [res]) && res.rank == expr.rank
    ensures Unfold(Snap(N), res) == Unfold(Snap(S), expr)
    ensures Plain(N)
    decreases expr.rank
  {
    hide Unfold, Forest, AllAcceptable, ClonesOf, InstsIn, InstsApart, Plain;
    var newChildren := [];
    N, I := {}, {};
    ghost var g := Snap(S);
    EmptyForest(g, expr.kids);
    for i := 0 to |expr.kids|
      invariant fresh(N) && fresh(I) && InstsIn(N, I) && InstsApart(N) && |newChildren| == i
      invariant Snap(S) == g && Forest(Snap(N), newChildren) && Wf(Snap(N))
        && ClonesOf(Snap(N), newChildren, g, expr.kids)
      invariant Plain(N)
    {
      var c := expr.kids[i];
      KidAcceptable(g, expr, i);
      assert !c.flavor.IsStmt();
      var clc, M, J := CloneSubtree(c, S);
      InstsMerge(N, I, M, J);
      SnapAdd(N, M);
      PlainMerge(N, M);
      ClonesMerge(Snap(N), newChildren, Snap(M), clc, g, expr.kids);
      ForestWf(Snap(N) + Snap(M), newChildren + [clc]);
      newChildren, N, I := newChildren + [clc], N + M, I + J;
    }
    var icl, J := CloneInstructions(expr.insts);
    res := new Bnode(expr.flavor, newChildren, expr.u, expr.value, icl, expr.rank);
    CloneRooted(Snap(N), newChildren, g, expr, res);
    assert Snap(N + {res}) == Snap(N)[res := newChildren];
    InstsOwn(res, J);
    PlainOwn(g, expr, res);
    PlainMerge(N, {res});
    InstsMerge(N, I, {res}, J);
    N, I := N + {res}, I + J;
  }

  lemma EmptyForest(g: Graph, kids: seq<Bnode>)
    requires Wf(g)
    ensures Snap({}) == map[] && Forest(Snap({}), []) && ClonesOf(Snap({}), [], g, kids)
    ensures InstsIn({}, {}) && InstsApart({}) && Plain({})
  {
  }

  lemma ForestWf(h: Graph, roots: seq<Bnode>)
    requires Forest(h, roots)
    ensures Wf(h)
  {
  }

  lemma InstsOwn(r: Bnode, I: set<Instruction>)
    requires forall k | 0 <= k < |r.insts| :: r.insts[k] in I
    requires forall j, k | 0 <= j < |r.insts| && 0 <= k < |r.insts| && r.insts[j] == r.insts[k] :: j == k
    ensures InstsIn({r}, I) && InstsApart({r})
  {
  }

  lemma KidAcceptable(g: Graph, n: Bnode, i: nat)
    requires Wf(g) && n in g && AllAcceptable(Unfold(g, n)) && i < |g[n]|
    ensures AllAcceptable(Unfold(g, g[n][i])) && n.flavor.Acceptable() && !g[n][i].flavor.IsStmt()
  {
    assert Unfold(g, n).kids[i] == Unfold(g, g[n][i]);
  }

  lemma RootAcceptable(g: Graph, n: Bnode)
    requires Wf(g) && n in g && AllAcceptable(Unfold(g, n))
    ensures n.flavor in {NConst, NVar, NConversion, NDeref, NStructField}
  {
  }

  lemma PlainOwn(g: Graph, n: Bnode, r: Bnode)
    requires Wf(g) && n in g && AllAcceptable(Unfold(g, n)) && r.flavor == n.flavor
    ensures Plain({r})
  {
    RootAcceptable(g, n);
  }

  // ----- which subtrees may be cloned -----

  lemma {:induction false} ClosedAcceptable(g: Graph, V: set<Bnode>, n: Bnode)
    requires Wf(g) && V <= g.Keys && Closed(g, V) && n in V
    requires forall m | m in V :: m.flavor.Acceptable()
    ensures AllAcceptable(Unfold(g, n))
    decreases n.rank
  {
    forall i | 0 <= i < |g[n]|
      ensures AllAcceptable(Unfold(g, n).kids[i])
    {
      ClosedAcceptable(g, V, g[n][i]);
    }
  }

  lemma {:induction false} AcceptableBelow(g: Graph, n: Bnode, m: Bnode)
    requires Wf(g) && n in g && AllAcceptable(Unfold(g, n)) && m in Below(g, n)
    ensures m.flavor.Acceptable()
    decreases n.rank, 1
  {
    if m == n {
      assert Unfold(g, n).flavor.Acceptable();
    } else {
      AcceptableBelowKids(g, n, |g[n]|, m);
    }
  }

  lemma {:induction false} AcceptableBelowKids(g: Graph, n: Bnode, k: nat, m: Bnode)
    requires Wf(g) && n in g && k <= |g[n]| && AllAcceptable(Unfold(g, n)) && m in BelowKids(g, n, k)
    ensures m.flavor.Acceptable()
    decreases n.rank, 0, k
  {
    if m in BelowKids(g, n, k - 1) {
      AcceptableBelowKids(g, n, k - 1, m);
    } else {
      KidAcceptable(g, n, k - 1);
      AcceptableBelow(g, g[n][k - 1], m);
    }
  }

  // A subtree may be cloned just when nothing below its root is of another flavor than these.
  lemma AcceptableExactly(g: Graph, n: Bnode)
    requires Wf(g) && n in g
    ensures AllAcceptable(Unfold(g, n)) <==> Plain(Below(g, n))
  {
    if AllAcceptable(Unfold(g, n)) {
      forall m | m in Below(g, n)
        ensures m.flavor in {NConst, NVar, NConversion, NDeref, NStructField}
      {
        AcceptableBelow(g, n, m);
      }
    }
    if Plain(Below(g, n)) {
      BelowClosed(g, n);
      ClosedAcceptable(g, Below(g, n), n);
    }
  }

  // What the worklist loop keeps: the nodes visited but not waiting are acceptable and their children
  // visited; and all that is visited is below the root.
  ghost predicate Sorted(g: Graph, root: Bnode, visited: set<Bnode>, waiting: set<Bnode>)
    requires Wf(g) && root in g
  {
    && root in visited && visited <= g.Keys && waiting <= visited
    && (forall n | n in visited && n !in waiting ::
          n.flavor.Acceptable() && forall i | 0 <= i < |g[n]| :: g[n][i] in visited)
    && (forall n | n in visited && AllAcceptable(Unfold(g, root)) :: AllAcceptable(Unfold(g, n)))
  }

  function Elems(ns: seq<Bnode>): set<Bnode> {
    set n | n in ns
  }

  method RepairableSubTree(root: Bnode, ghost S: set<Bnode>) returns (ok: bool)
    requires Wf(Snap(S)) && root in S
    ensures ok <==> AllAcceptable(Unfold(Snap(S), root))
    ensures ok <==> Plain(Below(Snap(S), root))
  {
    hide Unfold, AllAcceptable, Elems, Below, Plain;
    ghost var g := Snap(S);
    AcceptableExactly(g, root);
    var visited := {root};
    var workList := [root];
    ElemsAre(workList);
    ElemsAre([]);
    assert workList[..0] == [];
    while workList != []
      invariant Sorted(g, root, visited, Elems(workList))
      decreases S - visited, |workList|
    {
      ghost var visited0 := visited;
      ghost var n0 := |workList|;
      ElemsAre(workList);
      var e := workList[|workList| - 1];
      workList := workList[..|workList| - 1];
      if !e.flavor.Acceptable() {
        NotAcceptable(g, e);
        return false;
      }
      for j := 0 to |e.kids|
        invariant e in visited && visited0 <= visited && (visited == visited0 ==> |workList| < n0)
        invariant Sorted(g, root, visited, Elems(workList) + {e})
        invariant forall i | 0 <= i < j :: e.kids[i] in visited
      {
        var ce := e.kids[j];
        assert !ce.flavor.IsStmt();
        if ce !in visited {
          SortedAdd(g, root, visited, Elems(workList) + {e}, e, j);
          ElemsAre(workList + [ce]);
          assert (workList + [ce])[..|workList|] == workList;
          visited := visited + {ce};
          workList := workList + [ce];
        }
      }
    }
    ElemsAre([]);
    ClosedAcceptable(g, visited, root);
    return true;
  }

  lemma ElemsAre(ns: seq<Bnode>)
    ensures ns == [] ==> Elems(ns) == {}
    ensures ns != [] ==> ns[|ns| - 1] in Elems(ns) && Elems(ns) == Elems(ns[..|ns| - 1]) + {ns[|ns| - 1]}
  {
    if ns != [] {
      var front, x := ns[..|ns| - 1], ns[|ns| - 1];
      assert ns == front + [x];
    }
  }

  lemma NotAcceptable(g: Graph, n: Bnode)
    requires Wf(g) && n in g && !n.flavor.Acceptable()
    ensures !AllAcceptable(Unfold(g, n))
  {
  }

  lemma SortedAdd(g: Graph, root: Bnode, visited: set<Bnode>, waiting: set<Bnode>, e: Bnode, j: nat)
    requires Wf(g) && root in g && e in visited && e in g && j < |g[e]| && Sorted(g, root, visited, waiting)
    ensures Sorted(g, root, visited + {g[e][j]}, waiting + {g[e][j]})
  {
    hide Unfold, AllAcceptable;
    if AllAcceptable(Unfold(g, root)) { KidAcceptable(g, e, j); }
  }

  // ----- the visitor -----

  class IntegrityVisitor {
    const ctl: Control
    var nparent: map<Bnode, Slot>
    var iparent: map<Instruction, Slot>
    var sharing: seq<Shared>
    var instShareCount: nat
    var stmtShareCount: nat
    var exprShareCount: nat

    ghost function View(): Marks
      reads this
    {
      Marks(nparent, iparent, sharing, instShareCount, stmtShareCount, exprShareCount)
    }

    constructor (ctl: Control)
      ensures this.ctl == ctl && View() == NoMarks()
    {
      this.ctl := ctl;
      nparent, iparent, sharing := map[], map[], [];
      instShareCount, stmtShareCount, exprShareCount := 0, 0, 0;
    }

    method ShouldBeTracked(child: Bnode, ghost S: set<Bnode>) returns (b: bool)
      requires Wf(Snap(S)) && child in S
      ensures b <==> Tracked(Snap(S), ctl, child)
      ensures b <==>
              && (child.value in ctl.moduleScope ==>
                    child.flavor in {NEmptyStmt, NLabelStmt, NGotoStmt, NExprStmt, NReturnStmt, NDeferStmt, NIfStmt,
                                     NExcepStmt, NBlockStmt, NSwitchStmt})
              && !(ctl.ignoreVars && child.flavor == NVar)
              && !(ctl.ignoreVars && child.flavor == NConversion && child.kids[0].flavor == NVar)
    {
      assert Snap(S)[child] == child.kids;
      if !child.flavor.IsStmt() && child.value in ctl.moduleScope {
        return false;
      }
      if ctl.ignoreVars && (child.flavor.NVar? || (child.flavor.NConversion? && child.kids[0].flavor.NVar?)) {
        return false;
      }
      return true;
    }

    method SetParent(child: Bnode, parent: Bnode, slot: nat, ghost S: set<Bnode>)
      requires Wf(Snap(S)) && child in S
      modifies this
      ensures View() == Note(old(Snap(S)), ctl, old(View()), Child(child, parent, slot))
    {
      var tracked := ShouldBeTracked(child, S);
      if !tracked {
        return;
      }
      if child in nparent {
        var prev := nparent[child];
        if prev.parent == parent && prev.index == slot {
          return;
        }
        if child.flavor.IsStmt() {
          stmtShareCount := stmtShareCount + 1;
        } else {
          exprShareCount := exprShareCount + 1;
        }
        sharing := sharing + [Shared(child, Slot(parent, slot))];
      }
      nparent := nparent[child := Slot(parent, slot)];
    }

    method SetInstParent(inst: Instruction, exprParent: Bnode, slot: nat, ghost S: set<Bnode>)
      requires Wf(Snap(S))
      modifies this
      ensures View() == Note(old(Snap(S)), ctl, old(View()), Inst(inst, exprParent, slot))
    {
      if inst in iparent {
        var prev := iparent[inst];
        if prev.parent == exprParent && prev.index == slot {
          return;
        }
        instShareCount := instShareCount + 1;
      } else {
        iparent := iparent[inst := Slot(exprParent, slot)];
      }
    }

    method Visit(node: Bnode, ghost S: set<Bnode>)
      requires Wf(Snap(S)) && node in S
      modifies this
      ensures EventsIn(old(Snap(S)), Trace(old(Snap(S)), node))
      ensures View() == NoteAll(old(Snap(S)), ctl, old(View()), Trace(old(Snap(S)), node))
      decreases node.rank
    {
      hide Note, NoteAll, Wf, Trace, KidsTrace, InstsTrace, EventsIn;
      ghost var g := Snap(S);
      ghost var m := View();
      TraceStart(g, ctl, m, node);
      for idx := 0 to |node.kids|
        invariant Snap(S) == g && EventsIn(g, KidsTrace(g, node, idx))
        invariant View() == NoteAll(g, ctl, m, KidsTrace(g, node, idx))
      {
        var child := node.kids[idx];
        TraceKid(g, ctl, m, node, idx);
        Visit(child, S);
        SetParent(child, node, idx, S);
      }
      ghost var es := KidsTrace(g, node, |node.kids|);
      TraceEnd(g, node);
      if !node.flavor.IsStmt() {
        for idx := 0 to |node.insts|
          invariant Snap(S) == g && EventsIn(g, es + InstsTrace(node, idx))
          invariant View() == NoteAll(g, ctl, m, es + InstsTrace(node, idx))
        {
          TraceInst(g, ctl, m, node, idx, es);
          SetInstParent(node.insts[idx], node, idx, S);
        }
      }
    }

    // Puts a clone of the child into a slot that held the child.
    method CloneInto(child: Bnode, parent: Bnode, slot: nat, ghost g: Graph, ghost S: set<Bnode>,
                     ghost J: set<Instruction>)
      returns (ghost N: set<Bnode>, ghost I: set<Instruction>)
      requires Mended(g, Snap(S)) && parent in g && parent in S && slot < |g[parent]| && g[parent][slot] == child
        && child in g
      requires AllAcceptable(Unfold(g, child))
      requires InstsIn(S, J) && forall x | x in J :: allocated(x)
      modifies parent
      ensures fresh(N) && fresh(I) && InstsIn(S + N, J + I)
      ensures Plain(N)
      ensures Mended(g, Snap(S + N)) && slot < |old(parent.kids)| == |parent.kids|
      ensures parent.kids[slot] !in g && forall j | 0 <= j < |parent.kids| && j != slot ::
        parent.kids[j] == old(parent.kids[j])
      ensures Refilled(g, old(Snap(S)), Snap(S + N), parent, slot)
    {
      hide Mended, Unfold, AllAcceptable, Wf, InstsIn, NewInstsApart, Forest, InstsApart, Plain;
      ghost var G := Snap(S);
      MendedAt(g, G, parent, slot, child);
      var childClone;
      childClone, N, I := CloneSubtree(child, S);
      ghost var h := Snap(N);
      InstsNew(S, J, N, I);
      assert Snap(S) == G && S !! N;
      parent.ReplaceChild(slot, childClone);
      SnapGraft(S, N, G, h, parent, slot, childClone);
      assert Snap(S + N)[parent] == parent.kids;
      GraftMends(g, G, h, parent, slot, childClone);
    }

    // Clones every recorded child into its recorded slot, or stops at the first that may not be cloned.
    method Repair(root: Bnode, ghost S: set<Bnode>) returns (ok: bool, ghost S1: set<Bnode>)
      requires Wf(Snap(S)) && root in S && View() == WalkMarks(Snap(S), ctl, root) && stmtShareCount == 0
      modifies S
      ensures S <= S1 && fresh(S1 - S) && Mended(old(Snap(S)), Snap(S1))
      ensures Plain(S1 - S)
      ensures ok ==> AllFilled(old(Snap(S)), Snap(S1), sharing)
      ensures ok <==> Cloneable(old(Snap(S)), sharing, |sharing|)
    {
      hide Mended, Unfold, AllAcceptable, WalkMarks, Tracked, Wf, InstsIn, Snap, InstsApart, Forest, SameTrees, Closed,
        Below, Plain, Cloneable, AllFilled, Refilled;
      ghost var g := Snap(S);
      SnapIs(S);
      S1 := S;
      ghost var J := InstsOf(S);
      InstsOfIn(S);
      MendedRefl(g);
      RepairStart(g, ctl, root, sharing);
      RepairBegins(g, sharing);
      assert S1 - S == {};
      var visited: set<Bnode> := {};
      for k := 0 to |sharing|
        invariant S <= S1 && fresh(S1 - S) && Mended(g, Snap(S1))
        invariant Plain(S1 - S)
        invariant AllFilled(g, Snap(S1), sharing[..k])
        invariant InstsIn(S1, J) && forall x | x in J :: allocated(x)
        invariant forall c | c in visited :: c in g && AllAcceptable(Unfold(g, c))
        invariant Cloneable(g, sharing, k)
      {
        var r := sharing[k];
        var child, parent, slot := r.child, r.at.parent, r.at.index;
        SnapIs(S1);
        MendedAt(g, Snap(S1), parent, slot, child);
        CloneableNext(g, sharing, k);
        assert !child.flavor.IsStmt();
        if child !in visited {
          var fine := RepairableSubTree(child, S1);
          if !fine {
            return false, S1;
          }
          visited := visited + {child};
        }
        ghost var G := Snap(S1);
        ghost var N, I := CloneInto(child, parent, slot, g, S1, J);
        FilledNext(g, G, Snap(S1 + N), sharing, k);
        PlainMerge(S1 - S, N);
        assert S1 + N - S == S1 - S + N;
        S1, J := S1 + N, J + I;
      }
      assert sharing[..|sharing|] == sharing;
      return true, S1;
    }

    // Without repair, accepts just what is not shared and changes nothing. With repair, accepts just what
    // is not shared or only in expressions that may be cloned, and what it accepts is then not shared.
    // Whatever the outcome, the tree that every old node stands for is kept.
    method Examine(node: Bnode, ghost S: set<Bnode>) returns (ok: bool, ghost S1: set<Bnode>)
      requires Wf(Snap(S)) && node in S && View() == NoMarks()
      modifies this, S
      ensures S <= S1 && fresh(S1 - S) && SameTrees(old(Snap(S)), Snap(S1))
      ensures ok ==> Unshared(Snap(S1), ctl, node)
      ensures !ctl.repairSharing ==> (ok <==> Unshared(old(Snap(S)), ctl, node))
      ensures ctl.repairSharing ==> (ok <==> Repairable(old(Snap(S)), ctl, node))
      ensures Plain(S1 - S)
      ensures Others(Snap(S1), node) == Others(old(Snap(S)), node)
      ensures !ctl.repairSharing || Unshared(old(Snap(S)), ctl, node) ==> S1 == S && Snap(S) == old(Snap(S))
    {
      hide Unfold, Tracked, OneHolder, InstsUnshared, StmtsUnshared, ExprsUnshared, Mendable, Below, Mended;
      ghost var g := Snap(S);
      Visit(node, S);
      CountsTell(g, ctl, node);
      S1 := S;
      MendedRefl(g);
      MendedKeepsTrees(g, g);
      if instShareCount != 0 || stmtShareCount != 0 {
        return false, S1;
      }
      MendableIs(g, ctl, node);
      if exprShareCount == 0 {
        return true, S1;
      }
      if !ctl.repairSharing {
        return false, S1;
      }
      ok, S1 := Repair(node, S);
      MendedKeepsTrees(g, Snap(S1));
      MendedKeepsOthers(g, Snap(S1), node);
      if ok { MendedIsUnshared(g, Snap(S1), ctl, node); }
    }
  }

  // The nodes below the root that are never cloned.
  ghost function Others(g: Graph, root: Bnode): set<Bnode>
    requires Wf(g) && root in g
  {
    set n | n in Below(g, root) && n.flavor !in {NConst, NVar, NConversion, NDeref, NStructField}
  }

  // A slot that was refilled led to no node of another flavor, and leads to none now; so the others
  // below the root stay as they are.
  lemma MendedKeepsOthers(g: Graph, G: Graph, root: Bnode)
    requires Mended(g, G) && root in g
    requires Plain(G.Keys - g.Keys)
    ensures Others(G, root) == Others(g, root)
  {
    hide Unfold, NewHeldOnce, NewInstsApart, Below, AllAcceptable;
    BelowClosed(g, root);
    BelowClosed(G, root);
    var S := set n | n in g && (n in Below(G, root) || AllAcceptable(Unfold(g, n)));
    forall p, i | p in S && p in g && 0 <= i < |g[p]|
      ensures g[p][i] in S
    {
      if AllAcceptable(Unfold(g, p)) {
        KidAcceptable(g, p, i);
      } else if G[p][i] !in g {
        SlotTree(g, G, p, i);
        ClosedAcceptable(G, G.Keys - g.Keys, G[p][i]);
      }
    }
    BelowWithin(g, root, S);
    forall n | n in Others(g, root)
      ensures n in Others(G, root)
    {
      if AllAcceptable(Unfold(g, n)) { RootAcceptable(g, n); }
    }
    forall n | n in Others(G, root)
      ensures n in Others(g, root)
    {
      MendedBelow(g, G, root, n);
    }
  }

  ghost predicate Unshared(g: Graph, ctl: Control, root: Bnode)
    requires Wf(g) && root in g
  {
    InstsUnshared(g, root) && StmtsUnshared(g, ctl, root) && ExprsUnshared(g, ctl, root)
  }

  ghost predicate Repairable(g: Graph, ctl: Control, root: Bnode)
    requires Wf(g) && root in g
  {
    InstsUnshared(g, root) && StmtsUnshared(g, ctl, root) && Mendable(g, ctl, root)
  }

  // Repair succeeds just when the instructions and statements have one holder each and all that is below
  // a tracked expression with two is a constant, a variable, a conversion, a dereference or a field.
  lemma RepairableExactly(g: Graph, ctl: Control, root: Bnode)
    requires Wf(g) && root in g
    ensures Repairable(g, ctl, root) <==>
              && InstsUnshared(g, root) && StmtsUnshared(g, ctl, root)
              && forall c, m | c in Below(g, root) && !c.flavor.IsStmt() && Tracked(g, ctl, c)
                               && !OneHolder(g, root, c) && m in Below(g, c) ::
                   m.flavor in {NConst, NVar, NConversion, NDeref, NStructField}
  {
    hide Tracked, OneHolder, InstsUnshared, StmtsUnshared, AllAcceptable, Unfold, Below;
    forall c | c in Below(g, root)
      ensures AllAcceptable(Unfold(g, c)) <==> Plain(Below(g, c))
    {
      AcceptableExactly(g, c);
    }
  }

  lemma MendedKeepsTrees(g: Graph, G: Graph)
    requires Mended(g, G)
    ensures SameTrees(g, G)
  {
  }

  // What is recorded may be cloned just when all that is shared may be.
  lemma MendableIs(g: Graph, ctl: Control, root: Bnode)
    requires Wf(g) && root in g && WalkMarks(g, ctl, root).stmtShares == 0
    ensures var rs := WalkMarks(g, ctl, root).sharing; Cloneable(g, rs, |rs|) <==> Mendable(g, ctl, root)
    ensures ExprsUnshared(g, ctl, root) ==> Mendable(g, ctl, root)
  {
    hide Tracked, OneHolder, Unfold, AllAcceptable, WalkMarks;
    var m := WalkMarks(g, ctl, root);
    RepairStart(g, ctl, root, m.sharing);
    forall c | c in Below(g, root) && Tracked(g, ctl, c)
      ensures SharedChild(m, c) <==> !OneHolder(g, root, c)
    {
      RecordedIsShared(g, ctl, root, c);
    }
    forall k | 0 <= k < |m.sharing|
      ensures var c := m.sharing[k].child; c in Below(g, root) && Tracked(g, ctl, c) && !OneHolder(g, root, c)
    {
      RecordedHold(g, ctl, root, m.sharing[k]);
      assert SharedChild(m, m.sharing[k].child);
    }
  }

  // A new visitor for every check.
  method CheckTreeIntegrity(n: Bnode, control: Control, ghost S: set<Bnode>) returns (ok: bool, ghost S1: set<Bnode>)
    requires Wf(Snap(S)) && n in S
    modifies S
    ensures S <= S1 && fresh(S1 - S) && SameTrees(old(Snap(S)), Snap(S1))
    ensures ok ==> Unshared(Snap(S1), control, n)
    ensures !control.repairSharing ==> (ok <==> Unshared(old(Snap(S)), control, n))
    ensures control.repairSharing ==> (ok <==>
      && InstsUnshared(old(Snap(S)), n) && StmtsUnshared(old(Snap(S)), control, n)
      && forall c, m | c in Below(old(Snap(S)), n) && !c.flavor.IsStmt() && Tracked(old(Snap(S)), control, c)
                       && !OneHolder(old(Snap(S)), n, c) && m in Below(old(Snap(S)), c) ::
           m.flavor in {NConst, NVar, NConversion, NDeref, NStructField})
    ensures forall m | m in S1 - S :: m.flavor in {NConst, NVar, NConversion, NDeref, NStructField}
    ensures (set m | m in Below(Snap(S1), n) && m.flavor !in {NConst, NVar, NConversion, NDeref, NStructField})
         == (set m | m in Below(old(Snap(S)), n) && m.flavor !in {NConst, NVar, NConversion, NDeref, NStructField})
  {
    hide Tracked, OneHolder, InstsUnshared, StmtsUnshared, Below, Unshared, Repairable;
    RepairableExactly(Snap(S), control, n);
    var iv := new IntegrityVisitor(control);
    ok, S1 := iv.Examine(n, S);
  }

  // The slot of p holds a new node; every other slot holds what it held, or a new node.
  ghost predicate Refilled(g: Graph, G: Graph, G': Graph, p: Bnode, slot: nat) {
    && p in G && slot < |G[p]|
    && G.Keys <= G'.Keys
    && (forall n | n in G :: |G'[n]| == |G[n]|)
    && (forall n, i | n in G && 0 <= i < |G[n]| :: G'[n][i] == G[n][i] || G'[n][i] !in g)
    && G'[p][slot] !in g
  }

  lemma FilledNext(g: Graph, G: Graph, G': Graph, rs: seq<Shared>, k: nat)
    requires k < |rs| && AllFilled(g, G, rs[..k]) && Refilled(g, G, G', rs[k].at.parent, rs[k].at.index)
    ensures AllFilled(g, G', rs[..k + 1])
  {
    assert rs[..k + 1] == rs[..k] + [rs[k]];
  }

  lemma RepairBegins(g: Graph, rs: seq<Shared>)
    requires Wf(g)
    ensures Cloneable(g, rs, 0) && AllFilled(g, g, rs[..0]) && Plain({})
  {
  }

  lemma CloneableNext(g: Graph, rs: seq<Shared>, k: nat)
    requires Wf(g) && k < |rs| && Cloneable(g, rs, k) && rs[k].child in g
    ensures Cloneable(g, rs, k + 1) <==> AllAcceptable(Unfold(g, rs[k].child))
    ensures Cloneable(g, rs, |rs|) ==> Cloneable(g, rs, k + 1)
  {
  }

  ghost predicate Cloneable(g: Graph, rs: seq<Shared>, k: nat)
    requires Wf(g)
  {
    k <= |rs| && forall i | 0 <= i < k :: rs[i].child in g && AllAcceptable(Unfold(g, rs[i].child))
  }

  lemma SnapIs(S: set<Bnode>)
    ensures Snap(S).Keys == S && forall n | n in S :: Snap(S)[n] == n.kids
  {
  }

  ghost function InstsOf(S: set<Bnode>): set<Instruction> {
    set n, i | n in S && 0 <= i < |n.insts| :: n.insts[i]
  }

  lemma TraceStart(g: Graph, ctl: Control, m: Marks, n: Bnode)
    requires Wf(g) && n in g
    ensures EventsIn(g, KidsTrace(g, n, 0)) && NoteAll(g, ctl, m, KidsTrace(g, n, 0)) == m
  {
  }

  lemma TraceKid(g: Graph, ctl: Control, m: Marks, n: Bnode, k: nat)
    requires Wf(g) && n in g && k < |g[n]| && EventsIn(g, KidsTrace(g, n, k))
    ensures var c := g[n][k];
      && c in g && c.rank < n.rank && EventsIn(g, Trace(g, c)) && EventsIn(g, KidsTrace(g, n, k + 1))
      && NoteAll(g, ctl, m, KidsTrace(g, n, k + 1))
           == Note(g, ctl, NoteAll(g, ctl, NoteAll(g, ctl, m, KidsTrace(g, n, k)), Trace(g, c)), Child(c, n, k))
  {
    hide Note;
    TraceIn(g, g[n][k]);
    NoteAllThen(g, ctl, m, KidsTrace(g, n, k), Trace(g, g[n][k]));
    NoteOne(g, ctl, m, KidsTrace(g, n, k) + Trace(g, g[n][k]), Child(g[n][k], n, k));
  }

  lemma TraceEnd(g: Graph, n: Bnode)
    requires Wf(g) && n in g
    ensures var es := KidsTrace(g, n, |g[n]|);
      && es + InstsTrace(n, 0) == es
      && Trace(g, n) == if n.flavor.IsStmt() then es else es + InstsTrace(n, |n.insts|)
  {
  }

  lemma TraceInst(g: Graph, ctl: Control, m: Marks, n: Bnode, k: nat, es: seq<Event>)
    requires Wf(g) && k < |n.insts| && EventsIn(g, es + InstsTrace(n, k))
    ensures EventsIn(g, es + InstsTrace(n, k + 1))
    ensures NoteAll(g, ctl, m, es + InstsTrace(n, k + 1))
              == Note(g, ctl, NoteAll(g, ctl, m, es + InstsTrace(n, k)), Inst(n.insts[k], n, k))
  {
    hide Note;
    NoteOne(g, ctl, m, es + InstsTrace(n, k), Inst(n.insts[k], n, k));
    assert es + InstsTrace(n, k + 1) == es + InstsTrace(n, k) + [Inst(n.insts[k], n, k)];
  }

  lemma NoteOne(g: Graph, ctl: Control, m: Marks, es: seq<Event>, e: Event)
    requires Wf(g) && EventsIn(g, es) && (e.Child? ==> e.c in g)
    ensures EventsIn(g, es + [e]) && NoteAll(g, ctl, m, es + [e]) == Note(g, ctl, NoteAll(g, ctl, m, es), e)
  {
    assert (es + [e])[..|es + [e]| - 1] == es;
  }

  lemma InstsOfIn(S: set<Bnode>)
    ensures InstsIn(S, InstsOf(S))
  {
  }

  // Every recorded slot is one of the graph, holding its child, an expression.
  lemma RepairStart(g: Graph, ctl: Control, root: Bnode, rs: seq<Shared>)
    requires Wf(g) && root in g && rs == WalkMarks(g, ctl, root).sharing && WalkMarks(g, ctl, root).stmtShares == 0
    ensures forall k | 0 <= k < |rs| ::
              var r := rs[k];
              && r.at.parent in g && r.child in g && r.at.index < |g[r.at.parent]|
                && g[r.at.parent][r.at.index] == r.child
              && !r.child.flavor.IsStmt()
  {
    hide Tracked;
    TraceIn(g, root);
    NotedAll(g, ctl, Trace(g, root));
    forall k | 0 <= k < |rs|
      ensures rs[k].at.parent in g && Holds(g, rs[k].at.parent, rs[k].at.index, rs[k].child) && rs[k].child in g
    {
      assert rs[k] in rs;
      RecordedHold(g, ctl, root, rs[k]);
    }
  }

  // A slot of the old graph is still there, and a node of the old graph still stands for its tree.
  lemma MendedAt(g: Graph, G: Graph, p: Bnode, slot: nat, c: Bnode)
    requires Mended(g, G) && p in g && slot < |g[p]| && g[p][slot] == c && c in g
    ensures Wf(g) && Wf(G) && g.Keys <= G.Keys && slot < |G[p]| && Unfold(G, c) == Unfold(g, c) && c.rank < p.rank
  {
  }

  lemma InstsNew(S: set<Bnode>, J: set<Instruction>, N: set<Bnode>, I: set<Instruction>)
    requires InstsIn(S, J) && InstsIn(N, I) && InstsApart(N) && S !! N && I !! J
    ensures InstsIn(S + N, J + I)
    ensures forall g: Graph, h: Graph | g.Keys == S && h.Keys == N :: NewInstsApart(g, g + h)
  {
    forall g: Graph, h: Graph | g.Keys == S && h.Keys == N
      ensures NewInstsApart(g, g + h)
    {
      var H := g + h;
      forall p, i, q, j | p in H && p !in g && 0 <= i < |p.insts| && q in H && 0 <= j < |q.insts|
        && p.insts[i] == q.insts[j]
        ensures p == q && i == j
      {
        assert p in N && p.insts[i] in I && q.insts[j] !in J;
      }
    }
  }

  lemma SnapGraft(S: set<Bnode>, N: set<Bnode>, G: Graph, h: Graph, p: Bnode, slot: nat, r: Bnode)
    requires p in S && S !! N && G.Keys == S && h.Keys == N && slot < |G[p]|
    requires forall n | n in S && n != p :: n.kids == G[n]
    requires forall n | n in N :: n.kids == h[n]
    requires p.kids == G[p][slot := r]
    ensures Snap(S + N) == Grafted(G, h, p, slot, r)
  {
  }
}
