/** Expression and statement nodes as they lie in memory: a directed graph without cycles, in which
    a node may be held by more than one parent. A graph is read as the tree it unfolds to. */
module NodeGraph {
  datatype Flavor =
    | NError | NConst | NVar | NFcnAddress | NConversion | NDeref | NAddress | NUnaryOp | NStructField
    | NBinaryOp | NCompound | NArrayIndex | NComposite | NCall
    | NEmptyStmt | NLabelStmt | NGotoStmt | NExprStmt | NReturnStmt | NDeferStmt | NIfStmt | NExcepStmt
    | NBlockStmt | NSwitchStmt
  {
    predicate IsStmt() {
      NEmptyStmt? || NLabelStmt? || NGotoStmt? || NExprStmt? || NReturnStmt? || NDeferStmt? || NIfStmt?
      || NExcepStmt? || NBlockStmt? || NSwitchStmt?
    }

    // The flavors whose sharing may be undone by cloning.
    predicate Acceptable() {
      NConst? || NVar? || NConversion? || NDeref? || NStructField?
    }
  }

  class Instruction {
    const opcode: int

    constructor (opcode: int)
      ensures this.opcode == opcode
    {
      this.opcode := opcode;
    }
  }

  class Bnode {
    const flavor: Flavor
    const u: int                  // variable, function, label, operator or field index
    const value: int              // the value computed, together with its type
    const insts: seq<Instruction>
    ghost const rank: nat         // a node is built after its children, so it stands above them
    var kids: seq<Bnode>

    constructor (flavor: Flavor, kids: seq<Bnode>, u: int, value: int, insts: seq<Instruction>, ghost rank: nat)
      ensures this.flavor == flavor && this.kids == kids && this.u == u && this.value == value
      ensures this.insts == insts && this.rank == rank
    {
      this.flavor := flavor;
      this.kids := kids;
      this.u := u;
      this.value := value;
      this.insts := insts;
      this.rank := rank;
    }

    method ReplaceChild(slot: nat, newChild: Bnode)
      requires slot < |kids|
      modifies this`kids
      ensures kids == old(kids)[slot := newChild]
    {
      kids := kids[slot := newChild];
    }
  }

  type Graph = map<Bnode, seq<Bnode>>

  ghost function Snap(S: set<Bnode>): Graph
    reads S
  {
    map n | n in S :: n.kids
  }

  // Children lie in the graph, below their parents; a conversion has one child; and children of the
  // flavors that may be cloned are expressions.
  ghost predicate Wf(g: Graph) {
    forall n | n in g ::
      && (forall i | 0 <= i < |g[n]| :: g[n][i] in g && g[n][i].rank < n.rank)
      && (n.flavor.NConversion? ==> |g[n]| == 1)
      && (n.flavor.Acceptable() ==> forall i | 0 <= i < |g[n]| :: !g[n][i].flavor.IsStmt())
  }

  // ----- the tree a node stands for -----

  datatype Tree = Tree(flavor: Flavor, u: int, value: int, opcodes: seq<int>, kids: seq<Tree>)

  function Opcodes(insts: seq<Instruction>): (r: seq<int>) {
    seq(|insts|, i requires 0 <= i < |insts| => insts[i].opcode)
  }

  ghost function Unfold(g: Graph, n: Bnode): (t: Tree)
    requires Wf(g) && n in g
    ensures t.flavor == n.flavor && t.value == n.value && |t.kids| == |g[n]|
    decreases n.rank
  {
    Tree(n.flavor, n.u, n.value, Opcodes(n.insts), seq(|g[n]|, i requires 0 <= i < |g[n]| => Unfold(g, g[n][i])))
  }

  ghost predicate AllAcceptable(t: Tree) {
    t.flavor.Acceptable() && forall i | 0 <= i < |t.kids| :: AllAcceptable(t.kids[i])
  }

  // ----- the nodes below a node -----

  ghost function Below(g: Graph, n: Bnode): (r: set<Bnode>)
    requires Wf(g) && n in g
    ensures n in r && r <= g.Keys
    decreases n.rank, 1
  {
    {n} + BelowKids(g, n, |g[n]|)
  }

  ghost function BelowKids(g: Graph, n: Bnode, k: nat): (r: set<Bnode>)
    requires Wf(g) && n in g && k <= |g[n]|
    ensures r <= g.Keys
    decreases n.rank, 0, k
  {
    if k == 0 then {} else BelowKids(g, n, k - 1) + Below(g, g[n][k - 1])
  }

  ghost predicate Closed(g: Graph, S: set<Bnode>) {
    forall p, i | p in S && p in g && 0 <= i < |g[p]| :: g[p][i] in S
  }

  lemma {:induction false} BelowKidsHas(g: Graph, n: Bnode, k: nat, i: nat)
    requires Wf(g) && n in g && i < k <= |g[n]|
    ensures Below(g, g[n][i]) <= BelowKids(g, n, k)
    decreases k
  {
    if i < k - 1 { BelowKidsHas(g, n, k - 1, i); }
  }

  // The nodes below n are the least set that holds n and, with a node, its children.
  lemma BelowIsLeast(g: Graph, n: Bnode, S: set<Bnode>)
    requires Wf(g) && n in g
    ensures Closed(g, Below(g, n))
    ensures n in S && Closed(g, S) ==> Below(g, n) <= S
  {
    BelowClosed(g, n);
    if n in S && Closed(g, S) { BelowWithin(g, n, S); }
  }

  lemma {:induction false} BelowClosed(g: Graph, n: Bnode)
    requires Wf(g) && n in g
    ensures Closed(g, Below(g, n))
    decreases n.rank, 1
  {
    BelowKidsClosed(g, n, |g[n]|);
    forall i | 0 <= i < |g[n]|
      ensures g[n][i] in Below(g, n)
    {
      BelowKidsHas(g, n, |g[n]|, i);
    }
  }

  lemma {:induction false} BelowKidsClosed(g: Graph, n: Bnode, k: nat)
    requires Wf(g) && n in g && k <= |g[n]|
    ensures Closed(g, BelowKids(g, n, k))
    decreases n.rank, 0, k
  {
    if k > 0 {
      BelowKidsClosed(g, n, k - 1);
      BelowClosed(g, g[n][k - 1]);
    }
  }

  lemma {:induction false} BelowWithin(g: Graph, n: Bnode, S: set<Bnode>)
    requires Wf(g) && n in g && n in S && Closed(g, S)
    ensures Below(g, n) <= S
    decreases n.rank, 1
  {
    BelowKidsWithin(g, n, |g[n]|, S);
  }

  lemma {:induction false} BelowKidsWithin(g: Graph, n: Bnode, k: nat, S: set<Bnode>)
    requires Wf(g) && n in g && n in S && Closed(g, S) && k <= |g[n]|
    ensures BelowKids(g, n, k) <= S
    decreases n.rank, 0, k
  {
    if k > 0 {
      BelowKidsWithin(g, n, k - 1, S);
      BelowWithin(g, g[n][k - 1], S);
    }
  }

  // ----- what changes of a graph leave the trees alone -----

  // Same children up to trees: every child is kept, or replaced by one that stands for the same tree.
  ghost predicate SameTrees(g: Graph, g': Graph) {
    && Wf(g) && Wf(g') && g.Keys <= g'.Keys
    && forall n | n in g :: Unfold(g', n) == Unfold(g, n)
  }

  lemma {:induction false} UnfoldAlike(g: Graph, g': Graph, n: Bnode)
    requires Wf(g) && Wf(g') && n in g && g.Keys <= g'.Keys
    requires forall m | m in g :: |g'[m]| == |g[m]|
    requires forall m, i | m in g && 0 <= i < |g[m]| ::
               g'[m][i] == g[m][i] || (g'[m][i].rank < m.rank && Unfold(g', g'[m][i]) == Unfold(g, g[m][i]))
    ensures Unfold(g', n) == Unfold(g, n)
    decreases n.rank
  {
    forall i | 0 <= i < |g[n]|
      ensures Unfold(g', g'[n][i]) == Unfold(g, g[n][i])
    {
      if g'[n][i] == g[n][i] { UnfoldAlike(g, g', g[n][i]); }
    }
    assert Unfold(g', n).kids == Unfold(g, n).kids;
  }

  // New nodes beside the old ones.
  lemma UnfoldExtends(g: Graph, g': Graph)
    requires Wf(g) && Wf(g') && g.Keys <= g'.Keys
    requires forall m | m in g :: g'[m] == g[m]
    ensures SameTrees(g, g')
  {
    forall n | n in g
      ensures Unfold(g', n) == Unfold(g, n)
    {
      UnfoldAlike(g, g', n);
    }
  }

  lemma {:induction false} UnfoldPlaced(g: Graph, g': Graph, p: Bnode, slot: nat, r: Bnode, n: Bnode)
    requires Wf(g) && p in g && slot < |g[p]| && r in g && Unfold(g, r) == Unfold(g, g[p][slot])
    requires Wf(g') && g' == g[p := g[p][slot := r]] && n in g
    ensures Unfold(g', n) == Unfold(g, n)
    decreases n.rank
  {
    forall i | 0 <= i < |g[n]|
      ensures Unfold(g', g'[n][i]) == Unfold(g, g[n][i])
    {
      UnfoldPlaced(g, g', p, slot, r, g'[n][i]);
    }
    assert Unfold(g', n).kids == Unfold(g, n).kids;
  }

  // ----- forests -----

  // No two slots hold the same node, and no slot holds a root.
  ghost predicate Forest(h: Graph, roots: seq<Bnode>) {
    && Wf(h)
    && (forall k | 0 <= k < |roots| :: roots[k] in h)
    && (forall j, k | 0 <= j < k < |roots| :: roots[j] != roots[k])
    && (forall p, i | p in h && 0 <= i < |h[p]| :: h[p][i] !in roots)
    && (forall p, i, q, j | p in h && 0 <= i < |h[p]| && q in h && 0 <= j < |h[q]| && h[p][i] == h[q][j] ::
          p == q && i == j)
  }

  // No two nodes of the set, and no node twice, hold the same instruction.
  ghost predicate InstsApart(S: set<Bnode>) {
    forall p, i, q, j | p in S && 0 <= i < |p.insts| && q in S && 0 <= j < |q.insts| && p.insts[i] == q.insts[j] ::
      p == q && i == j
  }

  ghost predicate InstsIn(S: set<Bnode>, I: set<Instruction>) {
    forall p, i | p in S && 0 <= i < |p.insts| :: p.insts[i] in I
  }

  lemma ForestsMerge(h: Graph, roots: seq<Bnode>, k: Graph, r: Bnode)
    requires Forest(h, roots) && Forest(k, [r]) && h.Keys !! k.Keys
    ensures Forest(h + k, roots + [r])
    ensures SameTrees(h, h + k) && SameTrees(k, h + k)
  {
    var m := h + k;
    MergedWf(h, k);
    hide Wf, SameTrees;
    UnfoldExtends(h, m);
    UnfoldExtends(k, m);
    var rs := roots + [r];
    forall p, i | p in m && 0 <= i < |m[p]|
      ensures m[p][i] !in rs
    {
      MergedKid(h, k, p, i);
      assert r in [r];
    }
    assert forall j | 0 <= j < |rs| :: rs[j] in m;
    forall p, i, q, j | p in m && 0 <= i < |m[p]| && q in m && 0 <= j < |m[q]| && m[p][i] == m[q][j]
      ensures p == q && i == j
    {
      MergedKid(h, k, p, i);
      MergedKid(h, k, q, j);
    }
  }

  // Each child is where its parent is.
  lemma MergedKid(h: Graph, k: Graph, p: Bnode, i: nat)
    requires Wf(h) && Wf(k) && h.Keys !! k.Keys && p in h + k && i < |(h + k)[p]|
    ensures var c := (h + k)[p][i];
      if p in k then (h + k)[p] == k[p] && c in k && c !in h else (h + k)[p] == h[p] && c in h && c !in k
  {
  }

  lemma MergedWf(h: Graph, k: Graph)
    requires Wf(h) && Wf(k) && h.Keys !! k.Keys
    ensures Wf(h + k) && (forall n | n in h :: (h + k)[n] == h[n]) && forall n | n in k :: (h + k)[n] == k[n]
  {
  }

  // A new root over the roots of a forest.
  lemma ForestRooted(h: Graph, roots: seq<Bnode>, r: Bnode)
    requires Forest(h, roots) && r !in h
    requires forall i | 0 <= i < |roots| :: roots[i].rank < r.rank
    requires r.flavor.NConversion? ==> |roots| == 1
    requires r.flavor.Acceptable() ==> forall i | 0 <= i < |roots| :: !roots[i].flavor.IsStmt()
    ensures Forest(h[r := roots], [r]) && SameTrees(h, h[r := roots])
  {
    var m := h[r := roots];
    assert forall n | n in h :: m[n] == h[n];
    assert Wf(m);
    UnfoldExtends(h, m);
    forall p, i | p in m && 0 <= i < |m[p]|
      ensures m[p][i] !in [r] && (p in h ==> m[p][i] !in roots)
    {
    }
    forall p, i, q, j | p in m && 0 <= i < |m[p]| && q in m && 0 <= j < |m[q]| && m[p][i] == m[q][j]
      ensures p == q && i == j
    {
      if p == r { assert m[p][i] in roots; }
      if q == r { assert m[q][j] in roots; }
    }
  }
}
