/** Which nodes and instructions of a graph have more than one holder, and what one walk over the
    graph, which comes to a shared node once for every way down to it, notes of them. */
module NodeSharing {
  import opened NodeGraph

  // `moduleScope` holds the values that are constants of the module, which may be shared.
  datatype Control = Control(ignoreVars: bool, repairSharing: bool, moduleScope: set<int>)

  ghost predicate VarOrConvertedVar(g: Graph, c: Bnode)
    requires Wf(g) && c in g
  {
    c.flavor.NVar? || (c.flavor.NConversion? && g[c][0].flavor.NVar?)
  }

  ghost predicate Tracked(g: Graph, ctl: Control, c: Bnode)
    requires Wf(g) && c in g
  {
    && !(!c.flavor.IsStmt() && c.value in ctl.moduleScope)
    && !(ctl.ignoreVars && VarOrConvertedVar(g, c))
  }

  // ----- holders -----

  ghost predicate Holds(g: Graph, p: Bnode, i: int, c: Bnode) {
    p in g && 0 <= i < |g[p]| && g[p][i] == c
  }

  // At most one slot of the nodes below root holds c.
  ghost predicate OneHolder(g: Graph, root: Bnode, c: Bnode)
    requires Wf(g) && root in g
  {
    forall p, i, q, j | p in Below(g, root) && q in Below(g, root) && Holds(g, p, i, c) && Holds(g, q, j, c) ::
      p == q && i == j
  }

  ghost predicate HoldsInst(p: Bnode, i: int, x: Instruction) {
    !p.flavor.IsStmt() && 0 <= i < |p.insts| && p.insts[i] == x
  }

  ghost predicate InstsUnshared(g: Graph, root: Bnode)
    requires Wf(g) && root in g
  {
    forall p, i, q, j | p in Below(g, root) && q in Below(g, root) && !p.flavor.IsStmt() && 0 <= i < |p.insts|
      && HoldsInst(q, j, p.insts[i]) ::
      p == q && i == j
  }

  ghost predicate StmtsUnshared(g: Graph, ctl: Control, root: Bnode)
    requires Wf(g) && root in g
  {
    forall c | c in Below(g, root) && c.flavor.IsStmt() && Tracked(g, ctl, c) :: OneHolder(g, root, c)
  }

  ghost predicate ExprsUnshared(g: Graph, ctl: Control, root: Bnode)
    requires Wf(g) && root in g
  {
    forall c | c in Below(g, root) && !c.flavor.IsStmt() && Tracked(g, ctl, c) :: OneHolder(g, root, c)
  }

  // Every tracked expression that has two holders may be cloned.
  ghost predicate Mendable(g: Graph, ctl: Control, root: Bnode)
    requires Wf(g) && root in g
  {
    forall c | c in Below(g, root) && !c.flavor.IsStmt() && Tracked(g, ctl, c) && !OneHolder(g, root, c) ::
      AllAcceptable(Unfold(g, c))
  }

  // ----- the walk -----

  datatype Event =
    | Child(c: Bnode, parent: Bnode, slot: nat)
    | Inst(x: Instruction, parent: Bnode, slot: nat)

  // What the walk from n sees, in order: children first, then the node's own instructions.
  ghost function Trace(g: Graph, n: Bnode): seq<Event>
    requires Wf(g) && n in g
    decreases n.rank, 1
  {
    KidsTrace(g, n, |g[n]|) + if n.flavor.IsStmt() then [] else InstsTrace(n, |n.insts|)
  }

  ghost function KidsTrace(g: Graph, n: Bnode, k: nat): seq<Event>
    requires Wf(g) && n in g && k <= |g[n]|
    decreases n.rank, 0, k
  {
    if k == 0 then [] else KidsTrace(g, n, k - 1) + Trace(g, g[n][k - 1]) + [Child(g[n][k - 1], n, k - 1)]
  }

  ghost function InstsTrace(n: Bnode, k: nat): seq<Event>
    requires k <= |n.insts|
  {
    if k == 0 then [] else InstsTrace(n, k - 1) + [Inst(n.insts[k - 1], n, k - 1)]
  }

  ghost predicate EventBelow(g: Graph, S: set<Bnode>, e: Event) {
    match e
    case Child(c, p, i) => p in S && Holds(g, p, i, c)
    case Inst(x, p, i) => p in S && HoldsInst(p, i, x)
  }

  lemma {:induction false} InstsTraceIs(n: Bnode, k: nat, e: Event)
    requires k <= |n.insts|
    ensures e in InstsTrace(n, k) <==> e.Inst? && e.parent == n && e.slot < k && n.insts[e.slot] == e.x
    decreases k
  {
    if k > 0 { InstsTraceIs(n, k - 1, e); }
  }

  // The walk sees just the slots of the nodes below n.
  lemma {:induction false} TraceIsBelow(g: Graph, n: Bnode, e: Event)
    requires Wf(g) && n in g
    ensures e in Trace(g, n) <==> EventBelow(g, Below(g, n), e)
    decreases n.rank, 1
  {
    KidsTraceIs(g, n, |g[n]|, e);
    if !n.flavor.IsStmt() { InstsTraceIs(n, |n.insts|, e); }
  }

  lemma {:induction false} KidsTraceIs(g: Graph, n: Bnode, k: nat, e: Event)
    requires Wf(g) && n in g && k <= |g[n]|
    ensures e in KidsTrace(g, n, k) <==>
              EventBelow(g, BelowKids(g, n, k), e) || (e.Child? && e.parent == n && e.slot < k
                && Holds(g, n, e.slot, e.c))
    decreases n.rank, 0, k
  {
    if k > 0 {
      KidsTraceIs(g, n, k - 1, e);
      TraceIsBelow(g, g[n][k - 1], e);
    }
  }

  // ----- what is noted -----

  datatype Slot = Slot(parent: Bnode, index: nat)
  datatype Shared = Shared(child: Bnode, at: Slot)

  datatype Marks = Marks(
    nparent: map<Bnode, Slot>,
    iparent: map<Instruction, Slot>,
    sharing: seq<Shared>,
    instShares: nat,
    stmtShares: nat,
    exprShares: nat)

  function NoMarks(): Marks {
    Marks(map[], map[], [], 0, 0, 0)
  }

  // A further holder of a child is recorded and takes the place of the one before; a further holder of
  // an instruction is only counted.
  ghost function Note(g: Graph, ctl: Control, m: Marks, e: Event): Marks
    requires Wf(g) && (e.Child? ==> e.c in g)
  {
    match e
    case Child(c, p, i) =>
      var s := Slot(p, i);
      if !Tracked(g, ctl, c) then m
      else if c !in m.nparent then m.(nparent := m.nparent[c := s])
      else if m.nparent[c] == s then m
      else
        Marks(m.nparent[c := s], m.iparent, m.sharing + [Shared(c, s)], m.instShares,
              m.stmtShares + (if c.flavor.IsStmt() then 1 else 0),
              m.exprShares + (if c.flavor.IsStmt() then 0 else 1))
    case Inst(x, p, i) =>
      var s := Slot(p, i);
      if x !in m.iparent then m.(iparent := m.iparent[x := s])
      else if m.iparent[x] == s then m
      else m.(instShares := m.instShares + 1)
  }

  ghost predicate EventsIn(g: Graph, es: seq<Event>) {
    forall k | 0 <= k < |es| && es[k].Child? :: es[k].c in g
  }

  ghost function NoteAll(g: Graph, ctl: Control, m: Marks, es: seq<Event>): Marks
    requires Wf(g) && EventsIn(g, es)
    decreases |es|
  {
    if es == [] then m else Note(g, ctl, NoteAll(g, ctl, m, es[..|es| - 1]), es[|es| - 1])
  }

  lemma {:induction false} NoteAllThen(g: Graph, ctl: Control, m: Marks, es: seq<Event>, fs: seq<Event>)
    requires Wf(g) && EventsIn(g, es) && EventsIn(g, fs)
    ensures EventsIn(g, es + fs)
    ensures NoteAll(g, ctl, m, es + fs) == NoteAll(g, ctl, NoteAll(g, ctl, m, es), fs)
    decreases |fs|
  {
    assert EventsIn(g, es + fs);
    if fs == [] {
      assert es + fs == es;
    } else {
      NoteAllThen(g, ctl, m, es, fs[..|fs| - 1]);
      assert (es + fs)[..|es + fs| - 1] == es + fs[..|fs| - 1];
    }
  }

  // ----- what the marks say of the events -----

  ghost predicate SlotSeen(es: seq<Event>, c: Bnode, s: Slot) {
    Child(c, s.parent, s.index) in es
  }

  ghost predicate SeenElsewhere(es: seq<Event>, c: Bnode, s: Slot) {
    exists k :: 0 <= k < |es| && es[k].Child? && es[k].c == c && Slot(es[k].parent, es[k].slot) != s
  }

  lemma SeenOther(es: seq<Event>, c: Bnode, s: Slot, t: Slot)
    requires SlotSeen(es, c, s) && s != t
    ensures SeenElsewhere(es, c, t)
  {
    var k :| 0 <= k < |es| && es[k] == Child(c, s.parent, s.index);
    assert Slot(es[k].parent, es[k].slot) == s;
  }

  ghost predicate InstSeen(es: seq<Event>, x: Instruction, s: Slot) {
    Inst(x, s.parent, s.index) in es
  }

  // What was noted of the children: each tracked one has its last holder noted; what is recorded was
  // seen, beside another holder; and of two holders of a child at least one is recorded.
  ghost predicate ChildrenNoted(g: Graph, ctl: Control, es: seq<Event>, m: Marks)
    requires Wf(g) && EventsIn(g, es)
  {
    LastNoted(g, ctl, es, m) && SharesSeen(g, ctl, es, m) && PairsRecorded(g, ctl, es, m) && CountsMatch(m)
  }

  ghost predicate LastNoted(g: Graph, ctl: Control, es: seq<Event>, m: Marks)
    requires Wf(g) && EventsIn(g, es)
  {
    && (forall c | c in m.nparent :: SlotSeen(es, c, m.nparent[c]))
    && (forall k | 0 <= k < |es| && es[k].Child? && Tracked(g, ctl, es[k].c) :: es[k].c in m.nparent)
  }

  ghost predicate SharesSeen(g: Graph, ctl: Control, es: seq<Event>, m: Marks)
    requires Wf(g)
  {
    forall k | 0 <= k < |m.sharing| ::
      var r := m.sharing[k];
      && r.child in g && Tracked(g, ctl, r.child) && SlotSeen(es, r.child, r.at)
      && SeenElsewhere(es, r.child, r.at)
  }

  ghost predicate PairsRecorded(g: Graph, ctl: Control, es: seq<Event>, m: Marks)
    requires Wf(g) && EventsIn(g, es)
  {
    forall j, k | 0 <= j < |es| && 0 <= k < |es| && es[j].Child? && es[k].Child? && es[j].c == es[k].c
                  && Tracked(g, ctl, es[j].c) ::
      es[j] == es[k] || Recorded(m, es[j]) || Recorded(m, es[k])
  }

  ghost predicate CountsMatch(m: Marks) {
    && (m.stmtShares == 0 <==> forall k | 0 <= k < |m.sharing| :: !m.sharing[k].child.flavor.IsStmt())
    && (m.exprShares == 0 <==> forall k | 0 <= k < |m.sharing| :: m.sharing[k].child.flavor.IsStmt())
  }

  ghost predicate Recorded(m: Marks, e: Event) {
    e.Child? && Shared(e.c, Slot(e.parent, e.slot)) in m.sharing
  }

  ghost predicate InstsNoted(es: seq<Event>, m: Marks) {
    && (forall x | x in m.iparent :: InstSeen(es, x, m.iparent[x]))
    && (forall k | 0 <= k < |es| && es[k].Inst? :: es[k].x in m.iparent)
    && (m.instShares == 0 <==>
          forall k | 0 <= k < |es| && es[k].Inst? :: m.iparent[es[k].x] == Slot(es[k].parent, es[k].slot))
  }

  lemma {:induction false} NotedAll(g: Graph, ctl: Control, es: seq<Event>)
    requires Wf(g) && EventsIn(g, es)
    ensures ChildrenNoted(g, ctl, es, NoteAll(g, ctl, NoMarks(), es))
    ensures InstsNoted(es, NoteAll(g, ctl, NoMarks(), es))
    decreases |es|
  {
    if es != [] {
      var before := es[..|es| - 1];
      var e := es[|es| - 1];
      var m := NoteAll(g, ctl, NoMarks(), before);
      NotedAll(g, ctl, before);
      assert es == before + [e];
      ChildNotedThen(g, ctl, before, m, e);
      InstNotedThen(g, ctl, before, m, e);
    }
  }

  lemma InstNotedThen(g: Graph, ctl: Control, es: seq<Event>, m: Marks, e: Event)
    requires Wf(g) && (e.Child? ==> e.c in g) && InstsNoted(es, m)
    ensures InstsNoted(es + [e], Note(g, ctl, m, e))
  {
    hide Tracked, VarOrConvertedVar;
    var fs := es + [e];
    var n := Note(g, ctl, m, e);
    assert forall f | f in es :: f in fs;
    assert forall k | 0 <= k < |es| :: fs[k] == es[k];
    assert fs[|es|] == e;
    if e.Inst? {
      assert e in fs;
      if m.instShares == 0 && n.instShares == 0 {
        forall k | 0 <= k < |fs| && fs[k].Inst?
          ensures n.iparent[fs[k].x] == Slot(fs[k].parent, fs[k].slot)
        {
        }
      }
    }
  }

  lemma ChildNotedThen(g: Graph, ctl: Control, es: seq<Event>, m: Marks, e: Event)
    requires Wf(g) && EventsIn(g, es) && (e.Child? ==> e.c in g) && ChildrenNoted(g, ctl, es, m)
    ensures EventsIn(g, es + [e]) && ChildrenNoted(g, ctl, es + [e], Note(g, ctl, m, e))
  {
    hide Tracked, SlotSeen, SeenElsewhere, Recorded, SharesSeen, PairsRecorded;
    LastNotedThen(g, ctl, es, m, e);
    SharesSeenThen(g, ctl, es, m, e);
    PairsRecordedThen(g, ctl, es, m, e);
    CountsMatchThen(g, ctl, m, e);
  }

  lemma CountsMatchThen(g: Graph, ctl: Control, m: Marks, e: Event)
    requires Wf(g) && (e.Child? ==> e.c in g) && CountsMatch(m)
    ensures CountsMatch(Note(g, ctl, m, e))
  {
    hide Tracked;
    var n := Note(g, ctl, m, e);
    assert forall k | 0 <= k < |m.sharing| :: n.sharing[k] == m.sharing[k];
    if |n.sharing| > |m.sharing| { assert n.sharing[|m.sharing|].child == e.c; }
  }

  lemma LastNotedThen(g: Graph, ctl: Control, es: seq<Event>, m: Marks, e: Event)
    requires Wf(g) && EventsIn(g, es) && (e.Child? ==> e.c in g) && LastNoted(g, ctl, es, m)
    ensures EventsIn(g, es + [e]) && LastNoted(g, ctl, es + [e], Note(g, ctl, m, e))
  {
    hide Tracked;
    var fs := es + [e];
    assert forall k | 0 <= k < |es| :: fs[k] == es[k];
    assert forall f | f in es :: f in fs;
    assert e in fs;
  }

  lemma PairsRecordedThen(g: Graph, ctl: Control, es: seq<Event>, m: Marks, e: Event)
    requires Wf(g) && EventsIn(g, es) && (e.Child? ==> e.c in g) && LastNoted(g, ctl, es, m)
      && PairsRecorded(g, ctl, es, m)
    ensures EventsIn(g, es + [e]) && PairsRecorded(g, ctl, es + [e], Note(g, ctl, m, e))
  {
    var fs := es + [e];
    var n := Note(g, ctl, m, e);
    assert EventsIn(g, fs);
    assert forall r | r in m.sharing :: r in n.sharing;
    forall j, k | 0 <= j < |fs| && 0 <= k < |fs| && fs[j].Child? && fs[k].Child? && fs[j].c == fs[k].c
                  && Tracked(g, ctl, fs[j].c)
      ensures fs[j] == fs[k] || Recorded(n, fs[j]) || Recorded(n, fs[k])
    {
      if j < |es| && k < |es| {
        assert fs[j] == es[j] && fs[k] == es[k];
      } else if j < |es| {
        PairWithLast(g, ctl, es, m, e, j);
      } else if k < |es| {
        PairWithLast(g, ctl, es, m, e, k);
      }
    }
  }

  lemma PairWithLast(g: Graph, ctl: Control, es: seq<Event>, m: Marks, e: Event, j: nat)
    requires Wf(g) && EventsIn(g, es) && LastNoted(g, ctl, es, m) && PairsRecorded(g, ctl, es, m)
    requires j < |es| && es[j].Child? && e.Child? && e.c in g && es[j].c == e.c && Tracked(g, ctl, e.c)
    ensures var n := Note(g, ctl, m, e); es[j] == e || Recorded(n, es[j]) || Recorded(n, e)
  {
    hide Tracked;
    var n := Note(g, ctl, m, e);
    assert e.c in m.nparent;
    assert SlotSeen(es, e.c, m.nparent[e.c]);
    var k :| 0 <= k < |es| && es[k] == Child(e.c, m.nparent[e.c].parent, m.nparent[e.c].index);
    if m.nparent[e.c] != Slot(e.parent, e.slot) {
      assert n.sharing[|m.sharing|] == Shared(e.c, Slot(e.parent, e.slot));
    }
  }

  lemma SharesSeenThen(g: Graph, ctl: Control, es: seq<Event>, m: Marks, e: Event)
    requires Wf(g) && EventsIn(g, es) && (e.Child? ==> e.c in g) && LastNoted(g, ctl, es, m)
      && SharesSeen(g, ctl, es, m)
    ensures SharesSeen(g, ctl, es + [e], Note(g, ctl, m, e))
  {
    var fs := es + [e];
    var n := Note(g, ctl, m, e);
    forall k | 0 <= k < |n.sharing|
      ensures var r := n.sharing[k];
              && r.child in g && Tracked(g, ctl, r.child) && SlotSeen(fs, r.child, r.at)
              && SeenElsewhere(fs, r.child, r.at)
    {
      var r := n.sharing[k];
      if k < |m.sharing| {
        assert r == m.sharing[k];
        SeenMore(es, e, r.child, r.at);
      } else {
        assert fs[|es|] == e;
        SeenMore(es, e, r.child, m.nparent[r.child]);
        SeenOther(fs, r.child, m.nparent[r.child], r.at);
      }
    }
  }

  lemma SeenMore(es: seq<Event>, e: Event, c: Bnode, s: Slot)
    ensures SlotSeen(es, c, s) ==> SlotSeen(es + [e], c, s)
    ensures SeenElsewhere(es, c, s) ==> SeenElsewhere(es + [e], c, s)
  {
    assert forall k | 0 <= k < |es| :: (es + [e])[k] == es[k];
    if SeenElsewhere(es, c, s) {
      var j :| 0 <= j < |es| && es[j].Child? && es[j].c == c && Slot(es[j].parent, es[j].slot) != s;
      assert (es + [e])[j] == es[j];
    }
  }
}
