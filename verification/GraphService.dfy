/**
 The graph request against the server's tables: the batch queries over the
 dependency table and the handler composed, with the response's laws stated about
 the store (internal/server/http_graph.go, internal/store/postgres/batch_queries.go).
 */
module GraphService {
  import opened Beads
  import opened Graph
  import opened GraphEdges
  import opened GraphExact
  import opened GraphLaws
  import opened GraphParents
  import opened GraphPrune
  import opened Store
  import ServerRuns
  import Lifecycle

  /** A step that creates nothing under another identifier keeps them so. */
  lemma StepKeepsIds(types: Lifecycle.Types, st: Store, op: ServerRuns.Op)
    requires IdsGenerated(st) && RowsNamed(st) && (op.Create? ==> IdLike(op.newId))
    ensures IdsGenerated(ServerRuns.Step(types, st, op))
  {}

  /** In every store a run reaches with generated identifiers, the graph request meets its conditions. */
  lemma {:induction false} EveryRunIsServable(types: Lifecycle.Types, ops: seq<ServerRuns.Op>)
    requires forall op :: op in ops && op.Create? ==> IdLike(op.newId)
    ensures var st := ServerRuns.Run(types, ops); Linked(st) && RowsNamed(st) && IdsGenerated(st)
  {
    ServerRuns.EveryRunIsSound(types, ops);
    if ops != [] {
      var n := |ops| - 1;
      EveryRunIsServable(types, ops[..n]);
      StepKeepsIds(types, ServerRuns.Run(types, ops[..n]), ops[n]);
    }
  }

  // ------------------------------------------------- the laws, about the store

  /** The dependency concerns a bead the first query selected. */
  predicate Concerns(beads: BeadMap, d: Dependency) {
    d.beadId in beads || d.dependsOn in beads
  }

  /** The edge shows the dependency, promoted or not. */
  predicate Shows(e: Edge, d: Dependency) {
    && e.source == d.beadId && e.target == d.dependsOn
    && (e.typ == d.typ || (d.typ == BLOCKS && e.typ == PARENT_CHILD))
  }

  predicate Drawn(edges: seq<Edge>, d: Dependency) {
    exists e :: e in edges && Shows(e, d)
  }

  /** The edge is a row of the dependency table. */
  predicate IsRow(st: Store, e: Edge) {
    exists d :: d in st.deps && Shows(e, d)
  }

  /** The edge is the assignment of a bead in progress. */
  predicate IsAssignment(st: Store, e: Edge) {
    exists id :: id in st.beads && Working(st.beads[id]) && e == AssignmentOf(st.beads[id])
  }

  predicate EdgesStored(st: Store, edges: seq<Edge>) {
    forall e :: e in edges ==> IsRow(st, e) || IsAssignment(st, e)
  }

  /** Every row that concerns a selected bead is drawn if both its ends are shown. */
  predicate DepsDrawn(st: Store, beads: BeadMap, nodes: seq<Node>, edges: seq<Edge>) {
    forall d :: d in st.deps && Concerns(beads, d) && d.beadId in IdsOf(nodes) && d.dependsOn in IdsOf(nodes) ==>
      Drawn(edges, d)
  }

  /** With dependencies included, the ends of such rows are shown unless closed or of an excluded type. */
  predicate EndsShown(st: Store, beads: BeadMap, exclude: set<string>, nodes: seq<Node>) {
    forall d, x :: d in st.deps && Concerns(beads, d) && (x == d.beadId || x == d.dependsOn) && x in st.beads
                   && st.beads[x].typ !in exclude && st.beads[x].status != CLOSED ==>
      x in IdsOf(nodes)
  }

  /**
   A node's parent is one its stored records name; the edge to a parent that is
   shown is there exactly if the reverse query succeeded or the node was selected.
   */
  ghost predicate ParentsStored(st: Store, beads: BeadMap, revOk: bool, nodes: seq<Node>, edges: seq<Edge>) {
    forall n :: n in nodes && n.parentId != "" ==>
      && (exists d :: d in st.deps && Backs(d, n.id, n.parentId))
      && (n.parentId in IdsOf(nodes) ==>
            (Edge(n.id, n.parentId, PARENT_CHILD) in edges <==> revOk || n.id in beads))
  }

  /** An edge that is shown joins x to a live bead or agent that is shown. */
  predicate HasLiveNeighbor(nodes: seq<Node>, edges: seq<Edge>, x: string) {
    exists e, m ::
      && e in edges && m in nodes
      && m.status in ["open", "in_progress", "blocked", "deferred", "active", "idle"]
      && ((e.source == x && e.target == m.id) || (e.source == m.id && e.target == x))
  }

  /** Every closed bead that is shown has one. */
  predicate ClosedJoined(st: Store, nodes: seq<Node>, edges: seq<Edge>) {
    forall n :: n in nodes && n.id in st.beads && st.beads[n.id].status == "closed" ==>
      HasLiveNeighbor(nodes, edges, n.id)
  }

  lemma ClosedAreJoined(st: Store, roster: seq<RosterEntry>, s: Stages)
    requires ColumnsExact(st, roster, ResponseNodes(s))
    ensures ClosedJoined(st, ResponseNodes(s), ResponseEdges(s))
  {
    forall n | n in ResponseNodes(s) && n.id in st.beads && st.beads[n.id].status == "closed"
      ensures HasLiveNeighbor(ResponseNodes(s), ResponseEdges(s), n.id)
    {
      var e, m := ClosedNodesAreNearLive(s, n);
    }
  }

  /** The records that edges are built from are rows, and with the reverse query all that concern the selection. */
  lemma UsedAreRows(st: Store, in_: Input, ok: Queries)
    requires Queried(st, in_, ok)
    ensures forall d :: d in Used(in_.fwd, in_.rev, ok.reverse) ==> d in st.deps
    ensures ok.reverse ==>
              forall d :: d in st.deps && Concerns(in_.beads, d) ==> d in Used(in_.fwd, in_.rev, ok.reverse)
  {}

  lemma EdgesAreStored(st: Store, in_: Input, args: Args, ok: Queries, s: Stages)
    requires Queried(st, in_, ok) && Staged(in_, args, ok, s)
    ensures EdgesStored(st, ResponseEdges(s))
  {
    QueriedIsGiven(st, in_, ok);
    BeadsAreRows(st, in_, args, ok, s);
    forall e | e in ResponseEdges(s) ensures IsRow(st, e) || IsAssignment(st, e) {
      EdgesAreRecords(in_, args, ok, s, e);
      RecordIsRow(st, in_, ok, s, e);
      AssignmentIsStored(st, s, e);
    }
  }

  lemma RecordIsRow(st: Store, in_: Input, ok: Queries, s: Stages, e: Edge)
    requires Queried(st, in_, ok)
    ensures FromRecord(in_, ok, s, e) ==> IsRow(st, e)
  {
    UsedAreRows(st, in_, ok);
    if d :| d in Used(in_.fwd, in_.rev, ok.reverse) && e == Promoted(AsEdge(d), s.parents) {
      assert d in st.deps && Shows(e, d);
    }
  }

  lemma AssignmentIsStored(st: Store, s: Stages, e: Edge)
    requires Rows(s.beads, st)
    ensures FromAssignment(s, e) ==> IsAssignment(st, e)
  {}

  lemma DepsAreDrawn(st: Store, in_: Input, args: Args, ok: Queries, s: Stages)
    requires Queried(st, in_, ok) && Staged(in_, args, ok, s) && ok.reverse
    ensures DepsDrawn(st, in_.beads, ResponseNodes(s), ResponseEdges(s))
  {
    QueriedIsGiven(st, in_, ok);
    UsedAreRows(st, in_, ok);
    forall d | d in st.deps && Concerns(in_.beads, d)
               && d.beadId in IdsOf(ResponseNodes(s)) && d.dependsOn in IdsOf(ResponseNodes(s))
      ensures Drawn(ResponseEdges(s), d)
    {
      UsedIsDrawn(in_, args, ok, s, d);
    }
  }

  lemma UsedIsDrawn(in_: Input, args: Args, ok: Queries, s: Stages, d: Dependency)
    requires Given(in_) && Staged(in_, args, ok, s) && d in Used(in_.fwd, in_.rev, ok.reverse)
    requires d.beadId in IdsOf(ResponseNodes(s)) && d.dependsOn in IdsOf(ResponseNodes(s))
    ensures Drawn(ResponseEdges(s), d)
  {
    var e := Promoted(AsEdge(d), s.parents);
    RecordShown(in_, args, ok, s, d);
    ResponseIsExact(s);
    assert Shows(e, d);
  }

  lemma EndsAreShown(st: Store, in_: Input, args: Args, ok: Queries, s: Stages)
    requires Queried(st, in_, ok) && Staged(in_, args, ok, s) && ok.reverse && ok.missing && args.includeDeps
    ensures EndsShown(st, in_.beads, args.exclude, ResponseNodes(s))
  {
    QueriedIsGiven(st, in_, ok);
    BeadsAreRows(st, in_, args, ok, s);
    UsedAreRows(st, in_, ok);
    forall d, x | d in st.deps && Concerns(in_.beads, d) && (x == d.beadId || x == d.dependsOn) && x in st.beads
                  && st.beads[x].typ !in args.exclude && st.beads[x].status != CLOSED
      ensures x in IdsOf(ResponseNodes(s))
    {
      DependenciesAtHand(in_, args, ok, s, d, x);
      EndStays(in_, args, ok, s, d, x);
    }
  }

  /** A bead that is not closed stays in the response if a record joins it to something. */
  lemma EndStays(in_: Input, args: Args, ok: Queries, s: Stages, d: Dependency, x: string)
    requires Given(in_) && Staged(in_, args, ok, s) && d in Used(in_.fwd, in_.rev, ok.reverse)
    requires (x == d.beadId || x == d.dependsOn) && x in s.beads && s.beads[x].status != CLOSED
    ensures x in IdsOf(ResponseNodes(s))
  {
    StaysProper(in_, args, ok, s);
    var n, e := NodeOf(s.beads[x], s.parents), Promoted(AsEdge(d), s.parents);
    BeadShown(in_, args, s, x);
    RecordShown(in_, args, ok, s, d);
    ResponseIsExact(s);
    assert Touches(s.allEdges, x);
    assert n in ResponseNodes(s) && n.id == x;
  }

  lemma RecordShown(in_: Input, args: Args, ok: Queries, s: Stages, d: Dependency)
    requires Given(in_) && Staged(in_, args, ok, s) && d in Used(in_.fwd, in_.rev, ok.reverse)
    ensures Promoted(AsEdge(d), s.parents) in s.allEdges
  {
    var e := Promoted(AsEdge(d), s.parents);
    assert FromRecord(in_, ok, s, e);
    PromotedRecords(in_, ok, s, e);
    PromotedShown(in_, args, s);
  }

  lemma ParentsAreStored(st: Store, in_: Input, args: Args, ok: Queries, s: Stages)
    requires Queried(st, in_, ok) && Staged(in_, args, ok, s)
    ensures ParentsStored(st, in_.beads, ok.reverse, ResponseNodes(s), ResponseEdges(s))
  {
    QueriedIsGiven(st, in_, ok);
    ResponseIsExact(s);
    forall n | n in ResponseNodes(s) && n.parentId != ""
      ensures exists d :: d in st.deps && Backs(d, n.id, n.parentId)
      ensures n.parentId in IdsOf(ResponseNodes(s)) ==>
                (Edge(n.id, n.parentId, PARENT_CHILD) in ResponseEdges(s) <==> ok.reverse || n.id in in_.beads)
    {
      var d := ParentIsStored(st, in_, args, ok, s, n);
    }
  }

  lemma ParentIsStored(st: Store, in_: Input, args: Args, ok: Queries, s: Stages, n: Node) returns (d: Dependency)
    requires Queried(st, in_, ok) && Given(in_) && Staged(in_, args, ok, s)
    requires n in ResponseNodes(s) && n in s.allNodes && n.parentId != ""
    ensures d in st.deps && Backs(d, n.id, n.parentId)
    ensures n.parentId in IdsOf(ResponseNodes(s)) ==>
              (Edge(n.id, n.parentId, PARENT_CHILD) in ResponseEdges(s) <==> ok.reverse || n.id in in_.beads)
  {
    ParentRead(in_, args, ok, s, n);
    d := ParentRow(st, in_, ok, s, n.id);
    BackedHere(st, in_, ok, d);
    if n.parentId in IdsOf(ResponseNodes(s)) {
      ParentsAgreeWithEdges(in_, args, ok, s, n);
    }
  }

  lemma ParentRow(st: Store, in_: Input, ok: Queries, s: Stages, x: string) returns (d: Dependency)
    requires Queried(st, in_, ok) && ParentsFound(in_, s) && x in s.parents
    ensures d in st.deps && Backs(d, x, s.parents[x])
  {
    assert ParentOf(s.parents, in_.fwd, in_.rev, s.beads, x);
    d := ParentHasRecord(s.parents, in_.fwd, in_.rev, s.beads, x);
  }

  /** A stored parent is among a bead's own records exactly if the bead was selected. */
  lemma BackedHere(st: Store, in_: Input, ok: Queries, d: Dependency)
    requires Queried(st, in_, ok) && d in st.deps && Backs(d, d.beadId, d.dependsOn)
    ensures Backed(in_.fwd, ok.reverse, d.beadId, d.dependsOn) <==> ok.reverse || d.beadId in in_.beads
  {
    assert d == Dependency(d.beadId, d.dependsOn, d.typ);
  }

  // ---------------------------------------------------------------- the request

  /**
   The graph of a selection of beads, from the tables. The two batch queries see
   the rows in any order; a reverse query that fails may have read `cut` rows.
   */
  method ServeGraph(st: Store, beads: BeadMap, rows: seq<Dependency>, revRows: seq<Dependency>, cut: nat, args: Args,
      ok: Queries, roster: seq<RosterEntry>) returns (nodes: seq<Node>, edges: seq<Edge>)
    requires Linked(st) && RowsNamed(st) && IdsGenerated(st) && Rows(beads, st)
    requires Elems(rows) == st.deps && Elems(revRows) == st.deps
    requires cut <= |revRows| && (ok.reverse ==> cut == |revRows|)
    ensures Closed(nodes, edges) && ClosedNearLive(nodes, edges) && AgentsBusy(nodes, edges)
    ensures forall n :: n in nodes && n.id in st.beads ==>
              var b := st.beads[n.id];
              && n.title == b.title && n.status == b.status && n.priority == b.priority
              && n.issueType == b.typ && n.assignee == b.assignee
    ensures ClosedJoined(st, nodes, edges)
    ensures NodesExact(st, beads, args, ok, nodes) && ColumnsExact(st, roster, nodes)
    ensures EdgesExact(st, beads, args, ok, nodes, edges)
    ensures ParentsExact(st, beads, args, ok, Elems(revRows[..cut]), nodes)
    ensures EdgesStored(st, edges)
    ensures ParentsStored(st, beads, ok.reverse, nodes, edges)
    ensures ok.reverse ==> DepsDrawn(st, beads, nodes, edges)
    ensures ok.reverse && ok.missing && args.includeDeps ==> EndsShown(st, beads, args.exclude, nodes)
  {
    var fwd := GetDependenciesForBeads(rows, beads.Keys);
    var rev := GetReverseDependenciesForBeads(revRows[..cut], beads.Keys);
    var in_ := Input(beads, st.beads, fwd, rev, roster);
    AllQueried(st, in_, ok, rows, revRows, cut);
    QueriedIsGiven(st, in_, ok);
    ghost var s;
    nodes, edges, s := Assemble(in_, args, ok);
    ResponseLaws(in_, args, ok, s);
    NodesAreExact(st, in_, args, ok, s);
    ClosedAreJoined(st, roster, s);
    EdgesAreExact(st, in_, args, ok, s);
    ParentsAreExact(st, in_, args, ok, s, Elems(revRows[..cut]));
    EdgesAreStored(st, in_, args, ok, s);
    ParentsAreStored(st, in_, args, ok, s);
    if ok.reverse {
      DepsAreDrawn(st, in_, args, ok, s);
      if ok.missing && args.includeDeps {
        EndsAreShown(st, in_, args, ok, s);
      }
    }
  }

  lemma AllQueried(st: Store, in_: Input, ok: Queries, rows: seq<Dependency>, revRows: seq<Dependency>, cut: nat)
    requires Linked(st) && RowsNamed(st) && IdsGenerated(st) && in_.table == st.beads && Rows(in_.beads, st)
    requires Elems(rows) == st.deps && Elems(revRows) == st.deps
    requires cut <= |revRows| && (ok.reverse ==> cut == |revRows|)
    requires ByBead(in_.fwd) && in_.fwd.Keys <= in_.beads.Keys && ByTarget(in_.rev) && in_.rev.Keys <= in_.beads.Keys
    requires forall d :: Among(in_.fwd, d) <==> d in rows && d.beadId in in_.beads.Keys
    requires forall d :: Among(in_.rev, d) <==> d in revRows[..cut] && d.dependsOn in in_.beads.Keys
    ensures Queried(st, in_, ok)
  {
    assert forall d :: d in rows <==> d in Elems(rows);
    assert forall d :: d in revRows <==> d in Elems(revRows);
    assert forall d :: d in revRows[..cut] ==> d in revRows;
    assert cut == |revRows| ==> revRows[..cut] == revRows;
  }
}
