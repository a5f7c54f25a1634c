/**
 The graph handler from its first query to its last filter, and what its response
 promises (internal/server/http_graph.go).
 */
module GraphLaws {
  import opened Wrappers
  import opened Beads
  import opened GraphEdges
  import opened GraphParents
  import opened GraphPrune
  import opened Graph

  datatype Args = Args(
    includeDeps: bool, includeConnectedClosed: bool, includeAgents: bool, exclude: set<string>, cutoff: Option<Time>)

  /** Which of the queries whose failure is tolerated succeed. */
  datatype Queries = Queries(reverse: bool, missing: bool, candidates: bool)

  /** What the handler works on: the beads it found, the table behind them, their dependency records. */
  datatype Input = Input(beads: BeadMap, table: BeadMap, fwd: Records, rev: Records, roster: seq<RosterEntry>)

  ghost predicate Given(in_: Input) {
    && Proper(in_.beads) && Proper(in_.table)
    && ByBead(in_.fwd) && ByTarget(in_.rev) && in_.fwd.Keys <= in_.beads.Keys && in_.rev.Keys <= in_.beads.Keys
    && (forall d :: Among(in_.fwd, d) || Among(in_.rev, d) ==> IdLike(d.beadId) && IdLike(d.dependsOn))
  }

  /** The stages of a response, each by the relation its loops establish. */
  datatype Stages = Stages(
    union: seq<Edge>, seen: set<string>, missing: set<string>, withDeps: BeadMap, beads: BeadMap, parents: Parents,
    promoted: seq<Edge>, beadNodes: seq<Node>, agents: Agents, allEdges: seq<Edge>, allNodes: seq<Node>)

  ghost predicate EdgesBuilt(in_: Input, args: Args, ok: Queries, s: Stages) {
    && Union(s.union, s.seen, Used(in_.fwd, in_.rev, ok.reverse))
    && s.missing == if args.includeDeps then Outside(s.union, in_.beads.Keys) else {}
  }

  ghost predicate BeadsFetched(in_: Input, args: Args, ok: Queries, s: Stages) {
    && Fetched(s.withDeps, in_.beads, if ok.missing then s.missing else {}, in_.table,
               Wanted(args.exclude, false, None))
    && Fetched(s.beads, s.withDeps,
               if args.includeConnectedClosed && ok.candidates
               then Candidates(s.union, in_.fwd, s.withDeps.Keys) else {},
               in_.table, Wanted(args.exclude, true, args.cutoff))
  }

  ghost predicate IsPromotion(promoted: seq<Edge>, edges: seq<Edge>, parents: Parents) {
    |promoted| == |edges| && forall i :: 0 <= i < |edges| ==> promoted[i] == Promoted(edges[i], parents)
  }

  ghost predicate ParentsFound(in_: Input, s: Stages) {
    (forall x :: ParentOf(s.parents, in_.fwd, in_.rev, s.beads, x)) && IsPromotion(s.promoted, s.union, s.parents)
  }

  /** Nodes and edges before pruning. */
  ghost predicate Populated(includeAgents: bool, roster: Agents, beads: BeadMap, promoted: seq<Edge>,
      beadNodes: seq<Node>, agents: Agents, allEdges: seq<Edge>, allNodes: seq<Node>)
  {
    if includeAgents then
      && WithAssignees(agents, roster, beads, beads.Keys)
      && WithAssignments(allEdges, promoted, beads, beads.Keys)
      && (forall n :: n in allNodes <==>
            n in beadNodes || exists a :: a in agents && n == agents[a] && HasAgentEdge(allEdges, n.id))
    else allEdges == promoted && allNodes == beadNodes && agents == map[]
  }

  ghost predicate AgentsAdded(in_: Input, args: Args, s: Stages) {
    && NodesOf(s.beadNodes, s.beads, s.beads.Keys, s.parents)
    && Populated(args.includeAgents, RosterAgents(in_.roster), s.beads, s.promoted, s.beadNodes, s.agents,
        s.allEdges, s.allNodes)
  }

  ghost predicate Staged(in_: Input, args: Args, ok: Queries, s: Stages) {
    EdgesBuilt(in_, args, ok, s) && BeadsFetched(in_, args, ok, s) && ParentsFound(in_, s) && AgentsAdded(in_, args, s)
  }

  function ResponseNodes(s: Stages): seq<Node> {
    KeptNodes(s.allNodes, s.allNodes, s.allEdges)
  }

  function ResponseEdges(s: Stages): seq<Edge> {
    KeptEdges(s.allEdges, IdsOf(ResponseNodes(s)))
  }

  // --------------------------------------------------------------- the handler

  /** The chain of loops, stage by stage. */
  method Assemble(in_: Input, args: Args, ok: Queries) returns (nodes: seq<Node>, edges: seq<Edge>, ghost s: Stages)
    requires Given(in_)
    ensures Staged(in_, args, ok, s)
    ensures nodes == ResponseNodes(s) && edges == ResponseEdges(s)
  {
    var union, missing, beads, withDeps, parents, promoted;
    ghost var seen;
    union, missing, seen := BuildEdges(in_.fwd, in_.rev, ok.reverse, in_.beads.Keys, args.includeDeps);
    withDeps := Fetch(in_.beads, missing, in_.table, ok.missing, Wanted(args.exclude, false, None));
    beads := ConnectedClosed(withDeps, union, in_, args, ok);
    parents := ParentLookup(in_.fwd, in_.rev, beads);
    TargetsNamed(union, seen, in_, ok.reverse);
    promoted := PromoteAll(union, parents);
    var beadNodes := BuildNodes(beads, parents);
    var agents, allEdges, allNodes := Populate(args.includeAgents, in_.roster, beads, promoted, beadNodes);
    s := Stages(union, seen, missing, withDeps, beads, parents, promoted, beadNodes, agents, allEdges, allNodes);
    nodes, edges := Prune(allNodes, allEdges);
  }

  /** The agent nodes and their edges, if they are asked for. */
  method Populate(includeAgents: bool, roster: seq<RosterEntry>, beads: BeadMap, promoted: seq<Edge>,
      beadNodes: seq<Node>)
      returns (agents: Agents, allEdges: seq<Edge>, allNodes: seq<Node>)
    ensures Populated(includeAgents, RosterAgents(roster), beads, promoted, beadNodes, agents, allEdges, allNodes)
  {
    if !includeAgents {
      return map[], promoted, beadNodes;
    }
    var live := AgentsOnRoster(roster);
    agents := AddAssignees(live, beads);
    allEdges := AddAssignments(promoted, beads, agents);
    allNodes := ShownAgents(beadNodes, allEdges, agents);
  }

  method ConnectedClosed(beads: BeadMap, edges: seq<Edge>, in_: Input, args: Args, ok: Queries) returns (more: BeadMap)
    ensures Fetched(more, beads,
                    if args.includeConnectedClosed && ok.candidates then Candidates(edges, in_.fwd, beads.Keys) else {},
                    in_.table, Wanted(args.exclude, true, args.cutoff))
  {
    NoneFetched(beads, in_.table, Wanted(args.exclude, true, args.cutoff));
    if !args.includeConnectedClosed {
      return beads;
    }
    more := Fetch(beads, Candidates(edges, in_.fwd, beads.Keys), in_.table, ok.candidates,
                  Wanted(args.exclude, true, args.cutoff));
  }

  lemma TargetsNamed(union: seq<Edge>, seen: set<string>, in_: Input, revOk: bool)
    requires Given(in_) && Union(union, seen, Used(in_.fwd, in_.rev, revOk))
    ensures forall e :: e in union ==> IdLike(e.source) && IdLike(e.target)
  {}

  // ------------------------------------------------------------------ the laws

  /** Every edge of the response has both its ends in the response, and pruning takes out exactly what it must. */
  lemma ResponseIsExact(s: Stages)
    ensures forall e :: e in ResponseEdges(s) <==>
              e in s.allEdges && e.source in IdsOf(ResponseNodes(s)) && e.target in IdsOf(ResponseNodes(s))
    ensures forall n :: n in ResponseNodes(s) <==> n in s.allNodes && Keep(n, s.allNodes, s.allEdges)
  {
    PruneIsExact(s.allNodes, s.allEdges);
  }

  /** Every closed node of the response has an edge in the response to a live node of the response. */
  lemma ClosedNodesAreNearLive(s: Stages, n: Node) returns (e: Edge, m: Node)
    requires n in ResponseNodes(s) && n.status == CLOSED
    ensures e in ResponseEdges(s) && m in ResponseNodes(s) && Live(m.status) && Joins(e, n.id, m.id)
  {
    e, m := ClosedHasLiveNeighbor(s.allNodes, s.allEdges, n);
  }

  /** Fetching keeps beads under their own identifiers. */
  lemma StaysProper(in_: Input, args: Args, ok: Queries, s: Stages)
    requires Given(in_) && BeadsFetched(in_, args, ok, s)
    ensures Proper(s.beads)
  {
    assert Proper(s.withDeps);
  }

  /** A node of the response is a bead's or an agent's. */
  lemma NodeKinds(in_: Input, args: Args, ok: Queries, s: Stages, n: Node)
    requires Given(in_) && Staged(in_, args, ok, s) && n in s.allNodes
    ensures || (IdLike(n.id) && n.id in s.beads && n == NodeOf(s.beads[n.id], s.parents))
            || (args.includeAgents && n.issueType == AGENT && n.parentId == "" && HasAgentEdge(s.allEdges, n.id) &&
                exists a :: n.id == AgentId(a))
    ensures n.id != ""
  {
    StaysProper(in_, args, ok, s);
    if n !in s.beadNodes {
      AgentNodes(in_, args, s, n);
    }
  }

  lemma AgentNodes(in_: Input, args: Args, s: Stages, n: Node)
    requires AgentsAdded(in_, args, s) && n in s.allNodes && n !in s.beadNodes
    ensures args.includeAgents && n.issueType == AGENT && n.parentId == "" && HasAgentEdge(s.allEdges, n.id)
    ensures exists a :: n.id == AgentId(a)
  {
    var a :| a in s.agents && n == s.agents[a] && HasAgentEdge(s.allEdges, n.id);
    AgentIs(in_.roster, s.agents, s.beads, a);
  }

  lemma AgentIs(roster: seq<RosterEntry>, agents: Agents, beads: BeadMap, a: string)
    requires WithAssignees(agents, RosterAgents(roster), beads, beads.Keys) && a in agents
    ensures agents[a].id == AgentId(a) && agents[a].issueType == AGENT && agents[a].parentId == ""
  {
    RosterNodes(roster);
  }

  lemma {:induction false} RosterNodes(roster: seq<RosterEntry>)
    ensures forall a :: a in RosterAgents(roster) ==>
              RosterAgents(roster)[a] == AgentNode(a, ACTIVE) || RosterAgents(roster)[a] == AgentNode(a, IDLE)
  {
    if roster != [] {
      RosterNodes(roster[..|roster| - 1]);
    }
  }

  /**
   Exactly when a node whose parent is in the response has a parent-child edge to
   it in the response, whether that parent was recorded, found in reverse, or
   inferred from a blocks edge to an epic: the reverse query succeeded, or the
   node's own records name the parent.
   */
  lemma ParentsAgreeWithEdges(in_: Input, args: Args, ok: Queries, s: Stages, n: Node)
    requires Given(in_) && Staged(in_, args, ok, s)
    requires n in ResponseNodes(s) && n.parentId in IdsOf(ResponseNodes(s))
    ensures Edge(n.id, n.parentId, PARENT_CHILD) in ResponseEdges(s) <==> Backed(in_.fwd, ok.reverse, n.id, n.parentId)
  {
    ResponseIsExact(s);
    var p :| p in ResponseNodes(s) && p.id == n.parentId;
    NodeKinds(in_, args, ok, s, p);
    ParentRead(in_, args, ok, s, n);
    EdgeOfParent(in_, args, ok, s, n.id);
  }

  lemma ParentRead(in_: Input, args: Args, ok: Queries, s: Stages, n: Node)
    requires Given(in_) && Staged(in_, args, ok, s) && n in s.allNodes && n.parentId != ""
    ensures n.id in s.parents && n.parentId == s.parents[n.id]
  {
    NodeKinds(in_, args, ok, s, n);
    StaysProper(in_, args, ok, s);
  }

  lemma EdgeOfParent(in_: Input, args: Args, ok: Queries, s: Stages, x: string)
    requires Given(in_) && Staged(in_, args, ok, s) && x in s.parents
    ensures Edge(x, s.parents[x], PARENT_CHILD) in s.allEdges <==> Backed(in_.fwd, ok.reverse, x, s.parents[x])
  {
    PromotedShown(in_, args, s);
    PromotedParent(in_, ok, s, x);
  }

  lemma PromotedParent(in_: Input, ok: Queries, s: Stages, x: string)
    requires Given(in_) && Union(s.union, s.seen, Used(in_.fwd, in_.rev, ok.reverse)) && ParentsFound(in_, s)
    requires x in s.parents
    ensures Edge(x, s.parents[x], PARENT_CHILD) in s.promoted <==> Backed(in_.fwd, ok.reverse, x, s.parents[x])
  {
    assert ParentOf(s.parents, in_.fwd, in_.rev, s.beads, x);
    ParentHasEdge(s.parents, s.union, s.seen, Used(in_.fwd, in_.rev, ok.reverse), s.promoted, x);
    BackedIff(s.parents, in_.fwd, in_.rev, ok.reverse, s.beads, x);
  }

  /** The edges before pruning are the promoted ones and the assignments. */
  lemma PromotedShown(in_: Input, args: Args, s: Stages)
    requires AgentsAdded(in_, args, s)
    ensures forall e :: e in s.allEdges <==> e in s.promoted || (args.includeAgents && FromAssignment(s, e))
  {}

  /** Every bead at hand has its node before pruning. */
  lemma BeadShown(in_: Input, args: Args, s: Stages, id: string)
    requires AgentsAdded(in_, args, s) && id in s.beads
    ensures NodeOf(s.beads[id], s.parents) in s.allNodes
  {
    assert NodeOf(s.beads[id], s.parents) in s.beadNodes;
  }

  /** Every agent node has an assignment edge in the response to a bead in the response that is in progress. */
  lemma AgentsAreAtWork(in_: Input, args: Args, ok: Queries, s: Stages, n: Node) returns (m: Node)
    requires Given(in_) && Staged(in_, args, ok, s)
    requires n in ResponseNodes(s) && !IdLike(n.id)
    ensures m in ResponseNodes(s) && m.status == IN_PROGRESS && n.id == AgentId(m.assignee)
    ensures Edge(n.id, m.id, ASSIGNED_TO) in ResponseEdges(s)
  {
    ResponseIsExact(s);
    NodeKinds(in_, args, ok, s, n);
    var id := AssignmentFound(in_, args, ok, s, n.id);
    StaysProper(in_, args, ok, s);
    m := NodeOf(s.beads[id], s.parents);
    BeadShown(in_, args, s, id);
    StaysAtWork(s, m, AssignmentOf(s.beads[id]));
  }

  lemma StaysAtWork(s: Stages, m: Node, e: Edge)
    requires m in s.allNodes && m.status == IN_PROGRESS && e in s.allEdges && e.target == m.id
    requires e.source in IdsOf(ResponseNodes(s))
    ensures m in ResponseNodes(s) && e in ResponseEdges(s)
  {
    LiveStays(s.allNodes, s.allEdges, m);
    ResponseIsExact(s);
  }

  /** The edge that shows an agent is an assignment: dependencies start at beads. */
  lemma AssignmentFound(in_: Input, args: Args, ok: Queries, s: Stages, x: string) returns (id: string)
    requires Given(in_) && Staged(in_, args, ok, s) && args.includeAgents && !IdLike(x) && HasAgentEdge(s.allEdges, x)
    ensures id in s.beads && Working(s.beads[id]) && x == AgentId(s.beads[id].assignee)
    ensures AssignmentOf(s.beads[id]) in s.allEdges
  {
    var e :| e in s.allEdges && (e.typ == ASSIGNED_TO || e.typ == REQUESTED_BY) && e.source == x;
    SourceOutside(in_, args, ok, s, e);
    id :| id in s.beads && Working(s.beads[id]) && e == AssignmentOf(s.beads[id]);
  }

  lemma SourceOutside(in_: Input, args: Args, ok: Queries, s: Stages, e: Edge)
    requires Given(in_) && Union(s.union, s.seen, Used(in_.fwd, in_.rev, ok.reverse)) && ParentsFound(in_, s)
    requires AgentsAdded(in_, args, s) && e in s.allEdges && !IdLike(e.source)
    ensures FromAssignment(s, e)
  {
    PromotedEnds(in_, ok, s);
    PromotedShown(in_, args, s);
  }

  lemma PromotedEnds(in_: Input, ok: Queries, s: Stages)
    requires Given(in_) && Union(s.union, s.seen, Used(in_.fwd, in_.rev, ok.reverse)) && ParentsFound(in_, s)
    ensures forall e :: e in s.promoted ==> IdLike(e.source) && IdLike(e.target)
  {
    TargetsNamed(s.union, s.seen, in_, ok.reverse);
    forall e | e in s.promoted ensures IdLike(e.source) && IdLike(e.target) {
      var i :| 0 <= i < |s.promoted| && s.promoted[i] == e;
      assert s.union[i] in s.union;
    }
  }

  /** Some dependency record, promoted or not, is this edge. */
  ghost predicate FromRecord(in_: Input, ok: Queries, s: Stages, e: Edge) {
    exists d :: d in Used(in_.fwd, in_.rev, ok.reverse) && e == Promoted(AsEdge(d), s.parents)
  }

  ghost predicate FromAssignment(s: Stages, e: Edge) {
    exists id :: id in s.beads && Working(s.beads[id]) && e == AssignmentOf(s.beads[id])
  }

  /** The response shows the dependencies between its nodes, and the assignments, and nothing else. */
  lemma EdgesAreRecords(in_: Input, args: Args, ok: Queries, s: Stages, e: Edge)
    requires Given(in_) && Staged(in_, args, ok, s)
    ensures e in ResponseEdges(s) <==>
            && e.source in IdsOf(ResponseNodes(s)) && e.target in IdsOf(ResponseNodes(s))
            && (FromRecord(in_, ok, s, e) || (args.includeAgents && FromAssignment(s, e)))
  {
    ResponseIsExact(s);
    PromotedRecords(in_, ok, s, e);
  }

  lemma PromotedRecords(in_: Input, ok: Queries, s: Stages, e: Edge)
    requires Given(in_) && Union(s.union, s.seen, Used(in_.fwd, in_.rev, ok.reverse)) && ParentsFound(in_, s)
    ensures e in s.promoted <==> FromRecord(in_, ok, s, e)
  {
    UnionIsExact(s.union, s.seen, Used(in_.fwd, in_.rev, ok.reverse));
    if e in s.promoted {
      var i :| 0 <= i < |s.promoted| && s.promoted[i] == e;
      assert s.union[i] in s.union;
      var d :| d in Used(in_.fwd, in_.rev, ok.reverse) && AsEdge(d) == s.union[i];
    }
    if FromRecord(in_, ok, s, e) {
      var d :| d in Used(in_.fwd, in_.rev, ok.reverse) && e == Promoted(AsEdge(d), s.parents);
      assert AsEdge(d) in s.union;
      var i :| 0 <= i < |s.union| && s.union[i] == AsEdge(d);
      assert s.promoted[i] == e;
    }
  }

  /** With dependencies included, both ends of every dependency are at hand unless excluded or gone from the table. */
  lemma DependenciesAtHand(in_: Input, args: Args, ok: Queries, s: Stages, d: Dependency, x: string)
    requires Given(in_) && EdgesBuilt(in_, args, ok, s) && BeadsFetched(in_, args, ok, s)
    requires args.includeDeps && ok.missing && d in Used(in_.fwd, in_.rev, ok.reverse)
    requires x == d.beadId || x == d.dependsOn
    ensures x in s.beads || x !in in_.table || in_.table[x].typ in args.exclude
  {
    UnionIsExact(s.union, s.seen, Used(in_.fwd, in_.rev, ok.reverse));
    assert AsEdge(d) in s.union;
    assert x in in_.beads || x in s.missing;
    assert x in s.withDeps || x !in in_.table || in_.table[x].typ in args.exclude;
  }

  // -------------------------------------------------------------- the response

  /** No edge leads out of the response. */
  predicate Closed(nodes: seq<Node>, edges: seq<Edge>) {
    forall e :: e in edges ==> e.source in IdsOf(nodes) && e.target in IdsOf(nodes)
  }

  /** Every closed node has an edge to a live one. */
  predicate ClosedNearLive(nodes: seq<Node>, edges: seq<Edge>) {
    forall n :: n in nodes && n.status == CLOSED ==> NearLive(nodes, edges, n.id)
  }

  /** A node whose parent is shown is shown with its edge to it exactly when the records at hand back that parent. */
  predicate ParentsShown(nodes: seq<Node>, edges: seq<Edge>, fwd: Records, revOk: bool) {
    forall n :: n in nodes && n.parentId in IdsOf(nodes) ==>
      (Edge(n.id, n.parentId, PARENT_CHILD) in edges <==> Backed(fwd, revOk, n.id, n.parentId))
  }

  /** The node is assigned a bead in progress. */
  predicate AtWork(nodes: seq<Node>, edges: seq<Edge>, id: string) {
    exists m :: m in nodes && m.status == IN_PROGRESS && id == AgentId(m.assignee) &&
        Edge(id, m.id, ASSIGNED_TO) in edges
  }

  /** Every node that is not a bead is an agent at work. */
  predicate AgentsBusy(nodes: seq<Node>, edges: seq<Edge>) {
    forall n :: n in nodes && !IdLike(n.id) ==> AtWork(nodes, edges, n.id)
  }

  /** The response comes out of the stages, so the lemmas above apply to it. */
  ghost predicate Responds(in_: Input, args: Args, ok: Queries, nodes: seq<Node>, edges: seq<Edge>) {
    exists s :: Staged(in_, args, ok, s) && nodes == ResponseNodes(s) && edges == ResponseEdges(s)
  }

  /** handleGraph, from the batch queries' results to the response. */
  method HandleGraph(in_: Input, args: Args, ok: Queries) returns (nodes: seq<Node>, edges: seq<Edge>)
    requires Given(in_)
    ensures Responds(in_, args, ok, nodes, edges)
    ensures Closed(nodes, edges) && ClosedNearLive(nodes, edges) && AgentsBusy(nodes, edges)
    ensures ParentsShown(nodes, edges, in_.fwd, ok.reverse)
    ensures forall n :: n in nodes && !("agent:" <= n.id) ==>
              || (n.id in in_.beads && HasColumns(n, in_.beads[n.id]))
              || (n.id in in_.table && HasColumns(n, in_.table[n.id]))
  {
    ghost var s;
    nodes, edges, s := Assemble(in_, args, ok);
    ResponseLaws(in_, args, ok, s);
    forall n | n in nodes && !("agent:" <= n.id)
      ensures n.id in s.beads && HasColumns(n, s.beads[n.id])
    {
      ResponseIsExact(s);
      StaysProper(in_, args, ok, s);
      NodeKinds(in_, args, ok, s, n);
    }
  }

  lemma ResponseLaws(in_: Input, args: Args, ok: Queries, s: Stages)
    requires Given(in_) && Staged(in_, args, ok, s)
    ensures Closed(ResponseNodes(s), ResponseEdges(s)) && ClosedNearLive(ResponseNodes(s), ResponseEdges(s))
    ensures AgentsBusy(ResponseNodes(s), ResponseEdges(s))
    ensures ParentsShown(ResponseNodes(s), ResponseEdges(s), in_.fwd, ok.reverse)
  {
    ResponseIsExact(s);
    ClosedLaw(s);
    AgentsLaw(in_, args, ok, s);
    ParentsLaw(in_, args, ok, s);
  }

  lemma ClosedLaw(s: Stages)
    ensures ClosedNearLive(ResponseNodes(s), ResponseEdges(s))
  {
    var nodes, edges := ResponseNodes(s), ResponseEdges(s);
    forall n | n in nodes && n.status == CLOSED ensures NearLive(nodes, edges, n.id) {
      var e, m := ClosedNodesAreNearLive(s, n);
      assert LiveNode(nodes, m.id);
    }
  }

  lemma AgentsLaw(in_: Input, args: Args, ok: Queries, s: Stages)
    requires Given(in_) && Staged(in_, args, ok, s)
    ensures AgentsBusy(ResponseNodes(s), ResponseEdges(s))
  {
    var nodes, edges := ResponseNodes(s), ResponseEdges(s);
    forall n | n in nodes && !IdLike(n.id) ensures AtWork(nodes, edges, n.id) {
      var m := AgentsAreAtWork(in_, args, ok, s, n);
    }
  }

  lemma ParentsLaw(in_: Input, args: Args, ok: Queries, s: Stages)
    requires Given(in_) && Staged(in_, args, ok, s)
    ensures ParentsShown(ResponseNodes(s), ResponseEdges(s), in_.fwd, ok.reverse)
  {
    var nodes, edges := ResponseNodes(s), ResponseEdges(s);
    forall n | n in nodes && n.parentId in IdsOf(nodes)
      ensures Edge(n.id, n.parentId, PARENT_CHILD) in edges <==> Backed(in_.fwd, ok.reverse, n.id, n.parentId)
    {
      ParentsAgreeWithEdges(in_, args, ok, s, n);
    }
  }

  // ------------------------------------------- a parent without its edge

  /** An ordinary open bead. */
  predicate Plain(b: Bead) {
    b.status == OPEN && b.typ == "task"
  }

  /**
   The reverse query broke off after its first record: b and p were found, b
   blocks on c, c is a child of p, and c is known from the table only.
   */
  ghost predicate BrokenOff(in_: Input, b: string, c: string, p: string) {
    && in_.beads.Keys == {b, p} && in_.table.Keys == {b, c, p}
    && Proper(in_.beads) && Proper(in_.table)
    && (forall id :: id in in_.table ==> Plain(in_.table[id]))
    && (forall id :: id in in_.beads ==> in_.beads[id] == in_.table[id])
    && in_.fwd == map[b := [Dependency(b, c, BLOCKS)]]
    && in_.rev == map[p := [Dependency(c, p, PARENT_CHILD)]]
  }

  /** Then the response shows c under its parent p, shows p, and has no edge between them. */
  lemma PartialReverseLosesEdge(in_: Input, s: Stages, b: string, c: string, p: string)
    requires BrokenOff(in_, b, c, p) && b != c && c != p && b != p
    requires Staged(in_, Args(true, false, false, {}, None), Queries(false, true, true), s)
    ensures Given(in_)
    ensures var n := NodeOf(in_.table[c], s.parents);
            && n in ResponseNodes(s) && n.parentId == p && p in IdsOf(ResponseNodes(s))
            && Edge(c, p, PARENT_CHILD) !in ResponseEdges(s)
  {
    var args, ok := Args(true, false, false, {}, None), Queries(false, true, true);
    BrokenOffIsGiven(in_, b, c, p);
    BothAtHand(in_, args, ok, s, b, c, p);
    ParentOfChild(in_, s, b, c, p);
    PlainStays(in_, args, s, c);
    PlainStays(in_, args, s, p);
    NoEdgeToParent(in_, args, ok, s, NodeOf(in_.table[c], s.parents));
  }

  lemma BothAtHand(in_: Input, args: Args, ok: Queries, s: Stages, b: string, c: string, p: string)
    requires BrokenOff(in_, b, c, p) && Given(in_) && c != p && b != c
    requires args.includeDeps && !args.includeConnectedClosed && args.exclude == {} && !ok.reverse && ok.missing
    requires EdgesBuilt(in_, args, ok, s) && BeadsFetched(in_, args, ok, s)
    ensures c in s.beads && s.beads[c] == in_.table[c] && p in s.beads && s.beads[p] == in_.table[p]
  {
    BrokenOffRecord(in_, b, c, p);
    ChildMissing(in_, args, ok, s, Dependency(b, c, BLOCKS));
    MissingFetched(in_, args, ok, s, c);
    SelectedKept(in_, args, ok, s, p);
  }

  lemma BrokenOffRecord(in_: Input, b: string, c: string, p: string)
    requires BrokenOff(in_, b, c, p) && b != c && c != p
    ensures Among(in_.fwd, Dependency(b, c, BLOCKS)) && c !in in_.beads && c in in_.table && p in in_.beads
    ensures p in in_.table && in_.beads[p] == in_.table[p]
  {
    assert Dependency(b, c, BLOCKS) in in_.fwd[b];
  }

  lemma NoEdgeToParent(in_: Input, args: Args, ok: Queries, s: Stages, n: Node)
    requires Given(in_) && Staged(in_, args, ok, s)
    requires n in ResponseNodes(s) && n.parentId in IdsOf(ResponseNodes(s)) && n.id !in in_.fwd && !ok.reverse
    ensures Edge(n.id, n.parentId, PARENT_CHILD) !in ResponseEdges(s)
  {
    ParentsAgreeWithEdges(in_, args, ok, s, n);
    assert !Backed(in_.fwd, ok.reverse, n.id, n.parentId);
  }

  lemma PlainStays(in_: Input, args: Args, s: Stages, id: string)
    requires AgentsAdded(in_, args, s) && id in s.beads && s.beads[id].id == id && Plain(s.beads[id])
    ensures NodeOf(s.beads[id], s.parents) in ResponseNodes(s) && id in IdsOf(ResponseNodes(s))
  {
    var n := NodeOf(s.beads[id], s.parents);
    BeadShown(in_, args, s, id);
    ResponseIsExact(s);
    assert n in ResponseNodes(s) && n.id == id;
  }

  lemma BrokenOffIsGiven(in_: Input, b: string, c: string, p: string)
    requires BrokenOff(in_, b, c, p)
    ensures Given(in_)
  {
    assert b in in_.table && c in in_.table && p in in_.table;
  }

  /** The far end of a selected bead's dependency is fetched if it is not selected itself. */
  lemma ChildMissing(in_: Input, args: Args, ok: Queries, s: Stages, d: Dependency)
    requires Given(in_) && EdgesBuilt(in_, args, ok, s) && args.includeDeps
    requires Among(in_.fwd, d) && d.dependsOn !in in_.beads
    ensures d.dependsOn in s.missing
  {
    EndMissing(s, Used(in_.fwd, in_.rev, ok.reverse), in_.beads.Keys, d);
  }

  /** A bead that is missing from the selection is fetched from the table unless its type is excluded. */
  lemma MissingFetched(in_: Input, args: Args, ok: Queries, s: Stages, x: string)
    requires BeadsFetched(in_, args, ok, s) && ok.missing && !args.includeConnectedClosed
    requires x in s.missing && x in in_.table && in_.table[x].typ !in args.exclude
    ensures x in s.beads && s.beads[x] == in_.table[x]
  {
    assert x in s.withDeps && s.withDeps[x] == in_.table[x];
  }

  lemma SelectedKept(in_: Input, args: Args, ok: Queries, s: Stages, x: string)
    requires BeadsFetched(in_, args, ok, s) && !args.includeConnectedClosed
    requires x in in_.beads && x in in_.table && in_.beads[x] == in_.table[x]
    ensures x in s.beads && s.beads[x] == in_.table[x]
  {
    assert x in s.withDeps && s.withDeps[x] == in_.table[x];
  }

  lemma EndMissing(s: Stages, used: set<Dependency>, known: set<string>, d: Dependency)
    requires Union(s.union, s.seen, used) && d in used && d.dependsOn !in known
    requires forall d :: d in used ==> IdLike(d.beadId) && IdLike(d.dependsOn)
    requires s.missing == Outside(s.union, known)
    ensures d.dependsOn in s.missing
  {
    UnionIsExact(s.union, s.seen, used);
    assert AsEdge(d) in s.union;
  }

  lemma ParentOfChild(in_: Input, s: Stages, b: string, c: string, p: string)
    requires BrokenOff(in_, b, c, p) && ParentsFound(in_, s)
    ensures c in s.parents && s.parents[c] == p
  {
    assert p in in_.rev.Keys && Dependency(c, p, PARENT_CHILD) in in_.rev[p];
    assert HasParentIn(in_.rev, in_.rev.Keys, c);
    assert ParentOf(s.parents, in_.fwd, in_.rev, s.beads, c);
  }

  function PlainBead(id: string): Bead {
    Bead(id, "", "issue", "task", id, "", "", OPEN, 2, "", "", 1, "", 1, None, "", None, None, NoFields)
  }

  /** Such a request, carried out. */
  method ServeBrokenOff() returns (nodes: seq<Node>, edges: seq<Edge>)
    ensures exists n :: n in nodes && n.parentId in IdsOf(nodes) && Edge(n.id, n.parentId, PARENT_CHILD) !in edges
  {
    var b, c, p := "kd-b", "kd-c", "kd-p";
    var beads := map[b := PlainBead(b), p := PlainBead(p)];
    var in_ := Input(beads, beads[c := PlainBead(c)], map[b := [Dependency(b, c, BLOCKS)]],
                     map[p := [Dependency(c, p, PARENT_CHILD)]], []);
    assert BrokenOff(in_, b, c, p);
    BrokenOffIsGiven(in_, b, c, p);
    ghost var s;
    nodes, edges, s := Assemble(in_, Args(true, false, false, {}, None), Queries(false, true, true));
    PartialReverseLosesEdge(in_, s, b, c, p);
  }
}
