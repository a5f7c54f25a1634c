/**
 What the graph response shows, bead by bead and edge by edge, in terms of the
 stored rows alone (internal/server/http_graph.go).
 */
module GraphExact {
  import opened Wrappers
  import opened Beads
  import opened Graph
  import opened GraphEdges
  import opened GraphLaws
  import opened GraphParents
  import opened GraphPrune
  import opened Store

  /** Every bead has an identifier as the generator makes them. */
  predicate IdsGenerated(st: Store) {
    forall id :: id in st.beads ==> IdLike(id)
  }

  /** Some of the rows of a table. */
  predicate Rows(beads: BeadMap, st: Store) {
    forall id :: id in beads ==> id in st.beads && beads[id] == st.beads[id]
  }

  /** What the batch queries hand the handler: all forward records, and of the reverse ones what came through. */
  ghost predicate Queried(st: Store, in_: Input, ok: Queries) {
    && Linked(st) && RowsNamed(st) && IdsGenerated(st)
    && in_.table == st.beads && Rows(in_.beads, st)
    && ByBead(in_.fwd) && in_.fwd.Keys <= in_.beads.Keys
    && ByTarget(in_.rev) && in_.rev.Keys <= in_.beads.Keys
    && (forall d :: Among(in_.fwd, d) <==> d in st.deps && d.beadId in in_.beads)
    && (forall d :: Among(in_.rev, d) ==> d in st.deps && d.dependsOn in in_.beads)
    && (ok.reverse ==> forall d :: d in st.deps && d.dependsOn in in_.beads ==> Among(in_.rev, d))
  }

  lemma QueriedIsGiven(st: Store, in_: Input, ok: Queries)
    requires Queried(st, in_, ok)
    ensures Given(in_)
  {}

  // ------------------------------------------------ what is shown, in plain terms

  /** A row that edges are built from: the batch queries reach it from a selected bead. */
  predicate Reached(beads: BeadMap, revOk: bool, d: Dependency) {
    d.beadId in beads || (revOk && d.dependsOn in beads)
  }

  /** The bead is an end of such a row. */
  predicate Wired(st: Store, beads: BeadMap, revOk: bool, x: string) {
    exists d :: d in st.deps && Reached(beads, revOk, d) && (d.beadId == x || d.dependsOn == x)
  }

  /** The bead was selected, or fetched because such a row leads to it. */
  predicate AtHand(st: Store, beads: BeadMap, args: Args, ok: Queries, x: string) {
    && x in st.beads
    && (|| x in beads
        || (&& Wired(st, beads, ok.reverse, x)
            && st.beads[x].typ !in args.exclude
            && (|| (args.includeDeps && ok.missing)
                || (&& args.includeConnectedClosed && ok.candidates && st.beads[x].status == "closed"
                    && (args.cutoff.Some? ==> st.beads[x].updatedAt >= args.cutoff.value)))))
  }

  predicate LiveBead(st: Store, beads: BeadMap, args: Args, ok: Queries, y: string) {
    && AtHand(st, beads, args, ok, y)
    && st.beads[y].status in ["open", "in_progress", "blocked", "deferred", "active", "idle"]
  }

  /** Such a row joins x to a live bead. */
  predicate JoinedToLive(st: Store, beads: BeadMap, args: Args, ok: Queries, x: string) {
    exists d :: d in st.deps && Reached(beads, ok.reverse, d) &&
        ((d.beadId == x && LiveBead(st, beads, args, ok, d.dependsOn)) ||
         (d.dependsOn == x && LiveBead(st, beads, args, ok, d.beadId)))
  }

  /** The bead has an assignment edge. */
  predicate Assigned(st: Store, args: Args, x: string) {
    args.includeAgents && x in st.beads && st.beads[x].assignee != "" && st.beads[x].status == "in_progress"
  }

  /** The bead is in the response. */
  predicate InResponse(st: Store, beads: BeadMap, args: Args, ok: Queries, x: string) {
    && AtHand(st, beads, args, ok, x)
    && (st.beads[x].typ in ["gate", "decision"] ==> Wired(st, beads, ok.reverse, x) || Assigned(st, args, x))
    && (st.beads[x].typ == "agent" ==>
          Wired(st, beads, ok.reverse, x) || Assigned(st, args, x) || st.beads[x].status in ["active", "idle"])
    && (st.beads[x].status == "closed" ==> JoinedToLive(st, beads, args, ok, x))
  }

  predicate NodeIn(nodes: seq<Node>, x: string) {
    exists n :: n in nodes && n.id == x
  }

  /** Exactly those beads are shown, and the agents that work on a bead at hand. */
  ghost predicate NodesExact(st: Store, beads: BeadMap, args: Args, ok: Queries, nodes: seq<Node>) {
    && (forall n :: n in nodes ==> n.id in st.beads || "agent:" <= n.id)
    && (forall x :: x in st.beads ==> (NodeIn(nodes, x) <==> InResponse(st, beads, args, ok, x)))
    && (forall a: string :: NodeIn(nodes, "agent:" + a) <==>
          exists x :: AtHand(st, beads, args, ok, x) && Assigned(st, args, x) && st.beads[x].assignee == a)
  }

  /** The last entry of the roster for the actor that is not reaped. */
  predicate LastSeen(roster: seq<RosterEntry>, actor: string, i: nat) {
    && i < |roster| && roster[i].actor == actor && !roster[i].reaped
    && (forall j :: i < j < |roster| ==> roster[j].actor != actor || roster[j].reaped)
  }

  /** An agent's node; its status is that of its last entry on the roster. */
  predicate IsAgent(n: Node, roster: seq<RosterEntry>) {
    && "agent:" <= n.id && n.title == n.id[6..] && n.issueType == "agent" && n.priority == 0
    && n.parentId == "" && n.assignee == ""
    && (forall i :: 0 <= i < |roster| && LastSeen(roster, n.title, i) ==>
          n.status == if roster[i].idleSecs < 30 then "active" else "idle")
    && ((forall e :: e in roster ==> e.actor != n.title || e.reaped) ==> n.status == "")
  }

  /** Every node repeats its row, or is that of an agent. */
  ghost predicate ColumnsExact(st: Store, roster: seq<RosterEntry>, nodes: seq<Node>) {
    forall n :: n in nodes ==>
      if n.id in st.beads then HasColumns(n, st.beads[n.id]) else IsAgent(n, roster)
  }

  /** Edge e shows row d: a blocks row from a node to its parent is shown as parent-child. */
  predicate IsEdgeOf(nodes: seq<Node>, e: Edge, d: Dependency) {
    && e.source == d.beadId && e.target == d.dependsOn
    && e.typ == if d.typ == "blocks" && (exists n :: n in nodes && n.id == d.beadId && n.parentId == d.dependsOn)
                then "parent-child" else d.typ
  }

  /** The edges are the rows and the assignments between nodes that are shown. */
  ghost predicate EdgesExact(st: Store, beads: BeadMap, args: Args, ok: Queries, nodes: seq<Node>, edges: seq<Edge>) {
    forall e :: e in edges <==>
      && NodeIn(nodes, e.source) && NodeIn(nodes, e.target)
      && (|| (exists d :: d in st.deps && Reached(beads, ok.reverse, d) && IsEdgeOf(nodes, e, d))
          || (&& Assigned(st, args, e.target)
              && e.typ == "assigned_to" && e.source == "agent:" + st.beads[e.target].assignee))
  }

  /** A row the reverse query read puts x under p. */
  predicate ReverseParent(beads: BeadMap, read: set<Dependency>, x: string, p: string) {
    Dependency(x, p, "parent-child") in read && p in beads
  }

  predicate ForwardParent(st: Store, beads: BeadMap, x: string, p: string) {
    Dependency(x, p, "parent-child") in st.deps && x in beads
  }

  /** The selected bead x waits for the epic p, which is at hand. */
  predicate EpicParent(st: Store, beads: BeadMap, args: Args, ok: Queries, x: string, p: string) {
    && Dependency(x, p, "blocks") in st.deps && x in beads
    && AtHand(st, beads, args, ok, p) && st.beads[p].typ == "epic"
  }

  /** The parent is a reverse one if there is one, else one of the bead's own, else an epic it waits for, else none. */
  ghost predicate ParentChosen(st: Store, beads: BeadMap, args: Args, ok: Queries, read: set<Dependency>, x: string,
      parent: string)
  {
    if exists p :: ReverseParent(beads, read, x, p) then ReverseParent(beads, read, x, parent)
    else if exists p :: ForwardParent(st, beads, x, p) then ForwardParent(st, beads, x, parent)
    else if exists p :: EpicParent(st, beads, args, ok, x, p) then EpicParent(st, beads, args, ok, x, parent)
    else parent == ""
  }

  ghost predicate ParentsExact(st: Store, beads: BeadMap, args: Args, ok: Queries, read: set<Dependency>,
      nodes: seq<Node>)
  {
    forall n :: n in nodes && n.id in st.beads ==> ParentChosen(st, beads, args, ok, read, n.id, n.parentId)
  }

  // -------------------------------------------------------------------- proofs

  lemma BeadsAreRows(st: Store, in_: Input, args: Args, ok: Queries, s: Stages)
    requires Queried(st, in_, ok) && BeadsFetched(in_, args, ok, s)
    ensures Rows(s.beads, st) && forall id :: id in in_.beads ==> id in s.beads
  {
    assert Rows(s.withDeps, st);
  }

  lemma UsedAreReached(st: Store, in_: Input, ok: Queries)
    requires Queried(st, in_, ok)
    ensures forall d :: d in Used(in_.fwd, in_.rev, ok.reverse) <==> d in st.deps && Reached(in_.beads, ok.reverse, d)
  {}

  lemma UnionEnds(edges: seq<Edge>, seen: set<string>, taken: set<Dependency>, x: string)
    requires Union(edges, seen, taken) && forall d :: d in taken ==> IdLike(d.beadId) && IdLike(d.dependsOn)
    ensures (exists e :: e in edges && (e.source == x || e.target == x)) <==>
            (exists d :: d in taken && (d.beadId == x || d.dependsOn == x))
  {
    UnionIsExact(edges, seen, taken);
    forall d | d in taken && (d.beadId == x || d.dependsOn == x)
      ensures exists e :: e in edges && (e.source == x || e.target == x)
    {
      assert AsEdge(d) in edges;
    }
  }

  lemma UnionIsWired(st: Store, in_: Input, ok: Queries, s: Stages, x: string)
    requires Queried(st, in_, ok) && Union(s.union, s.seen, Used(in_.fwd, in_.rev, ok.reverse))
    ensures Wired(st, in_.beads, ok.reverse, x) <==> exists e :: e in s.union && (e.source == x || e.target == x)
  {
    var used := Used(in_.fwd, in_.rev, ok.reverse);
    UsedAreReached(st, in_, ok);
    UsedIdLike(st, in_, ok);
    UnionEnds(s.union, s.seen, used, x);
  }

  lemma UsedIdLike(st: Store, in_: Input, ok: Queries)
    requires Queried(st, in_, ok)
    ensures forall d :: d in Used(in_.fwd, in_.rev, ok.reverse) ==> IdLike(d.beadId) && IdLike(d.dependsOn)
  {
    QueriedIsGiven(st, in_, ok);
  }

  /** A bead is in hand after both fetches exactly when it should be. */
  lemma AtHandIs(st: Store, in_: Input, args: Args, ok: Queries, s: Stages, x: string)
    requires Queried(st, in_, ok) && EdgesBuilt(in_, args, ok, s) && BeadsFetched(in_, args, ok, s)
    ensures x in s.beads <==> AtHand(st, in_.beads, args, ok, x)
  {
    var wired := Wired(st, in_.beads, ok.reverse, x);
    UnionIsWired(st, in_, ok, s, x);
    FirstFetch(in_, args, ok, s, x, wired);
    CandidateIs(st, in_, ok, s, x);
    SecondFetch(in_, args, ok, s, x, wired);
    assert x in in_.beads ==> x in st.beads;
  }

  lemma FirstFetch(in_: Input, args: Args, ok: Queries, s: Stages, x: string, wired: bool)
    requires s.missing == if args.includeDeps then Outside(s.union, in_.beads.Keys) else {}
    requires BeadsFetched(in_, args, ok, s)
    requires wired <==> exists e :: e in s.union && (e.source == x || e.target == x)
    ensures x in s.withDeps <==>
              || x in in_.beads
              || (wired && args.includeDeps && ok.missing && x in in_.table && in_.table[x].typ !in args.exclude)
  {
    FetchedHas(s.withDeps, in_.beads, if ok.missing then s.missing else {}, in_.table,
               Wanted(args.exclude, false, None), x);
  }

  lemma SecondFetch(in_: Input, args: Args, ok: Queries, s: Stages, x: string, wired: bool)
    requires BeadsFetched(in_, args, ok, s)
    requires x in Candidates(s.union, in_.fwd, s.withDeps.Keys) <==> x !in s.withDeps && wired
    ensures x in s.beads <==>
              || x in s.withDeps
              || (&& wired && args.includeConnectedClosed && ok.candidates
                  && x in in_.table && in_.table[x].typ !in args.exclude && in_.table[x].status == "closed"
                  && (args.cutoff.Some? ==> in_.table[x].updatedAt >= args.cutoff.value))
  {
    FetchedHas(s.beads, s.withDeps,
               if args.includeConnectedClosed && ok.candidates
               then Candidates(s.union, in_.fwd, s.withDeps.Keys) else {},
               in_.table, Wanted(args.exclude, true, args.cutoff), x);
  }

  lemma FetchedHas(more: BeadMap, beads: BeadMap, ids: set<string>, table: BeadMap, w: Wanted, x: string)
    requires Fetched(more, beads, ids, table, w)
    ensures x in more <==>
            || x in beads
            || (&& x in ids && x in table && table[x].typ !in w.exclude
                && (w.closedOnly ==> table[x].status == "closed")
                && (w.closedOnly && w.cutoff.Some? ==> table[x].updatedAt >= w.cutoff.value))
  {}

  lemma CandidateIs(st: Store, in_: Input, ok: Queries, s: Stages, x: string)
    requires Queried(st, in_, ok) && Union(s.union, s.seen, Used(in_.fwd, in_.rev, ok.reverse))
    ensures x in Candidates(s.union, in_.fwd, s.withDeps.Keys) <==>
              x !in s.withDeps && Wired(st, in_.beads, ok.reverse, x)
  {
    UnionIsWired(st, in_, ok, s, x);
    UsedAreReached(st, in_, ok);
  }

  // -------------------------------------------------------- before pruning

  predicate RowEdge(st: Store, beads: BeadMap, revOk: bool, parents: Parents, e: Edge) {
    exists d :: d in st.deps && Reached(beads, revOk, d) && e == Promoted(AsEdge(d), parents)
  }

  predicate AssignmentEdge(st: Store, args: Args, e: Edge) {
    && Assigned(st, args, e.target) && e.typ == "assigned_to" && e.source == "agent:" + st.beads[e.target].assignee
  }

  /** What pruning works on: the nodes of the beads at hand, the promoted rows, the assignments. */
  ghost predicate Prepared(st: Store, beads: BeadMap, args: Args, ok: Queries, s: Stages) {
    && (forall x :: x in s.beads <==> AtHand(st, beads, args, ok, x))
    && (forall e :: e in s.allEdges <==>
          RowEdge(st, beads, ok.reverse, s.parents, e) || (e.target in s.beads && AssignmentEdge(st, args, e)))
    && (forall n :: n in s.allNodes && n.id in st.beads ==> n.id in s.beads && HasColumns(n, st.beads[n.id]))
    && (forall x :: x in s.beads ==> NodeIn(s.allNodes, x))
  }

  lemma RowEdgeIs(st: Store, in_: Input, ok: Queries, s: Stages, e: Edge)
    requires Queried(st, in_, ok)
    ensures FromRecord(in_, ok, s, e) <==> RowEdge(st, in_.beads, ok.reverse, s.parents, e)
  {
    UsedAreReached(st, in_, ok);
    if FromRecord(in_, ok, s, e) {
      var d :| d in Used(in_.fwd, in_.rev, ok.reverse) && e == Promoted(AsEdge(d), s.parents);
      assert d in st.deps && Reached(in_.beads, ok.reverse, d);
    }
    if d :| d in st.deps && Reached(in_.beads, ok.reverse, d) && e == Promoted(AsEdge(d), s.parents) {
      assert d in Used(in_.fwd, in_.rev, ok.reverse);
    }
  }

  lemma AssignmentIs(st: Store, args: Args, s: Stages, e: Edge)
    requires RowsNamed(st) && Rows(s.beads, st)
    ensures args.includeAgents && FromAssignment(s, e) <==> e.target in s.beads && AssignmentEdge(st, args, e)
  {
    if args.includeAgents && FromAssignment(s, e) {
      var id :| id in s.beads && Working(s.beads[id]) && e == AssignmentOf(s.beads[id]);
      assert s.beads[id] == st.beads[id];
    }
    if e.target in s.beads && AssignmentEdge(st, args, e) {
      var b := s.beads[e.target];
      assert b == st.beads[e.target] && b.id == e.target;
      assert Working(b) && e == AssignmentOf(b);
    }
  }

  lemma AllEdgesAre(st: Store, in_: Input, args: Args, ok: Queries, s: Stages, e: Edge)
    requires Queried(st, in_, ok) && Staged(in_, args, ok, s)
    ensures e in s.allEdges <==>
              RowEdge(st, in_.beads, ok.reverse, s.parents, e) || (e.target in s.beads && AssignmentEdge(st, args, e))
  {
    QueriedIsGiven(st, in_, ok);
    BeadsAreRows(st, in_, args, ok, s);
    PromotedShown(in_, args, s);
    PromotedRecords(in_, ok, s, e);
    RowEdgeIs(st, in_, ok, s, e);
    AssignmentIs(st, args, s, e);
  }

  /** A node before pruning under a bead's identifier is that bead's. */
  lemma NodeOfBead(st: Store, in_: Input, args: Args, ok: Queries, s: Stages, n: Node)
    requires Queried(st, in_, ok) && Given(in_) && Staged(in_, args, ok, s) && n in s.allNodes && n.id in st.beads
    ensures n.id in s.beads && HasColumns(n, st.beads[n.id])
    ensures n.parentId == if n.id in s.parents then s.parents[n.id] else ""
  {
    BeadsAreRows(st, in_, args, ok, s);
    NodeKinds(in_, args, ok, s, n);
    assert IdLike(n.id);
  }

  lemma NodeOfHand(st: Store, in_: Input, args: Args, ok: Queries, s: Stages, x: string)
    requires Queried(st, in_, ok) && Staged(in_, args, ok, s) && x in s.beads
    ensures NodeIn(s.allNodes, x)
  {
    QueriedIsGiven(st, in_, ok);
    StaysProper(in_, args, ok, s);
    BeadShown(in_, args, s, x);
  }

  lemma StagedIsPrepared(st: Store, in_: Input, args: Args, ok: Queries, s: Stages)
    requires Queried(st, in_, ok) && Staged(in_, args, ok, s)
    ensures Prepared(st, in_.beads, args, ok, s)
  {
    QueriedIsGiven(st, in_, ok);
    forall x ensures x in s.beads <==> AtHand(st, in_.beads, args, ok, x) {
      AtHandIs(st, in_, args, ok, s, x);
    }
    forall e ensures e in s.allEdges <==> RowEdge(st, in_.beads, ok.reverse, s.parents, e)
                                          || (e.target in s.beads && AssignmentEdge(st, args, e)) {
      AllEdgesAre(st, in_, args, ok, s, e);
    }
    forall n | n in s.allNodes && n.id in st.beads ensures n.id in s.beads && HasColumns(n, st.beads[n.id]) {
      NodeOfBead(st, in_, args, ok, s, n);
    }
    forall x | x in s.beads ensures NodeIn(s.allNodes, x) {
      NodeOfHand(st, in_, args, ok, s, x);
    }
  }

  // ---------------------------------------------------------------- pruning

  lemma AgentIsNoBead(st: Store, a: string)
    requires IdsGenerated(st)
    ensures "agent:" + a !in st.beads
  {
    assert ("agent:" + a)[5] == ':';
  }

  lemma TouchIs(st: Store, beads: BeadMap, args: Args, ok: Queries, s: Stages, x: string)
    requires IdsGenerated(st) && Prepared(st, beads, args, ok, s) && x in s.beads
    ensures Touches(s.allEdges, x) <==> Wired(st, beads, ok.reverse, x) || Assigned(st, args, x)
  {
    if Touches(s.allEdges, x) {
      var e :| e in s.allEdges && (e.source == x || e.target == x);
      TouchedBy(st, beads, args, ok, s, x, e);
    }
    if d :| d in st.deps && Reached(beads, ok.reverse, d) && (d.beadId == x || d.dependsOn == x) {
      assert RowEdge(st, beads, ok.reverse, s.parents, Promoted(AsEdge(d), s.parents));
    }
    if Assigned(st, args, x) {
      assert AssignmentEdge(st, args, Edge("agent:" + st.beads[x].assignee, x, "assigned_to"));
    }
  }

  lemma TouchedBy(st: Store, beads: BeadMap, args: Args, ok: Queries, s: Stages, x: string, e: Edge)
    requires IdsGenerated(st) && Prepared(st, beads, args, ok, s) && x in s.beads
    requires e in s.allEdges && (e.source == x || e.target == x)
    ensures RowEdge(st, beads, ok.reverse, s.parents, e) || AssignmentEdge(st, args, e)
    ensures Wired(st, beads, ok.reverse, x) || Assigned(st, args, x)
  {
    if AssignmentEdge(st, args, e) {
      AgentIsNoBead(st, st.beads[e.target].assignee);
      assert e.target == x;
    } else {
      var d :| d in st.deps && Reached(beads, ok.reverse, d) && e == Promoted(AsEdge(d), s.parents);
      assert d.beadId == x || d.dependsOn == x;
    }
  }

  lemma LiveIs(st: Store, beads: BeadMap, args: Args, ok: Queries, s: Stages, y: string)
    requires Prepared(st, beads, args, ok, s) && y in st.beads
    ensures LiveNode(s.allNodes, y) <==> LiveBead(st, beads, args, ok, y)
  {}

  lemma NearIs(st: Store, beads: BeadMap, args: Args, ok: Queries, s: Stages, x: string)
    requires Linked(st) && IdsGenerated(st) && Prepared(st, beads, args, ok, s)
    requires x in s.beads && st.beads[x].status == "closed"
    ensures NearLive(s.allNodes, s.allEdges, x) <==> JoinedToLive(st, beads, args, ok, x)
  {
    if NearLive(s.allNodes, s.allEdges, x) {
      NearIsJoined(st, beads, args, ok, s, x);
    }
    if JoinedToLive(st, beads, args, ok, x) {
      var d := JoinOf(st, beads, args, ok, x);
      assert RowEdge(st, beads, ok.reverse, s.parents, Promoted(AsEdge(d), s.parents));
      LiveIs(st, beads, args, ok, s, d.beadId);
      LiveIs(st, beads, args, ok, s, d.dependsOn);
    }
  }

  lemma NearIsJoined(st: Store, beads: BeadMap, args: Args, ok: Queries, s: Stages, x: string)
    requires Linked(st) && IdsGenerated(st) && Prepared(st, beads, args, ok, s)
    requires x in s.beads && st.beads[x].status == "closed" && NearLive(s.allNodes, s.allEdges, x)
    ensures JoinedToLive(st, beads, args, ok, x)
  {
    var e :| e in s.allEdges &&
        ((e.source == x && LiveNode(s.allNodes, e.target)) || (e.target == x && LiveNode(s.allNodes, e.source)));
    TouchedBy(st, beads, args, ok, s, x, e);
    NoAssignment(st, args, e, x);
    var d :| d in st.deps && Reached(beads, ok.reverse, d) && e == Promoted(AsEdge(d), s.parents);
    LiveIs(st, beads, args, ok, s, d.beadId);
    LiveIs(st, beads, args, ok, s, d.dependsOn);
  }

  lemma JoinOf(st: Store, beads: BeadMap, args: Args, ok: Queries, x: string) returns (d: Dependency)
    requires JoinedToLive(st, beads, args, ok, x)
    ensures d in st.deps && Reached(beads, ok.reverse, d)
    ensures (d.beadId == x && LiveBead(st, beads, args, ok, d.dependsOn)) ||
            (d.dependsOn == x && LiveBead(st, beads, args, ok, d.beadId))
  {
    d :| d in st.deps && Reached(beads, ok.reverse, d) &&
    ((d.beadId == x && LiveBead(st, beads, args, ok, d.dependsOn)) ||
     (d.dependsOn == x && LiveBead(st, beads, args, ok, d.beadId)));
  }

  /** No assignment edge ends at a closed bead. */
  lemma NoAssignment(st: Store, args: Args, e: Edge, x: string)
    requires IdsGenerated(st) && x in st.beads && st.beads[x].status == "closed" && (e.source == x || e.target == x)
    ensures !AssignmentEdge(st, args, e)
  {
    if Assigned(st, args, e.target) {
      AgentIsNoBead(st, st.beads[e.target].assignee);
    }
  }

  lemma KeepIs(st: Store, beads: BeadMap, args: Args, ok: Queries, s: Stages, n: Node)
    requires Linked(st) && IdsGenerated(st) && Prepared(st, beads, args, ok, s)
    requires n in s.allNodes && n.id in s.beads && n.id in st.beads && HasColumns(n, st.beads[n.id])
    ensures Keep(n, s.allNodes, s.allEdges) <==> InResponse(st, beads, args, ok, n.id)
  {
    TouchIs(st, beads, args, ok, s, n.id);
    if n.status == "closed" {
      NearIs(st, beads, args, ok, s, n.id);
    }
  }

  lemma BeadIn(st: Store, beads: BeadMap, args: Args, ok: Queries, s: Stages, x: string)
    requires Linked(st) && IdsGenerated(st) && Prepared(st, beads, args, ok, s) && x in st.beads
    ensures NodeIn(ResponseNodes(s), x) <==> InResponse(st, beads, args, ok, x)
  {
    ResponseIsExact(s);
    if NodeIn(ResponseNodes(s), x) {
      var n :| n in ResponseNodes(s) && n.id == x;
      KeepIs(st, beads, args, ok, s, n);
    }
    if InResponse(st, beads, args, ok, x) {
      var n :| n in s.allNodes && n.id == x;
      KeepIs(st, beads, args, ok, s, n);
      assert n in ResponseNodes(s) && n.id == x;
    }
  }

  // ------------------------------------------------------------------- agents

  /** The roster's node of an actor is that of its last entry that is not reaped. */
  lemma {:induction false} RosterLast(roster: seq<RosterEntry>, a: string)
    ensures forall i :: 0 <= i < |roster| && LastSeen(roster, a, i) ==>
              && a in RosterAgents(roster)
              && RosterAgents(roster)[a].status == if roster[i].idleSecs < 30 then "active" else "idle"
    ensures (forall e :: e in roster ==> e.actor != a || e.reaped) ==> a !in RosterAgents(roster)
  {
    if roster != [] {
      var m := |roster| - 1;
      RosterLast(roster[..m], a);
      SeenBefore(roster, a);
      assert roster[m] in roster;
    }
  }

  lemma SeenBefore(roster: seq<RosterEntry>, a: string)
    requires roster != []
    ensures var m := |roster| - 1;
            forall i :: 0 <= i < |roster| && LastSeen(roster, a, i) ==>
              if roster[m].actor == a && !roster[m].reaped then i == m else i < m && LastSeen(roster[..m], a, i)
  {}

  /** An agent's node before pruning. */
  lemma AgentHas(roster: seq<RosterEntry>, agents: Agents, beads: BeadMap, a: string)
    requires WithAssignees(agents, RosterAgents(roster), beads, beads.Keys) && a in agents
    ensures IsAgent(agents[a], roster) && agents[a].id == "agent:" + a && agents[a].status != "closed"
  {
    AgentIs(roster, agents, beads, a);
    RosterNodes(roster);
    RosterLast(roster, a);
  }

  lemma AgentIn(st: Store, in_: Input, args: Args, ok: Queries, s: Stages, a: string)
    requires Queried(st, in_, ok) && Staged(in_, args, ok, s)
    ensures NodeIn(ResponseNodes(s), "agent:" + a) <==>
              exists x :: AtHand(st, in_.beads, args, ok, x) && Assigned(st, args, x) && st.beads[x].assignee == a
  {
    ResponseIsExact(s);
    if NodeIn(ResponseNodes(s), "agent:" + a) {
      var n :| n in ResponseNodes(s) && n.id == "agent:" + a;
      var x := AgentWorks(st, in_, args, ok, s, n, a);
    }
    if x :| AtHand(st, in_.beads, args, ok, x) && Assigned(st, args, x) && st.beads[x].assignee == a {
      WorkerShown(st, in_, args, ok, s, x);
    }
  }

  lemma AgentWorks(st: Store, in_: Input, args: Args, ok: Queries, s: Stages, n: Node, a: string) returns (x: string)
    requires Queried(st, in_, ok) && Staged(in_, args, ok, s) && n in s.allNodes && n.id == "agent:" + a
    ensures AtHand(st, in_.beads, args, ok, x) && Assigned(st, args, x) && st.beads[x].assignee == a
  {
    QueriedIsGiven(st, in_, ok);
    assert n.id[5] == ':';
    NodeKinds(in_, args, ok, s, n);
    x := AssignmentFound(in_, args, ok, s, n.id);
    AtHandIs(st, in_, args, ok, s, x);
    BeadsAreRows(st, in_, args, ok, s);
    SameAgent(a, s.beads[x].assignee);
  }

  lemma SameAgent(a: string, b: string)
    requires "agent:" + a == AgentId(b)
    ensures a == b
  {
    assert a == ("agent:" + a)[6..] && b == AgentId(b)[6..];
  }

  lemma WorkerShown(st: Store, in_: Input, args: Args, ok: Queries, s: Stages, x: string)
    requires Queried(st, in_, ok) && Staged(in_, args, ok, s)
    requires AtHand(st, in_.beads, args, ok, x) && Assigned(st, args, x)
    ensures NodeIn(ResponseNodes(s), "agent:" + st.beads[x].assignee)
  {
    AtHandIs(st, in_, args, ok, s, x);
    BeadsAreRows(st, in_, args, ok, s);
    assert Working(s.beads[x]);
    AgentKept(in_, args, s, x);
    ResponseIsExact(s);
  }

  lemma AgentKept(in_: Input, args: Args, s: Stages, x: string)
    requires AgentsAdded(in_, args, s) && args.includeAgents && x in s.beads && Working(s.beads[x])
    ensures exists n :: n in s.allNodes && n.id == "agent:" + s.beads[x].assignee && Keep(n, s.allNodes, s.allEdges)
  {
    var a, e := s.beads[x].assignee, AssignmentOf(s.beads[x]);
    AgentHas(in_.roster, s.agents, s.beads, a);
    assert e in s.allEdges && HasAgentEdge(s.allEdges, s.agents[a].id);
    assert Touches(s.allEdges, s.agents[a].id);
    assert s.agents[a] in s.allNodes;
  }

  lemma NodesAreExact(st: Store, in_: Input, args: Args, ok: Queries, s: Stages)
    requires Queried(st, in_, ok) && Staged(in_, args, ok, s)
    ensures NodesExact(st, in_.beads, args, ok, ResponseNodes(s))
    ensures ColumnsExact(st, in_.roster, ResponseNodes(s))
  {
    StagedIsPrepared(st, in_, args, ok, s);
    forall n | n in ResponseNodes(s)
      ensures n.id in st.beads || "agent:" <= n.id
      ensures if n.id in st.beads then HasColumns(n, st.beads[n.id]) else IsAgent(n, in_.roster)
    {
      ColumnsAre(st, in_, args, ok, s, n);
    }
    forall x | x in st.beads ensures NodeIn(ResponseNodes(s), x) <==> InResponse(st, in_.beads, args, ok, x) {
      BeadIn(st, in_.beads, args, ok, s, x);
    }
    forall a: string
      ensures NodeIn(ResponseNodes(s), "agent:" + a) <==>
                exists x :: AtHand(st, in_.beads, args, ok, x) && Assigned(st, args, x) && st.beads[x].assignee == a
    {
      AgentIn(st, in_, args, ok, s, a);
    }
  }

  lemma ColumnsAre(st: Store, in_: Input, args: Args, ok: Queries, s: Stages, n: Node)
    requires Queried(st, in_, ok) && Staged(in_, args, ok, s) && n in ResponseNodes(s)
    ensures if n.id in st.beads then HasColumns(n, st.beads[n.id]) else IsAgent(n, in_.roster)
  {
    QueriedIsGiven(st, in_, ok);
    ResponseIsExact(s);
    if n.id in st.beads {
      NodeOfBead(st, in_, args, ok, s, n);
    } else {
      NotBead(st, in_, args, ok, s, n);
      var a :| a in s.agents && n == s.agents[a];
      AgentHas(in_.roster, s.agents, s.beads, a);
    }
  }

  lemma NotBead(st: Store, in_: Input, args: Args, ok: Queries, s: Stages, n: Node)
    requires Queried(st, in_, ok) && Given(in_) && Staged(in_, args, ok, s) && n in s.allNodes && n.id !in st.beads
    ensures args.includeAgents && exists a :: a in s.agents && n == s.agents[a]
  {
    BeadsAreRows(st, in_, args, ok, s);
    StaysProper(in_, args, ok, s);
    assert n !in s.beadNodes;
  }

  // -------------------------------------------------------------------- edges

  /** The parent a node names is the one its edges were promoted by. */
  lemma EdgeOfIs(st: Store, parents: Parents, nodes: seq<Node>, e: Edge, d: Dependency)
    requires d.dependsOn != "" && d.beadId in st.beads && NodeIn(nodes, d.beadId)
    requires forall n :: n in nodes && n.id in st.beads ==> n.parentId == ParentId(parents, n.id)
    ensures IsEdgeOf(nodes, e, d) <==> e == Promoted(AsEdge(d), parents)
  {
    var n :| n in nodes && n.id == d.beadId;
    assert (exists m :: m in nodes && m.id == d.beadId && m.parentId == d.dependsOn) <==>
        d.beadId in parents && parents[d.beadId] == d.dependsOn;
  }

  lemma ParentsRead(st: Store, in_: Input, args: Args, ok: Queries, s: Stages)
    requires Queried(st, in_, ok) && Staged(in_, args, ok, s)
    ensures forall n :: n in ResponseNodes(s) && n.id in st.beads ==> n.parentId == ParentId(s.parents, n.id)
  {
    QueriedIsGiven(st, in_, ok);
    ResponseIsExact(s);
    forall n | n in ResponseNodes(s) && n.id in st.beads ensures n.parentId == ParentId(s.parents, n.id) {
      NodeOfBead(st, in_, args, ok, s, n);
    }
  }

  lemma RowEdgeShown(st: Store, beads: BeadMap, revOk: bool, parents: Parents, nodes: seq<Node>, e: Edge)
    requires Linked(st) && IdsGenerated(st) && NodeIn(nodes, e.source)
    requires forall n :: n in nodes && n.id in st.beads ==> n.parentId == ParentId(parents, n.id)
    ensures RowEdge(st, beads, revOk, parents, e) <==>
              exists d :: d in st.deps && Reached(beads, revOk, d) && IsEdgeOf(nodes, e, d)
  {
    if d :| d in st.deps && Reached(beads, revOk, d) && e == Promoted(AsEdge(d), parents) {
      EdgeOfIs(st, parents, nodes, e, d);
    }
    if d :| d in st.deps && Reached(beads, revOk, d) && IsEdgeOf(nodes, e, d) {
      EdgeOfIs(st, parents, nodes, e, d);
    }
  }

  lemma EdgesAreExact(st: Store, in_: Input, args: Args, ok: Queries, s: Stages)
    requires Queried(st, in_, ok) && Staged(in_, args, ok, s)
    ensures EdgesExact(st, in_.beads, args, ok, ResponseNodes(s), ResponseEdges(s))
  {
    StagedIsPrepared(st, in_, args, ok, s);
    ParentsRead(st, in_, args, ok, s);
    forall e ensures e in ResponseEdges(s) <==>
        && NodeIn(ResponseNodes(s), e.source) && NodeIn(ResponseNodes(s), e.target)
        && (|| (exists d :: d in st.deps && Reached(in_.beads, ok.reverse, d) && IsEdgeOf(ResponseNodes(s), e, d))
            || AssignmentEdge(st, args, e)) {
      EdgeIs(st, in_.beads, args, ok, s, e);
    }
  }

  lemma EdgeIs(st: Store, beads: BeadMap, args: Args, ok: Queries, s: Stages, e: Edge)
    requires Linked(st) && IdsGenerated(st) && Prepared(st, beads, args, ok, s)
    requires forall n :: n in ResponseNodes(s) && n.id in st.beads ==> n.parentId == ParentId(s.parents, n.id)
    ensures e in ResponseEdges(s) <==>
              && NodeIn(ResponseNodes(s), e.source) && NodeIn(ResponseNodes(s), e.target)
              && (|| (exists d :: d in st.deps && Reached(beads, ok.reverse, d) && IsEdgeOf(ResponseNodes(s), e, d))
                  || AssignmentEdge(st, args, e))
  {
    ResponseIsExact(s);
    if NodeIn(ResponseNodes(s), e.source) && NodeIn(ResponseNodes(s), e.target) {
      RowEdgeShown(st, beads, ok.reverse, s.parents, ResponseNodes(s), e);
      if AssignmentEdge(st, args, e) {
        BeadIn(st, beads, args, ok, s, e.target);
      }
    }
  }

  // ------------------------------------------------------------------ parents

  lemma ParentsAreExact(st: Store, in_: Input, args: Args, ok: Queries, s: Stages, read: set<Dependency>)
    requires Queried(st, in_, ok) && Staged(in_, args, ok, s)
    requires forall d :: Among(in_.rev, d) <==> d in read && d.dependsOn in in_.beads
    ensures ParentsExact(st, in_.beads, args, ok, read, ResponseNodes(s))
  {
    ParentsRead(st, in_, args, ok, s);
    forall x ensures ParentChosen(st, in_.beads, args, ok, read, x, ParentId(s.parents, x)) {
      ParentsFoundAt(in_, s, x);
      ParentIs(st, in_, args, ok, s, read, x);
    }
  }

  lemma ParentIs(st: Store, in_: Input, args: Args, ok: Queries, s: Stages, read: set<Dependency>, x: string)
    requires Queried(st, in_, ok) && EdgesBuilt(in_, args, ok, s) && BeadsFetched(in_, args, ok, s)
    requires ParentOf(s.parents, in_.fwd, in_.rev, s.beads, x)
    requires forall d :: Among(in_.rev, d) <==> d in read && d.dependsOn in in_.beads
    ensures ParentChosen(st, in_.beads, args, ok, read, x, ParentId(s.parents, x))
  {
    ReverseIs(in_, read, x);
    ForwardIs(st, in_, ok, x);
    EpicIs(st, in_, args, ok, s, x);
    ChosenFrom(st, in_, args, ok, s.parents, s.beads, read, x);
  }

  lemma ParentsFoundAt(in_: Input, s: Stages, x: string)
    requires ParentsFound(in_, s)
    ensures ParentOf(s.parents, in_.fwd, in_.rev, s.beads, x)
  {}

  lemma ChosenFrom(st: Store, in_: Input, args: Args, ok: Queries, parents: Parents, beads: BeadMap,
      read: set<Dependency>, x: string)
    requires ParentOf(parents, in_.fwd, in_.rev, beads, x)
    requires HasParentIn(in_.rev, in_.rev.Keys, x) <==> exists p :: ReverseParent(in_.beads, read, x, p)
    requires forall p :: GivesParent(in_.rev, x, p) <==> ReverseParent(in_.beads, read, x, p)
    requires x in in_.fwd && LastParent(in_.fwd[x]).Some? <==> exists p :: ForwardParent(st, in_.beads, x, p)
    requires x in in_.fwd && LastParent(in_.fwd[x]).Some? ==>
               ForwardParent(st, in_.beads, x, LastParent(in_.fwd[x]).value)
    requires x in in_.fwd && FirstEpic(in_.fwd[x], beads).Some? <==>
               exists p :: EpicParent(st, in_.beads, args, ok, x, p)
    requires x in in_.fwd && FirstEpic(in_.fwd[x], beads).Some? ==>
               EpicParent(st, in_.beads, args, ok, x, FirstEpic(in_.fwd[x], beads).value)
    ensures ParentChosen(st, in_.beads, args, ok, read, x, ParentId(parents, x))
  {}

  lemma ReverseIs(in_: Input, read: set<Dependency>, x: string)
    requires forall d :: Among(in_.rev, d) <==> d in read && d.dependsOn in in_.beads
    ensures HasParentIn(in_.rev, in_.rev.Keys, x) <==> exists p :: ReverseParent(in_.beads, read, x, p)
    ensures forall p :: GivesParent(in_.rev, x, p) <==> ReverseParent(in_.beads, read, x, p)
  {
    if HasParentIn(in_.rev, in_.rev.Keys, x) {
      var k, d :| k in in_.rev.Keys && d in in_.rev[k] && d.beadId == x && d.typ == PARENT_CHILD;
      assert Among(in_.rev, d) && d == Dependency(x, d.dependsOn, "parent-child");
      assert ReverseParent(in_.beads, read, x, d.dependsOn);
    }
    if p :| ReverseParent(in_.beads, read, x, p) {
      assert Among(in_.rev, Dependency(x, p, "parent-child"));
    }
  }

  /** A selected bead's records are its rows. */
  lemma OwnRecords(st: Store, in_: Input, ok: Queries, x: string)
    requires Queried(st, in_, ok)
    ensures forall d :: x in in_.fwd && d in in_.fwd[x] <==> d in st.deps && d.beadId == x && x in in_.beads
  {
    forall d ensures x in in_.fwd && d in in_.fwd[x] <==> d in st.deps && d.beadId == x && x in in_.beads {
      if x in in_.fwd && d in in_.fwd[x] {
        assert Among(in_.fwd, d);
      }
      if d in st.deps && d.beadId == x && x in in_.beads {
        assert Among(in_.fwd, d);
      }
    }
  }

  lemma ForwardIs(st: Store, in_: Input, ok: Queries, x: string)
    requires Queried(st, in_, ok)
    ensures x in in_.fwd && LastParent(in_.fwd[x]).Some? <==> exists p :: ForwardParent(st, in_.beads, x, p)
    ensures x in in_.fwd && LastParent(in_.fwd[x]).Some? ==>
              ForwardParent(st, in_.beads, x, LastParent(in_.fwd[x]).value)
  {
    OwnRecords(st, in_, ok, x);
    if x in in_.fwd {
      LastParentIsRecord(in_.fwd[x]);
      forall d | d in in_.fwd[x] && d.typ == PARENT_CHILD ensures ForwardParent(st, in_.beads, x, d.dependsOn) {
        assert d == Dependency(x, d.dependsOn, "parent-child");
      }
    }
    if p :| ForwardParent(st, in_.beads, x, p) {
      assert Dependency(x, p, "parent-child") in in_.fwd[x];
    }
  }

  lemma EpicIs(st: Store, in_: Input, args: Args, ok: Queries, s: Stages, x: string)
    requires Queried(st, in_, ok) && EdgesBuilt(in_, args, ok, s) && BeadsFetched(in_, args, ok, s)
    ensures x in in_.fwd && FirstEpic(in_.fwd[x], s.beads).Some? <==>
              exists p :: EpicParent(st, in_.beads, args, ok, x, p)
    ensures x in in_.fwd && FirstEpic(in_.fwd[x], s.beads).Some? ==>
              EpicParent(st, in_.beads, args, ok, x, FirstEpic(in_.fwd[x], s.beads).value)
  {
    OwnRecords(st, in_, ok, x);
    EpicBlocks(st, in_, args, ok, s, x);
    if x in in_.fwd {
      FirstEpicIsRecord(in_.fwd[x], s.beads);
    }
    if p :| EpicParent(st, in_.beads, args, ok, x, p) {
      assert Dependency(x, p, "blocks") in in_.fwd[x];
    }
  }

  lemma EpicBlocks(st: Store, in_: Input, args: Args, ok: Queries, s: Stages, x: string)
    requires Queried(st, in_, ok) && EdgesBuilt(in_, args, ok, s) && BeadsFetched(in_, args, ok, s)
    ensures forall d :: d in st.deps && d.beadId == x && x in in_.beads ==>
              (EpicBlock(d, s.beads) <==>
               d.typ == "blocks" && EpicParent(st, in_.beads, args, ok, x, d.dependsOn))
  {
    BeadsAreRows(st, in_, args, ok, s);
    forall d | d in st.deps && d.beadId == x && x in in_.beads
      ensures EpicBlock(d, s.beads) <==> d.typ == "blocks" && EpicParent(st, in_.beads, args, ok, x, d.dependsOn)
    {
      AtHandIs(st, in_, args, ok, s, d.dependsOn);
      assert d.typ == "blocks" ==> d == Dependency(x, d.dependsOn, "blocks");
    }
  }
}
