/**
 The graph response as a whole (internal/server/http_graph.go): the limit, the
 beads fetched because an edge leads to them, nodes, agents, and the laws of the
 response that reach across its loops.
 */
module Graph {
  import opened Wrappers
  import opened Beads
  import opened GraphEdges
  import opened GraphParents
  import opened GraphPrune

  type BeadMap = map<string, Bead>

  /** Beads under their own identifiers, which are as the generator makes them. */
  predicate Proper(beads: BeadMap) {
    forall id :: id in beads ==> beads[id].id == id && IdLike(id)
  }

  // -------------------------------------------------------------------- limit

  const WEEK := 7 * 24 * 3600

  /** beadRelevance. */
  function Relevance(b: Bead, now: Time): int {
    if b.status == IN_PROGRESS then 0
    else if b.status == BLOCKED then 1
    else if b.status == OPEN then 2
    else if b.status == DEFERRED then 3
    else if b.status == CLOSED then if b.updatedAt != ZERO_TIME && now - b.updatedAt < WEEK then 4 else 5
    else 6
  }

  predicate Before(a: Bead, b: Bead, now: Time) {
    || Relevance(a, now) < Relevance(b, now)
    || (Relevance(a, now) == Relevance(b, now) && a.priority < b.priority)
  }

  /** The beads of a map as a list, each once. */
  ghost predicate Listed(sorted: seq<Bead>, beads: BeadMap) {
    && |sorted| == |beads|
    && (forall i :: 0 <= i < |sorted| ==> sorted[i].id in beads && beads[sorted[i].id] == sorted[i])
    && (forall i, j :: 0 <= i < j < |sorted| ==> sorted[i].id != sorted[j].id)
    && (forall id :: id in beads ==> exists i :: 0 <= i < |sorted| && sorted[i].id == id)
  }

  /** What sorting the beads gives: a list of them in which none comes after one it should precede. */
  ghost predicate SortedBeads(sorted: seq<Bead>, beads: BeadMap, now: Time) {
    && Listed(sorted, beads)
    && (forall i, j :: 0 <= i < j < |sorted| ==> !Before(sorted[j], sorted[i], now))
  }

  function IdsUpTo(sorted: seq<Bead>, n: nat): set<string>
    requires n <= |sorted|
  {
    if n == 0 then {} else IdsUpTo(sorted, n - 1) + {sorted[n - 1].id}
  }

  lemma {:induction false} IdsUpToAre(sorted: seq<Bead>, n: nat)
    requires n <= |sorted|
    ensures forall x :: x in IdsUpTo(sorted, n) <==> exists k :: 0 <= k < n && sorted[k].id == x
  {
    if n > 0 {
      IdsUpToAre(sorted, n - 1);
    }
  }

  /** The map of the first n of the sorted beads. */
  ghost predicate FirstOf(kept: BeadMap, sorted: seq<Bead>, n: nat, beads: BeadMap)
    requires n <= |sorted|
  {
    && kept.Keys == IdsUpTo(sorted, n)
    && (forall id :: id in kept ==> id in beads && kept[id] == beads[id])
  }

  /** Work first, what waits next, then what is put off, then what was closed in the last seven days. */
  predicate MayStay(kept: Bead, dropped: Bead, now: Time) {
    var order := ["in_progress", "blocked", "open", "deferred"];
    && (forall i :: 0 <= i < 4 && dropped.status == order[i] ==> kept.status in order[..i + 1])
    && (dropped.status == "closed" ==> kept.status in order || kept.status == "closed")
    && (dropped.status == "closed" && JustClosed(dropped, now) ==> kept.status in order || JustClosed(kept, now))
    && (kept.status == dropped.status && JustClosed(kept, now) == JustClosed(dropped, now) ==>
          kept.priority <= dropped.priority)
  }

  predicate JustClosed(b: Bead, now: Time) {
    b.status == "closed" && b.updatedAt != ZERO_TIME && now - b.updatedAt < 604800
  }

  lemma NotBeforeMeans(kept: Bead, dropped: Bead, now: Time)
    requires !Before(dropped, kept, now)
    ensures MayStay(kept, dropped, now)
  {
    RanksAre(kept, now);
    RanksAre(dropped, now);
    var order := ["in_progress", "blocked", "open", "deferred"];
    forall i | 0 <= i < 4 && dropped.status == order[i] ensures kept.status in order[..i + 1] {
      assert Relevance(dropped, now) == i && Relevance(kept, now) <= i;
      assert order[Relevance(kept, now)] == order[..i + 1][Relevance(kept, now)];
    }
  }

  lemma RanksAre(b: Bead, now: Time)
    ensures var order := ["in_progress", "blocked", "open", "deferred"];
            && 0 <= Relevance(b, now) <= 6
            && (forall i :: 0 <= i < 4 ==> (b.status == order[i] <==> Relevance(b, now) == i))
            && (Relevance(b, now) == 4 <==> JustClosed(b, now))
            && (4 <= Relevance(b, now) <= 5 <==> b.status == "closed")
  {}

  /** The cut to the limit: as many beads as allowed, and none left out that comes before one that stays. */
  method CutToLimit(beads: BeadMap, limit: int, sorted: seq<Bead>, ghost now: Time) returns (kept: BeadMap)
    requires SortedBeads(sorted, beads, now)
    ensures |beads| <= limit ==> kept == beads
    ensures |beads| > limit ==> |kept| == if limit < 0 then 0 else limit
    ensures forall id :: id in kept ==> id in beads && kept[id] == beads[id]
    ensures forall k, d :: k in kept && d in beads && d !in kept ==>
              !Before(beads[d], beads[k], now) && MayStay(beads[k], beads[d], now)
  {
    if |beads| <= limit {
      return beads;
    }
    ghost var n;
    kept, n := FirstBeads(sorted, limit, beads);
    FirstAreBest(kept, sorted, n, beads, now);
    forall k, d | k in kept && d in beads && d !in kept ensures MayStay(beads[k], beads[d], now) {
      NotBeforeMeans(beads[k], beads[d], now);
    }
    CountFirst(sorted, n);
    CountKeys(kept);
  }

  method FirstBeads(sorted: seq<Bead>, limit: int, ghost beads: BeadMap) returns (kept: BeadMap, ghost n: nat)
    requires Listed(sorted, beads)
    ensures n == if limit < 0 then 0 else if limit < |sorted| then limit else |sorted|
    ensures FirstOf(kept, sorted, n, beads)
  {
    kept := map[];
    var i := 0;
    while i < limit && i < |sorted|
      invariant 0 <= i <= |sorted| && (i <= limit || i == 0) && FirstOf(kept, sorted, i, beads)
      decreases |sorted| - i
    {
      FirstIsNew(kept, sorted, i, beads);
      kept := kept[sorted[i].id := sorted[i]];
      i := i + 1;
    }
    n := i;
  }

  lemma CountKeys(m: BeadMap)
    ensures |m| == |m.Keys|
  {}

  lemma {:induction false} CountFirst(sorted: seq<Bead>, n: nat)
    requires n <= |sorted| && forall i, j :: 0 <= i < j < |sorted| ==> sorted[i].id != sorted[j].id
    ensures |IdsUpTo(sorted, n)| == n
  {
    if n > 0 {
      CountFirst(sorted, n - 1);
      IdsUpToAre(sorted, n - 1);
      assert sorted[n - 1].id !in IdsUpTo(sorted, n - 1);
    }
  }

  lemma FirstIsNew(kept: BeadMap, sorted: seq<Bead>, n: nat, beads: BeadMap)
    requires n < |sorted| && Listed(sorted, beads) && FirstOf(kept, sorted, n, beads)
    ensures FirstOf(kept[sorted[n].id := sorted[n]], sorted, n + 1, beads)
  {
    var more := kept[sorted[n].id := sorted[n]];
    assert more.Keys == kept.Keys + {sorted[n].id};
  }

  lemma FirstAreBest(kept: BeadMap, sorted: seq<Bead>, n: nat, beads: BeadMap, now: Time)
    requires n <= |sorted| && SortedBeads(sorted, beads, now) && FirstOf(kept, sorted, n, beads)
    ensures forall k, d :: k in kept && d in beads && d !in kept ==> !Before(beads[d], beads[k], now)
  {
    IdsUpToAre(sorted, n);
    forall k, d | k in kept && d in beads && d !in kept ensures !Before(beads[d], beads[k], now) {
      var a :| 0 <= a < n && sorted[a].id == k;
      var b :| 0 <= b < |sorted| && sorted[b].id == d;
      assert b >= n;
    }
  }

  // ------------------------------------------------------------ fetched beads

  /** What a fetched bead must be to be taken in: not of an excluded type, and perhaps closed and recent. */
  datatype Wanted = Wanted(exclude: set<string>, closedOnly: bool, cutoff: Option<Time>)

  predicate Passes(w: Wanted, b: Bead) {
    && b.typ !in w.exclude
    && (w.closedOnly ==> b.status == CLOSED && (w.cutoff.Some? ==> b.updatedAt >= w.cutoff.value))
  }

  /** `beads` with the rows of the table for `ids` that pass. */
  ghost predicate Fetched(more: BeadMap, beads: BeadMap, ids: set<string>, table: BeadMap, w: Wanted) {
    forall id ::
      if id in ids && id in table && Passes(w, table[id]) then id in more && more[id] == table[id]
      else (id in more <==> id in beads) && (id in more ==> more[id] == beads[id])
  }

  /** GetBeadsByIDs and the loop over its result; when the query fails nothing is added. */
  method Fetch(beads: BeadMap, ids: set<string>, table: BeadMap, ok: bool, w: Wanted) returns (more: BeadMap)
    ensures Fetched(more, beads, if ok then ids else {}, table, w)
  {
    NoneFetched(beads, table, w);
    if ids == {} || !ok {
      return beads;
    }
    more := FetchAll(beads, ids * table.Keys, table, w);
    FetchedAll(more, beads, ids, table, w);
  }

  method FetchAll(beads: BeadMap, ids: set<string>, table: BeadMap, w: Wanted) returns (more: BeadMap)
    requires ids <= table.Keys
    ensures Fetched(more, beads, ids, table, w)
  {
    more := beads;
    NoneFetched(beads, table, w);
    var todo := ids;
    ghost var done := {};
    while todo != {}
      invariant done + todo == ids && Fetched(more, beads, done, table, w)
      decreases |todo|
    {
      var id := NextKey(todo);
      FetchOne(more, beads, done, table, w, id);
      todo := todo - {id};
      done := done + {id};
      var passes := Passes(w, table[id]);
      if passes {
        more := more[id := table[id]];
      }
    }
  }

  lemma NoneFetched(beads: BeadMap, table: BeadMap, w: Wanted)
    ensures Fetched(beads, beads, {}, table, w)
  {}

  lemma FetchedAll(more: BeadMap, beads: BeadMap, ids: set<string>, table: BeadMap, w: Wanted)
    requires Fetched(more, beads, ids * table.Keys, table, w)
    ensures Fetched(more, beads, ids, table, w)
  {}

  lemma FetchOne(more: BeadMap, beads: BeadMap, done: set<string>, table: BeadMap, w: Wanted, id: string)
    requires Fetched(more, beads, done, table, w) && id in table
    ensures Fetched(if Passes(w, table[id]) then more[id := table[id]] else more, beads, done + {id}, table, w)
  {}

  /** The ends of edges that are not at hand, and the targets of forward records that are not. */
  function Candidates(edges: seq<Edge>, fwd: Records, known: set<string>): set<string> {
    Outside(edges, known) + (set d | d in AllTaken(fwd) && d.dependsOn !in known :: d.dependsOn)
  }

  // -------------------------------------------------------------------- nodes

  function ParentId(parents: Parents, id: string): string {
    if id in parents then parents[id] else ""
  }

  function NodeOf(b: Bead, parents: Parents): Node {
    Node(b.id, b.title, b.status, b.priority, b.typ, ParentId(parents, b.id), b.assignee)
  }

  ghost predicate NodesOf(nodes: seq<Node>, beads: BeadMap, ids: set<string>, parents: Parents)
    requires ids <= beads.Keys
  {
    && (forall n :: n in nodes ==> exists id :: id in ids && n == NodeOf(beads[id], parents))
    && (forall id :: id in ids ==> NodeOf(beads[id], parents) in nodes)
  }

  /** The node has the columns of the bead. */
  predicate HasColumns(n: Node, b: Bead) {
    && n.id == b.id && n.title == b.title && n.status == b.status && n.priority == b.priority
    && n.issueType == b.typ && n.assignee == b.assignee
  }

  method BuildNodes(beads: BeadMap, parents: Parents) returns (nodes: seq<Node>)
    ensures NodesOf(nodes, beads, beads.Keys, parents) && |nodes| == |beads|
    ensures forall n :: n in nodes ==> exists id :: id in beads && HasColumns(n, beads[id])
    ensures forall n :: n in nodes ==> n.parentId == if n.id in parents then parents[n.id] else ""
  {
    nodes := [];
    var todo := beads.Keys;
    while todo != {}
      invariant todo <= beads.Keys
      invariant NodesOf(nodes, beads, beads.Keys - todo, parents) && |nodes| + |todo| == |beads|
      decreases |todo|
    {
      var id := NextKey(todo);
      OneMoreNode(nodes, beads, beads.Keys - todo, parents, id);
      assert beads.Keys - (todo - {id}) == beads.Keys - todo + {id};
      nodes := nodes + [NodeOf(beads[id], parents)];
      todo := todo - {id};
    }
    assert beads.Keys - todo == beads.Keys;
    NodesHaveColumns(nodes, beads, parents);
  }

  lemma NodesHaveColumns(nodes: seq<Node>, beads: BeadMap, parents: Parents)
    requires NodesOf(nodes, beads, beads.Keys, parents)
    ensures forall n :: n in nodes ==> exists id :: id in beads && HasColumns(n, beads[id])
    ensures forall n :: n in nodes ==> n.parentId == if n.id in parents then parents[n.id] else ""
  {
    forall n | n in nodes ensures exists id :: id in beads && HasColumns(n, beads[id]) {
      var id :| id in beads.Keys && n == NodeOf(beads[id], parents);
    }
  }

  lemma OneMoreNode(nodes: seq<Node>, beads: BeadMap, ids: set<string>, parents: Parents, id: string)
    requires ids <= beads.Keys && id in beads && NodesOf(nodes, beads, ids, parents)
    ensures NodesOf(nodes + [NodeOf(beads[id], parents)], beads, ids + {id}, parents)
  {
    var n0 := NodeOf(beads[id], parents);
    forall n | n in nodes + [n0] ensures exists k :: k in ids + {id} && n == NodeOf(beads[k], parents) {
      if n in nodes {
        var k :| k in ids && n == NodeOf(beads[k], parents);
        assert k in ids + {id};
      } else {
        assert id in ids + {id} && n == n0;
      }
    }
    assert n0 in nodes + [n0];
  }

  // ------------------------------------------------------------------- agents

  datatype RosterEntry = RosterEntry(actor: string, idleSecs: int, reaped: bool)

  const ASSIGNED_TO := "assigned_to"
  const REQUESTED_BY := "requested_by"

  function AgentId(actor: string): string {
    "agent:" + actor
  }

  function AgentNode(actor: string, status: string): Node {
    Node(AgentId(actor), actor, status, 0, AGENT, "", "")
  }

  type Agents = map<string, Node>

  /** The bead is being worked on by someone. */
  predicate Working(b: Bead) {
    b.assignee != "" && b.status == IN_PROGRESS
  }

  /** The agents of the live roster; a later entry replaces an earlier one of the same actor. */
  function RosterAgents(roster: seq<RosterEntry>): Agents {
    if roster == [] then map[]
    else
      var front, e := RosterAgents(roster[..|roster| - 1]), roster[|roster| - 1];
      if e.reaped then front else front[e.actor := AgentNode(e.actor, if e.idleSecs < 30 then ACTIVE else IDLE)]
  }

  method AgentsOnRoster(roster: seq<RosterEntry>) returns (agents: Agents)
    ensures agents == RosterAgents(roster)
  {
    agents := map[];
    for i := 0 to |roster|
      invariant agents == RosterAgents(roster[..i])
    {
      assert roster[..i + 1][..i] == roster[..i];
      if roster[i].reaped {
        continue;
      }
      var status := IDLE;
      if roster[i].idleSecs < 30 {
        status := ACTIVE;
      }
      agents := agents[roster[i].actor := AgentNode(roster[i].actor, status)];
    }
    assert roster[..|roster|] == roster;
  }

  /** Roster agents, and a node without status for every other assignee at work. */
  ghost predicate WithAssignees(agents: Agents, roster: Agents, beads: BeadMap, ids: set<string>)
    requires ids <= beads.Keys
  {
    forall a ::
      if a in roster then a in agents && agents[a] == roster[a]
      else if exists id :: id in ids && Working(beads[id]) && beads[id].assignee == a then
        a in agents && agents[a] == AgentNode(a, "")
      else a !in agents
  }

  method AddAssignees(roster: Agents, beads: BeadMap) returns (agents: Agents)
    ensures WithAssignees(agents, roster, beads, beads.Keys)
  {
    agents := roster;
    var todo := beads.Keys;
    while todo != {}
      invariant todo <= beads.Keys
      invariant WithAssignees(agents, roster, beads, beads.Keys - todo)
      decreases |todo|
    {
      var id := NextKey(todo);
      var b := beads[id];
      todo := todo - {id};
      if !Working(b) {
        continue;
      }
      if b.assignee !in agents {
        agents := agents[b.assignee := AgentNode(b.assignee, "")];
      }
    }
  }

  function AssignmentOf(b: Bead): Edge {
    Edge(AgentId(b.assignee), b.id, ASSIGNED_TO)
  }

  /** `edges` with an assignment edge for each of the beads at work. */
  ghost predicate WithAssignments(more: seq<Edge>, edges: seq<Edge>, beads: BeadMap, ids: set<string>)
    requires ids <= beads.Keys
  {
    && edges <= more
    && (forall id :: id in ids && Working(beads[id]) ==> AssignmentOf(beads[id]) in more)
    && (forall e :: e in more ==>
        e in edges || exists id :: id in ids && Working(beads[id]) && e == AssignmentOf(beads[id]))
  }

  method AddAssignments(edges: seq<Edge>, beads: BeadMap, agents: Agents) returns (more: seq<Edge>)
    requires forall id :: id in beads && Working(beads[id]) ==> beads[id].assignee in agents
    ensures WithAssignments(more, edges, beads, beads.Keys)
  {
    more := edges;
    var todo := beads.Keys;
    while todo != {}
      invariant todo <= beads.Keys
      invariant WithAssignments(more, edges, beads, beads.Keys - todo)
      decreases |todo|
    {
      var id := NextKey(todo);
      var b := beads[id];
      ghost var done := beads.Keys - todo;
      assert beads.Keys - (todo - {id}) == done + {id};
      todo := todo - {id};
      if !Working(b) {
        continue;
      }
      if b.assignee in agents {
        OneMoreAssignment(more, edges, beads, done, id);
        more := more + [AssignmentOf(b)];
      }
    }
  }

  lemma OneMoreAssignment(more: seq<Edge>, edges: seq<Edge>, beads: BeadMap, ids: set<string>, id: string)
    requires ids <= beads.Keys && id in beads && Working(beads[id]) && WithAssignments(more, edges, beads, ids)
    ensures WithAssignments(more + [AssignmentOf(beads[id])], edges, beads, ids + {id})
  {
    var e0 := AssignmentOf(beads[id]);
    assert e0 in more + [e0];
    forall e | e in more + [e0]
      ensures e in edges || exists k :: k in ids + {id} && Working(beads[k]) && e == AssignmentOf(beads[k])
    {
      if e in more && e !in edges {
        var k :| k in ids && Working(beads[k]) && e == AssignmentOf(beads[k]);
        assert k in ids + {id};
      } else if e !in edges {
        assert id in ids + {id} && e == e0;
      }
    }
  }

  predicate HasAgentEdge(edges: seq<Edge>, id: string) {
    exists e :: e in edges && (e.typ == ASSIGNED_TO || e.typ == REQUESTED_BY) && e.source == id
  }

  /** The agent nodes that are shown: those with an assignment or a request. */
  method ShownAgents(nodes: seq<Node>, edges: seq<Edge>, agents: Agents) returns (more: seq<Node>)
    ensures nodes <= more
    ensures forall n :: n in more <==>
        n in nodes || exists a :: a in agents && n == agents[a] && HasAgentEdge(edges, n.id)
  {
    var agentsWithEdges := AgentSources(edges);
    more := nodes;
    var todo := agents.Keys;
    while todo != {}
      invariant todo <= agents.Keys && nodes <= more
      invariant forall n :: n in more <==>
                  n in nodes || exists a :: a in agents && a !in todo && n == agents[a] && HasAgentEdge(edges, n.id)
      decreases |todo|
    {
      var a := NextKey(todo);
      todo := todo - {a};
      if agents[a].id in agentsWithEdges {
        more := more + [agents[a]];
      }
    }
  }

  method AgentSources(edges: seq<Edge>) returns (sources: set<string>)
    ensures forall x :: x in sources <==> HasAgentEdge(edges, x)
  {
    sources := {};
    for i := 0 to |edges|
      invariant forall x :: x in sources <==> HasAgentEdge(edges[..i], x)
    {
      var e := edges[i];
      assert edges[..i + 1] == edges[..i] + [e];
      assert forall f :: f in edges[..i + 1] <==> f in edges[..i] || f == e;
      if e.typ == ASSIGNED_TO || e.typ == REQUESTED_BY {
        sources := sources + {e.source};
      }
    }
    assert edges[..|edges|] == edges;
  }
}
