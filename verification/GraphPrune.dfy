/**
 The last part of the graph response (internal/server/http_graph.go): which nodes
 are dropped as disconnected, and the edges that remain.
 */
module GraphPrune {
  import opened Beads
  import opened GraphEdges

  datatype Node = Node(
    id: string, title: string, status: string, priority: int, issueType: string, parentId: string, assignee: string)

  const ACTIVE := "active"
  const IDLE := "idle"
  const AGENT := "agent"

  /** The states that keep a closed neighbour in view. */
  predicate Live(status: string) {
    || status == OPEN || status == IN_PROGRESS || status == BLOCKED || status == DEFERRED
    || status == ACTIVE || status == IDLE
  }

  predicate Joins(e: Edge, x: string, y: string) {
    (e.source == x && e.target == y) || (e.source == y && e.target == x)
  }

  predicate Touches(edges: seq<Edge>, x: string) {
    exists e :: e in edges && (e.source == x || e.target == x)
  }

  predicate LiveNode(nodes: seq<Node>, id: string) {
    exists m :: m in nodes && m.id == id && Live(m.status)
  }

  /** Some edge joins x to a live node. */
  predicate NearLive(nodes: seq<Node>, edges: seq<Edge>, x: string) {
    exists e :: e in edges &&
        ((e.source == x && LiveNode(nodes, e.target)) || (e.target == x && LiveNode(nodes, e.source)))
  }

  /** What a node needs in order to stay. */
  predicate Keep(n: Node, nodes: seq<Node>, edges: seq<Edge>) {
    && (n.issueType == "gate" || n.issueType == "decision" ==> Touches(edges, n.id))
    && (n.issueType == AGENT ==> Touches(edges, n.id) || n.status == ACTIVE || n.status == IDLE)
    && (n.status == CLOSED ==> NearLive(nodes, edges, n.id))
  }

  function KeptNodes(some: seq<Node>, nodes: seq<Node>, edges: seq<Edge>): seq<Node> {
    if some == [] then []
    else
      var front, n := KeptNodes(some[..|some| - 1], nodes, edges), some[|some| - 1];
      if Keep(n, nodes, edges) then front + [n] else front
  }

  function IdsOf(nodes: seq<Node>): (r: set<string>)
    ensures forall x :: x in r <==> exists n :: n in nodes && n.id == x
  {
    set n | n in nodes :: n.id
  }

  function KeptEdges(edges: seq<Edge>, ids: set<string>): seq<Edge> {
    if edges == [] then []
    else
      var front, e := KeptEdges(edges[..|edges| - 1], ids), edges[|edges| - 1];
      if e.source in ids && e.target in ids then front + [e] else front
  }

  lemma {:induction false} KeptNodesAre(some: seq<Node>, nodes: seq<Node>, edges: seq<Edge>)
    ensures forall n :: n in KeptNodes(some, nodes, edges) <==> n in some && Keep(n, nodes, edges)
  {
    if some != [] {
      var m := |some| - 1;
      KeptNodesAre(some[..m], nodes, edges);
      assert some == some[..m] + [some[m]];
    }
  }

  lemma {:induction false} KeptEdgesAre(edges: seq<Edge>, ids: set<string>)
    ensures forall e :: e in KeptEdges(edges, ids) <==> e in edges && e.source in ids && e.target in ids
  {
    if edges != [] {
      var m := |edges| - 1;
      KeptEdgesAre(edges[..m], ids);
      assert edges == edges[..m] + [edges[m]];
    }
  }

  // ---------------------------------------------------------------- the loops

  method Ends(edges: seq<Edge>) returns (connectedIDs: set<string>)
    ensures forall x :: x in connectedIDs <==> Touches(edges, x)
  {
    connectedIDs := {};
    for i := 0 to |edges|
      invariant forall x :: x in connectedIDs <==> Touches(edges[..i], x)
    {
      TouchesMore(edges[..i], edges[i]);
      assert edges[..i + 1] == edges[..i] + [edges[i]];
      connectedIDs := connectedIDs + {edges[i].source};
      connectedIDs := connectedIDs + {edges[i].target};
    }
    assert edges[..|edges|] == edges;
  }

  lemma TouchesMore(edges: seq<Edge>, e: Edge)
    ensures forall x :: Touches(edges + [e], x) <==> Touches(edges, x) || e.source == x || e.target == x
  {
    assert forall f :: f in edges + [e] <==> f in edges || f == e;
  }

  method LiveIds(nodes: seq<Node>) returns (openActiveSet: set<string>)
    ensures forall x :: x in openActiveSet <==> LiveNode(nodes, x)
  {
    openActiveSet := {};
    for i := 0 to |nodes|
      invariant forall x :: x in openActiveSet <==> LiveNode(nodes[..i], x)
    {
      var n := nodes[i];
      assert nodes[..i + 1] == nodes[..i] + [n];
      assert forall m :: m in nodes[..i + 1] <==> m in nodes[..i] || m == n;
      var live := Live(n.status);
      if live {
        openActiveSet := openActiveSet + {n.id};
      }
    }
    assert nodes[..|nodes|] == nodes;
  }

  type Adjacency = map<string, seq<string>>

  function Link(adj: Adjacency, x: string, y: string): Adjacency {
    adj[x := (if x in adj then adj[x] else []) + [y]]
  }

  predicate Near(adj: Adjacency, x: string, y: string) {
    x in adj && y in adj[x]
  }

  predicate Joined(edges: seq<Edge>, x: string, y: string) {
    exists e :: e in edges && Joins(e, x, y)
  }

  ghost predicate Adjacent(adj: Adjacency, edges: seq<Edge>) {
    forall x, y :: Near(adj, x, y) <==> Joined(edges, x, y)
  }

  lemma LinkMeans(adj: Adjacency, x: string, y: string)
    ensures forall a, b :: Near(Link(adj, x, y), a, b) <==> Near(adj, a, b) || (a == x && b == y)
  {}

  lemma JoinedMore(edges: seq<Edge>, e: Edge, x: string, y: string)
    ensures Joined(edges + [e], x, y) <==> Joined(edges, x, y) || Joins(e, x, y)
  {
    assert forall f :: f in edges + [e] <==> f in edges || f == e;
    if Joined(edges, x, y) {
      var f :| f in edges && Joins(f, x, y);
      assert f in edges + [e];
    }
    if Joins(e, x, y) {
      assert e in edges + [e];
    }
  }

  method Neighbors(edges: seq<Edge>) returns (adj: Adjacency)
    ensures Adjacent(adj, edges)
  {
    adj := map[];
    for i := 0 to |edges|
      invariant Adjacent(adj, edges[..i])
    {
      var e := edges[i];
      assert edges[..i + 1] == edges[..i] + [e];
      LinkBoth(adj, edges[..i], e);
      adj := Link(adj, e.source, e.target);
      adj := Link(adj, e.target, e.source);
    }
    assert edges[..|edges|] == edges;
  }

  lemma LinkBoth(adj: Adjacency, edges: seq<Edge>, e: Edge)
    requires Adjacent(adj, edges)
    ensures Adjacent(Link(Link(adj, e.source, e.target), e.target, e.source), edges + [e])
  {
    LinkMeans(adj, e.source, e.target);
    LinkMeans(Link(adj, e.source, e.target), e.target, e.source);
    forall x, y ensures Near(Link(Link(adj, e.source, e.target), e.target, e.source), x, y) <==>
        Joined(edges + [e], x, y) {
      JoinedMore(edges, e, x, y);
    }
  }

  /** Whether one of a node's neighbours is live. */
  method AnyLive(neighbors: seq<string>, openActiveSet: set<string>) returns (r: bool)
    ensures r <==> exists y :: y in neighbors && y in openActiveSet
  {
    for i := 0 to |neighbors|
      invariant forall k :: 0 <= k < i ==> neighbors[k] !in openActiveSet
    {
      if neighbors[i] in openActiveSet {
        return true;
      }
    }
    return false;
  }

  method ClosedConnected(nodes: seq<Node>, edges: seq<Edge>) returns (closedConnected: set<string>)
    ensures forall x :: x in closedConnected <==>
              NearLive(nodes, edges, x) && exists n :: n in nodes && n.id == x && n.status == CLOSED
  {
    var openActiveSet := LiveIds(nodes);
    var neighbors := Neighbors(edges);
    closedConnected := {};
    for i := 0 to |nodes|
      invariant forall x :: x in closedConnected <==>
                  NearLive(nodes, edges, x) && exists n :: n in nodes[..i] && n.id == x && n.status == CLOSED
    {
      var n := nodes[i];
      assert nodes[..i + 1] == nodes[..i] + [n];
      assert forall m :: m in nodes[..i + 1] <==> m in nodes[..i] || m == n;
      if n.status != CLOSED {
        continue;
      }
      var near := AnyLive(if n.id in neighbors then neighbors[n.id] else [], openActiveSet);
      NearIsAdjacent(nodes, edges, neighbors, openActiveSet, n.id);
      assert near <==> exists y :: Near(neighbors, n.id, y) && y in openActiveSet;
      if near {
        closedConnected := closedConnected + {n.id};
      }
    }
    assert nodes[..|nodes|] == nodes;
  }

  lemma NearIsAdjacent(nodes: seq<Node>, edges: seq<Edge>, adj: Adjacency, live: set<string>, x: string)
    requires Adjacent(adj, edges) && forall y :: y in live <==> LiveNode(nodes, y)
    ensures NearLive(nodes, edges, x) <==> exists y :: Near(adj, x, y) && y in live
  {
    if NearLive(nodes, edges, x) {
      var e :| e in edges &&
          ((e.source == x && LiveNode(nodes, e.target)) || (e.target == x && LiveNode(nodes, e.source)));
      var y := if e.source == x && LiveNode(nodes, e.target) then e.target else e.source;
      assert Joins(e, x, y);
      assert Joined(edges, x, y);
      assert Near(adj, x, y) && y in live;
    }
    if y :| Near(adj, x, y) && y in live {
      assert Joined(edges, x, y);
      var e :| e in edges && Joins(e, x, y);
    }
  }

  /** One turn of the filter loop. */
  method Stays(n: Node, connectedIDs: set<string>, closedConnected: set<string>) returns (stays: bool)
    ensures stays <==>
            && (n.issueType == "gate" || n.issueType == "decision" ==> n.id in connectedIDs)
            && (n.issueType == AGENT ==> n.id in connectedIDs || n.status == ACTIVE || n.status == IDLE)
            && (n.status == CLOSED ==> n.id in closedConnected)
  {
    if n.issueType == "gate" || n.issueType == "decision" {
      if n.id !in connectedIDs {
        return false;
      }
    } else if n.issueType == AGENT {
      if n.id !in connectedIDs && n.status != ACTIVE && n.status != IDLE {
        return false;
      }
    }
    if n.status == CLOSED && n.id !in closedConnected {
      return false;
    }
    return true;
  }

  /** Pruning: the nodes that stay, in order, and the edges whose two ends stay. */
  method Prune(nodes: seq<Node>, edges: seq<Edge>) returns (kept: seq<Node>, keptEdges: seq<Edge>)
    ensures kept == KeptNodes(nodes, nodes, edges)
    ensures keptEdges == KeptEdges(edges, IdsOf(kept))
  {
    var connectedIDs := Ends(edges);
    var closedConnected := ClosedConnected(nodes, edges);
    kept := [];
    for i := 0 to |nodes|
      invariant kept == KeptNodes(nodes[..i], nodes, edges)
    {
      var n := nodes[i];
      assert nodes[..i + 1][..i] == nodes[..i];
      assert n in nodes;
      var stays := Stays(n, connectedIDs, closedConnected);
      if !stays {
        continue;
      }
      kept := kept + [n];
    }
    assert nodes[..|nodes|] == nodes;
    var nodeIDSet := set n | n in kept :: n.id;
    keptEdges := [];
    for i := 0 to |edges|
      invariant keptEdges == KeptEdges(edges[..i], nodeIDSet)
    {
      assert edges[..i + 1][..i] == edges[..i];
      if edges[i].source in nodeIDSet && edges[i].target in nodeIDSet {
        keptEdges := keptEdges + [edges[i]];
      }
    }
    assert edges[..|edges|] == edges;
  }

  // ----------------------------------------------------------------- the laws

  /** Pruning is exact, and its result is closed: no edge leads out of it. */
  lemma PruneIsExact(nodes: seq<Node>, edges: seq<Edge>)
    ensures var kept := KeptNodes(nodes, nodes, edges);
            var keptEdges := KeptEdges(edges, IdsOf(kept));
            && (forall n :: n in kept <==> n in nodes && Keep(n, nodes, edges))
            && (forall e :: e in keptEdges <==> e in edges && e.source in IdsOf(kept) && e.target in IdsOf(kept))
  {
    KeptNodesAre(nodes, nodes, edges);
    KeptEdgesAre(edges, IdsOf(KeptNodes(nodes, nodes, edges)));
  }

  /** A live node that has an edge stays. */
  lemma LiveStays(nodes: seq<Node>, edges: seq<Edge>, n: Node)
    requires n in nodes && Live(n.status) && Touches(edges, n.id)
    ensures n in KeptNodes(nodes, nodes, edges)
  {
    KeptNodesAre(nodes, nodes, edges);
    LiveIsNotClosed(n.status);
  }

  lemma LiveIsNotClosed(s: string)
    requires Live(s)
    ensures s != CLOSED
  {}

  /** Every closed node that stays has, among the edges that stay, one to a live node that stays. */
  lemma ClosedHasLiveNeighbor(nodes: seq<Node>, edges: seq<Edge>, n: Node) returns (e: Edge, m: Node)
    requires n in KeptNodes(nodes, nodes, edges) && n.status == CLOSED
    ensures m in KeptNodes(nodes, nodes, edges) && Live(m.status) && Joins(e, n.id, m.id)
    ensures e in KeptEdges(edges, IdsOf(KeptNodes(nodes, nodes, edges)))
  {
    PruneIsExact(nodes, edges);
    e :| e in edges &&
        ((e.source == n.id && LiveNode(nodes, e.target)) || (e.target == n.id && LiveNode(nodes, e.source)));
    var other := if e.source == n.id && LiveNode(nodes, e.target) then e.target else e.source;
    m :| m in nodes && m.id == other && Live(m.status);
    LiveStays(nodes, edges, m);
  }
}
