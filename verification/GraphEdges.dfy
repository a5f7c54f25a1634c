/**
 The edges of the graph response (internal/server/http_graph.go): the union of
 forward and reverse dependencies without duplicates, the parent of each bead, and
 the promotion of blocks edges to parent-child edges. Go's map order is arbitrary, so
 every loop over a map picks its keys in any order.
 */
module GraphEdges {
  import opened Wrappers
  import opened Beads

  datatype Edge = Edge(source: string, target: string, typ: string)

  /** Dependencies grouped by bead, as the batch queries return them. */
  type Records = map<string, seq<Dependency>>

  /** An identifier as the generator makes them: not blank, and free of the separators of edge keys. */
  predicate IdLike(id: string) {
    id != "" && '>' !in id && ':' !in id
  }

  predicate Alphanumeric(s: string) {
    forall c :: c in s ==> 'a' <= c <= 'z' || 'A' <= c <= 'Z' || '0' <= c <= '9'
  }

  lemma GeneratedIsIdLike(random: string)
    requires Alphanumeric(random)
    ensures IdLike("kd-" + random)
  {}

  // ------------------------------------------------------------- batch queries

  /** Every record sits under its own bead. */
  predicate ByBead(recs: Records) {
    forall k, d :: k in recs && d in recs[k] ==> d.beadId == k
  }

  /** Every record sits under the bead it depends on. */
  predicate ByTarget(recs: Records) {
    forall k, d :: k in recs && d in recs[k] ==> d.dependsOn == k
  }

  predicate Among(recs: Records, d: Dependency) {
    exists k :: k in recs && d in recs[k]
  }

  function Filed(recs: Records, k: string, d: Dependency): Records {
    recs[k := (if k in recs then recs[k] else []) + [d]]
  }

  lemma FiledAmong(recs: Records, k: string, d: Dependency)
    ensures forall e :: Among(Filed(recs, k, d), e) <==> Among(recs, e) || e == d
  {
    var more := Filed(recs, k, d);
    forall e ensures Among(more, e) <==> Among(recs, e) || e == d {
      if Among(recs, e) {
        var j :| j in recs && e in recs[j];
        assert j in more && e in more[j];
      }
      assert k in more && d in more[k];
      if Among(more, e) {
        var j :| j in more && e in more[j];
        if j != k {
          assert j in recs && e in recs[j];
        }
      }
    }
  }

  /** queryGetDependenciesForBeads, over the rows of the table in any order. */
  method GetDependenciesForBeads(rows: seq<Dependency>, beadIDs: set<string>) returns (recs: Records)
    ensures ByBead(recs) && recs.Keys <= beadIDs
    ensures forall d :: Among(recs, d) <==> d in rows && d.beadId in beadIDs
  {
    recs := map[];
    for i := 0 to |rows|
      invariant ByBead(recs) && recs.Keys <= beadIDs
      invariant forall d :: Among(recs, d) <==> d in rows[..i] && d.beadId in beadIDs
    {
      var d := rows[i];
      assert rows[..i + 1] == rows[..i] + [d];
      if d.beadId in beadIDs {
        FiledAmong(recs, d.beadId, d);
        recs := Filed(recs, d.beadId, d);
      }
    }
    assert rows[..|rows|] == rows;
  }

  /** queryGetReverseDependenciesForBeads. */
  method GetReverseDependenciesForBeads(rows: seq<Dependency>, beadIDs: set<string>) returns (recs: Records)
    ensures ByTarget(recs) && recs.Keys <= beadIDs
    ensures forall d :: Among(recs, d) <==> d in rows && d.dependsOn in beadIDs
  {
    recs := map[];
    for i := 0 to |rows|
      invariant ByTarget(recs) && recs.Keys <= beadIDs
      invariant forall d :: Among(recs, d) <==> d in rows[..i] && d.dependsOn in beadIDs
    {
      var d := rows[i];
      assert rows[..i + 1] == rows[..i] + [d];
      if d.dependsOn in beadIDs {
        FiledAmong(recs, d.dependsOn, d);
        recs := Filed(recs, d.dependsOn, d);
      }
    }
    assert rows[..|rows|] == rows;
  }

  // --------------------------------------------------------------- edge union

  /** The key that edges are told apart by. */
  function Key(e: Edge): string {
    e.source + "->" + e.target + ":" + e.typ
  }

  /** Between generated identifiers the key tells edges apart, whatever their types are called. */
  lemma KeyInjective(a: Edge, b: Edge)
    requires IdLike(a.source) && IdLike(a.target) && IdLike(b.source) && IdLike(b.target)
    requires Key(a) == Key(b)
    ensures a == b
  {
    var ra, rb := a.target + ":" + a.typ, b.target + ":" + b.typ;
    assert Key(a) == a.source + "->" + ra && Key(b) == b.source + "->" + rb;
    MarkerSplits(a.source, "->", ra, b.source, rb, '>');
    assert ra == a.target + ":" + a.typ && rb == b.target + ":" + b.typ;
    MarkerSplits(a.target, ":", a.typ, b.target, b.typ, ':');
  }

  /** A string is cut at most one way before a marker whose last character does not occur in front of it. */
  lemma MarkerSplits(x: string, marker: string, y: string, x': string, y': string, c: char)
    requires c !in x && c !in x' && marker != "" && marker[|marker| - 1] == c
    requires forall i :: 0 <= i < |marker| - 1 ==> marker[i] != c
    requires x + marker + y == x' + marker + y'
    ensures x == x' && y == y'
  {
    var s, m := x + marker + y, |marker| - 1;
    assert s[|x| + m] == c;
    assert (x' + marker + y')[|x'| + m] == c;
    assert forall i :: 0 <= i < |x| + m ==> s[i] != c;
    assert forall i :: 0 <= i < |x'| + m ==> (x' + marker + y')[i] != c;
    assert |x| == |x'|;
    assert x == s[..|x|] && x' == s[..|x|];
    assert y == s[|x| + |marker|..] && y' == s[|x| + |marker|..];
  }

  function AsEdge(d: Dependency): Edge {
    Edge(d.beadId, d.dependsOn, d.typ)
  }

  /** Edges taken from records, one per key, with every record's key among theirs. */
  ghost predicate Union(edges: seq<Edge>, seen: set<string>, taken: set<Dependency>) {
    && (forall e :: e in edges ==> exists d :: d in taken && AsEdge(d) == e)
    && (forall i, j :: 0 <= i < j < |edges| ==> Key(edges[i]) != Key(edges[j]))
    && (forall e :: e in edges ==> Key(e) in seen)
    && (forall k :: k in seen ==> exists e :: e in edges && Key(e) == k)
    && (forall d :: d in taken ==> Key(AsEdge(d)) in seen)
  }

  lemma UnionSkip(edges: seq<Edge>, seen: set<string>, taken: set<Dependency>, d: Dependency)
    requires Union(edges, seen, taken) && Key(AsEdge(d)) in seen
    ensures Union(edges, seen, taken + {d})
  {
    forall e | e in edges ensures exists x :: x in taken + {d} && AsEdge(x) == e {
      var x :| x in taken && AsEdge(x) == e;
      assert x in taken + {d};
    }
  }

  lemma UnionAdd(edges: seq<Edge>, seen: set<string>, taken: set<Dependency>, d: Dependency)
    requires Union(edges, seen, taken) && Key(AsEdge(d)) !in seen
    ensures Union(edges + [AsEdge(d)], seen + {Key(AsEdge(d))}, taken + {d})
  {
    var more, e0 := edges + [AsEdge(d)], AsEdge(d);
    forall e | e in more ensures exists x :: x in taken + {d} && AsEdge(x) == e {
      if e in edges {
        var x :| x in taken && AsEdge(x) == e;
        assert x in taken + {d};
      } else {
        assert d in taken + {d} && AsEdge(d) == e;
      }
    }
    forall k | k in seen + {Key(e0)} ensures exists e :: e in more && Key(e) == k {
      if k in seen {
        var e :| e in edges && Key(e) == k;
        assert e in more;
      } else {
        assert e0 in more;
      }
    }
    forall i | 0 <= i < |edges| ensures Key(edges[i]) != Key(e0) {
      assert edges[i] in edges;
    }
  }

  /** The ends of the edges that are not among the given beads. */
  function Outside(edges: seq<Edge>, known: set<string>): (r: set<string>)
    ensures forall x :: x in r <==> x !in known && exists e :: e in edges && (e.source == x || e.target == x)
  {
    (set e | e in edges && e.source !in known :: e.source) + (set e | e in edges && e.target !in known :: e.target)
  }

  lemma OutsideAdd(edges: seq<Edge>, e: Edge, known: set<string>)
    ensures Outside(edges + [e], known) ==
            Outside(edges, known) +
            (if e.source in known then {} else {e.source}) + (if e.target in known then {} else {e.target})
  {
    assert forall x :: x in edges + [e] <==> x in edges || x == e;
  }

  function Elems(deps: seq<Dependency>): set<Dependency> {
    set d | d in deps
  }

  lemma ElemsExtend(deps: seq<Dependency>, i: nat)
    requires i < |deps|
    ensures Elems(deps[..i + 1]) == Elems(deps[..i]) + {deps[i]}
  {
    assert deps[..i + 1] == deps[..i] + [deps[i]];
  }

  /** The edges so far, their keys, and the ends still to be fetched. */
  datatype Collection = Collection(edges: seq<Edge>, seen: set<string>, missing: set<string>)

  const NOTHING := Collection([], {}, {})

  /** One record taken in: an edge if its key is new, and its ends if they are asked for and not at hand. */
  function Take(c: Collection, d: Dependency, known: set<string>, includeDeps: bool): Collection {
    if Key(AsEdge(d)) in c.seen then c
    else
      Collection(c.edges + [AsEdge(d)], c.seen + {Key(AsEdge(d))},
                 c.missing + if includeDeps then {d.beadId, d.dependsOn} - known else {})
  }

  function Collect(c: Collection, list: seq<Dependency>, known: set<string>, includeDeps: bool): Collection {
    if list == [] then c
    else Take(Collect(c, list[..|list| - 1], known, includeDeps), list[|list| - 1], known, includeDeps)
  }

  lemma {:induction false} CollectMore(c: Collection, a: seq<Dependency>, b: seq<Dependency>, known: set<string>,
      includeDeps: bool)
    ensures Collect(Collect(c, a, known, includeDeps), b, known, includeDeps) == Collect(c, a + b, known, includeDeps)
  {
    if b == [] {
      assert a + b == a;
    } else {
      var m := |b| - 1;
      assert (a + b)[..|a| + m] == a + b[..m];
      CollectMore(c, a, b[..m], known, includeDeps);
    }
  }

  /** Taking in a list of records collects their union. */
  lemma {:induction false} CollectUnion(list: seq<Dependency>, known: set<string>, includeDeps: bool)
    ensures var c := Collect(NOTHING, list, known, includeDeps); Union(c.edges, c.seen, Elems(list))
  {
    if list != [] {
      var m := |list| - 1;
      var c, d := Collect(NOTHING, list[..m], known, includeDeps), list[m];
      CollectUnion(list[..m], known, includeDeps);
      ElemsExtend(list, m);
      assert list[..m + 1] == list;
      TakeUnion(c, d, Elems(list[..m]), known, includeDeps);
    }
  }

  lemma TakeUnion(c: Collection, d: Dependency, taken: set<Dependency>, known: set<string>, includeDeps: bool)
    requires Union(c.edges, c.seen, taken)
    ensures var c' := Take(c, d, known, includeDeps); Union(c'.edges, c'.seen, taken + {d})
  {
    if Key(AsEdge(d)) in c.seen {
      UnionSkip(c.edges, c.seen, taken, d);
    } else {
      UnionAdd(c.edges, c.seen, taken, d);
    }
  }

  /** The ends left to fetch are exactly those of the edges that are not at hand. */
  lemma {:induction false} CollectMissing(list: seq<Dependency>, known: set<string>, includeDeps: bool)
    ensures var c := Collect(NOTHING, list, known, includeDeps);
            c.missing == if includeDeps then Outside(c.edges, known) else {}
  {
    if list != [] {
      var m := |list| - 1;
      CollectMissing(list[..m], known, includeDeps);
      OutsideAdd(Collect(NOTHING, list[..m], known, includeDeps).edges, AsEdge(list[m]), known);
    }
  }

  /** The loop over the records of one bead of the result. */
  method AddForward(before: Collection, beadID: string, deps: seq<Dependency>, known: set<string>, includeDeps: bool)
      returns (c: Collection)
    requires beadID in known && forall d :: d in deps ==> d.beadId == beadID
    ensures c == Collect(before, deps, known, includeDeps)
  {
    c := before;
    for i := 0 to |deps|
      invariant c == Collect(before, deps[..i], known, includeDeps)
    {
      var dep := deps[i];
      assert deps[..i + 1][..i] == deps[..i];
      var e := Edge(beadID, dep.dependsOn, dep.typ);
      if Key(e) in c.seen {
        continue;
      }
      var missing := c.missing;
      if includeDeps {
        if dep.dependsOn !in known {
          missing := missing + {dep.dependsOn};
        }
      }
      c := Collection(c.edges + [e], c.seen + {Key(e)}, missing);
    }
    assert deps[..|deps|] == deps;
  }

  /** The loop over the records that depend on one bead of the result. */
  method AddReverse(before: Collection, deps: seq<Dependency>, known: set<string>, includeDeps: bool)
      returns (c: Collection)
    requires forall d :: d in deps ==> d.dependsOn in known
    ensures c == Collect(before, deps, known, includeDeps)
  {
    c := before;
    for i := 0 to |deps|
      invariant c == Collect(before, deps[..i], known, includeDeps)
    {
      var dep := deps[i];
      assert deps[..i + 1][..i] == deps[..i];
      var e := AsEdge(dep);
      if Key(e) in c.seen {
        continue;
      }
      var missing := c.missing;
      if includeDeps {
        if dep.beadId !in known {
          missing := missing + {dep.beadId};
        }
      }
      c := Collection(c.edges + [e], c.seen + {Key(e)}, missing);
    }
    assert deps[..|deps|] == deps;
  }

  /** The records under some of the keys. */
  function Taken(recs: Records, keys: set<string>): (r: set<Dependency>)
    requires keys <= recs.Keys
    ensures forall d :: d in r <==> exists k :: k in keys && d in recs[k]
  {
    set k, d | k in keys && d in recs[k] :: d
  }

  lemma TakenExtend(recs: Records, keys: set<string>, k: string, list: seq<Dependency>)
    requires keys <= recs.Keys && k in recs && Elems(list) == Taken(recs, keys)
    ensures Elems(list + recs[k]) == Taken(recs, keys + {k})
  {
    forall d ensures d in Elems(list + recs[k]) <==> d in Taken(recs, keys + {k}) {
      assert d in Elems(list) <==> d in list;
    }
  }

  function AllTaken(recs: Records): (r: set<Dependency>)
    ensures forall d :: d in r <==> Among(recs, d)
  {
    Taken(recs, recs.Keys)
  }

  method AddAllForward(before: Collection, fwd: Records, known: set<string>, includeDeps: bool)
      returns (c: Collection, ghost list: seq<Dependency>)
    requires ByBead(fwd) && fwd.Keys <= known
    ensures c == Collect(before, list, known, includeDeps) && Elems(list) == AllTaken(fwd)
  {
    c, list := before, [];
    var todo := fwd.Keys;
    while todo != {}
      invariant todo <= fwd.Keys
      invariant c == Collect(before, list, known, includeDeps) && Elems(list) == Taken(fwd, fwd.Keys - todo)
      decreases |todo|
    {
      var beadID := NextKey(todo);
      TakenExtend(fwd, fwd.Keys - todo, beadID, list);
      assert fwd.Keys - todo + {beadID} == fwd.Keys - (todo - {beadID});
      CollectMore(before, list, fwd[beadID], known, includeDeps);
      c := AddForward(c, beadID, fwd[beadID], known, includeDeps);
      list := list + fwd[beadID];
      todo := todo - {beadID};
    }
    assert fwd.Keys - todo == fwd.Keys;
  }

  method AddAllReverse(before: Collection, rev: Records, known: set<string>, includeDeps: bool)
      returns (c: Collection, ghost list: seq<Dependency>)
    requires ByTarget(rev) && rev.Keys <= known
    ensures c == Collect(before, list, known, includeDeps) && Elems(list) == AllTaken(rev)
  {
    c, list := before, [];
    var todo := rev.Keys;
    while todo != {}
      invariant todo <= rev.Keys
      invariant c == Collect(before, list, known, includeDeps) && Elems(list) == Taken(rev, rev.Keys - todo)
      decreases |todo|
    {
      var k := NextKey(todo);
      TakenExtend(rev, rev.Keys - todo, k, list);
      assert rev.Keys - todo + {k} == rev.Keys - (todo - {k});
      CollectMore(before, list, rev[k], known, includeDeps);
      c := AddReverse(c, rev[k], known, includeDeps);
      list := list + rev[k];
      todo := todo - {k};
    }
    assert rev.Keys - todo == rev.Keys;
  }

  /** The records that edges are built from: reverse ones only if their query succeeded. */
  function Used(fwd: Records, rev: Records, revOk: bool): set<Dependency> {
    AllTaken(fwd) + if revOk then AllTaken(rev) else {}
  }

  /** Both loops: forward records, then reverse records if that query succeeded. */
  method BuildEdges(fwd: Records, rev: Records, revOk: bool, known: set<string>, includeDeps: bool)
      returns (edges: seq<Edge>, missing: set<string>, ghost seen: set<string>)
    requires ByBead(fwd) && ByTarget(rev) && fwd.Keys <= known && rev.Keys <= known
    ensures Union(edges, seen, Used(fwd, rev, revOk))
    ensures missing == if includeDeps then Outside(edges, known) else {}
  {
    var c;
    ghost var list, more;
    c, list := AddAllForward(NOTHING, fwd, known, includeDeps);
    if revOk {
      c, more := AddAllReverse(c, rev, known, includeDeps);
      CollectMore(NOTHING, list, more, known, includeDeps);
      list := list + more;
    }
    assert Elems(list) == Used(fwd, rev, revOk);
    CollectUnion(list, known, includeDeps);
    CollectMissing(list, known, includeDeps);
    edges, missing, seen := c.edges, c.missing, c.seen;
  }

  /** Between generated identifiers the edges are exactly the records, each once. */
  lemma UnionIsExact(edges: seq<Edge>, seen: set<string>, taken: set<Dependency>)
    requires Union(edges, seen, taken)
    requires forall d :: d in taken ==> IdLike(d.beadId) && IdLike(d.dependsOn)
    ensures forall e :: e in edges <==> exists d :: d in taken && AsEdge(d) == e
    ensures forall i, j :: 0 <= i < j < |edges| ==> edges[i] != edges[j]
  {
    forall d | d in taken ensures AsEdge(d) in edges {
      var e :| e in edges && Key(e) == Key(AsEdge(d));
      var x :| x in taken && AsEdge(x) == e;
      KeyInjective(e, AsEdge(d));
    }
  }
}
