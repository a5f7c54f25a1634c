/**
 The parent of each bead in the graph response, and the promotion of blocks edges
 that only repeat it (internal/server/http_graph.go).
 */
module GraphParents {
  import opened Wrappers
  import opened Beads
  import opened GraphEdges

  type Parents = map<string, string>

  /** The last parent-child target in a bead's records. */
  function LastParent(deps: seq<Dependency>): Option<string> {
    if deps == [] then None
    else
      var d := deps[|deps| - 1];
      if d.typ == PARENT_CHILD then Some(d.dependsOn) else LastParent(deps[..|deps| - 1])
  }

  lemma {:induction false} LastParentMeans(deps: seq<Dependency>)
    ensures LastParent(deps).None? <==> forall d :: d in deps ==> d.typ != "parent-child"
    ensures LastParent(deps).Some? ==>
              exists i :: 0 <= i < |deps| && deps[i].typ == "parent-child"
                          && deps[i].dependsOn == LastParent(deps).value
                          && forall j :: i < j < |deps| ==> deps[j].typ != "parent-child"
  {
    if deps != [] {
      var m := |deps| - 1;
      LastParentMeans(deps[..m]);
      assert deps == deps[..m] + [deps[m]];
      assert deps[m] in deps;
      if deps[m].typ != PARENT_CHILD && LastParent(deps[..m]).Some? {
        var i :| 0 <= i < m && deps[..m][i].typ == "parent-child"
                 && deps[..m][i].dependsOn == LastParent(deps[..m]).value
                 && forall j :: i < j < m ==> deps[..m][j].typ != "parent-child";
        assert deps[i].typ == "parent-child";
      }
    }
  }

  predicate EpicBlock(d: Dependency, beads: map<string, Bead>) {
    d.typ == BLOCKS && d.dependsOn in beads && beads[d.dependsOn].typ == EPIC
  }

  /** The first blocks target that is a known epic. */
  function FirstEpic(deps: seq<Dependency>, beads: map<string, Bead>): Option<string> {
    if deps == [] then None
    else if EpicBlock(deps[0], beads) then Some(deps[0].dependsOn)
    else FirstEpic(deps[1..], beads)
  }

  lemma {:induction false} FirstEpicMeans(deps: seq<Dependency>, beads: map<string, Bead>)
    ensures FirstEpic(deps, beads).Some? ==>
              exists i :: 0 <= i < |deps| && deps[i].typ == "blocks"
                          && deps[i].dependsOn == FirstEpic(deps, beads).value
                          && deps[i].dependsOn in beads && beads[deps[i].dependsOn].typ == "epic"
                          && forall j :: 0 <= j < i ==> !EpicBlock(deps[j], beads)
  {
    if deps != [] && !EpicBlock(deps[0], beads) && FirstEpic(deps, beads).Some? {
      FirstEpicMeans(deps[1..], beads);
      var i :| 0 <= i < |deps| - 1 && deps[1..][i].typ == "blocks"
               && deps[1..][i].dependsOn == FirstEpic(deps, beads).value
               && deps[1..][i].dependsOn in beads && beads[deps[1..][i].dependsOn].typ == "epic"
               && forall j :: 0 <= j < i ==> !EpicBlock(deps[1..][j], beads);
      assert deps[i + 1].typ == "blocks";
      forall j | 0 <= j < i + 1 ensures !EpicBlock(deps[j], beads) {
        assert j > 0 ==> deps[j] == deps[1..][j - 1];
      }
    }
  }

  /** Some record under one of the keys gives the child a parent. */
  predicate HasParentIn(recs: Records, keys: set<string>, child: string)
    requires keys <= recs.Keys
  {
    exists k, d :: k in keys && d in recs[k] && d.beadId == child && d.typ == PARENT_CHILD
  }

  predicate GivesParent(recs: Records, child: string, parent: string) {
    Among(recs, Dependency(child, parent, PARENT_CHILD))
  }

  // ---------------------------------------------------------- forward records

  ghost predicate FromForward(parents: Parents, fwd: Records, keys: set<string>)
    requires keys <= fwd.Keys
  {
    && (forall x :: x in parents <==> x in keys && LastParent(fwd[x]).Some?)
    && (forall x :: x in parents ==> Some(parents[x]) == LastParent(fwd[x]))
  }

  method ForwardParents(fwd: Records) returns (parents: Parents)
    ensures FromForward(parents, fwd, fwd.Keys)
  {
    parents := map[];
    var todo := fwd.Keys;
    while todo != {}
      invariant todo <= fwd.Keys
      invariant FromForward(parents, fwd, fwd.Keys - todo)
      decreases |todo|
    {
      var beadID := NextKey(todo);
      parents := LastParentInto(parents, beadID, fwd[beadID]);
      todo := todo - {beadID};
    }
  }

  /** Each parent-child record overwrites the one before. */
  method LastParentInto(before: Parents, beadID: string, deps: seq<Dependency>) returns (parents: Parents)
    ensures parents == if LastParent(deps).Some? then before[beadID := LastParent(deps).value] else before
  {
    parents := before;
    for i := 0 to |deps|
      invariant parents == if LastParent(deps[..i]).Some? then before[beadID := LastParent(deps[..i]).value] else before
    {
      assert deps[..i + 1][..i] == deps[..i];
      if deps[i].typ == PARENT_CHILD {
        parents := parents[beadID := deps[i].dependsOn];
      }
    }
    assert deps[..|deps|] == deps;
  }

  lemma {:induction false} LastParentIsRecord(deps: seq<Dependency>)
    ensures LastParent(deps).Some? <==> exists d :: d in deps && d.typ == PARENT_CHILD
    ensures LastParent(deps).Some? ==>
        exists d :: d in deps && d.typ == PARENT_CHILD && d.dependsOn == LastParent(deps).value
  {
    if deps != [] {
      var m := |deps| - 1;
      LastParentIsRecord(deps[..m]);
      assert deps == deps[..m] + [deps[m]];
      if deps[m].typ == PARENT_CHILD {
        assert deps[m] in deps;
      }
    }
  }

  // ---------------------------------------------------------- reverse records

  /** Reverse records take precedence; other parents are as before. */
  ghost predicate FromReverse(parents: Parents, before: Parents, rev: Records, keys: set<string>)
    requires keys <= rev.Keys
  {
    forall x ::
      if HasParentIn(rev, keys, x) then x in parents && GivesParent(rev, x, parents[x])
      else (x in parents <==> x in before) && (x in parents ==> parents[x] == before[x])
  }

  method ReverseParents(before: Parents, rev: Records) returns (parents: Parents)
    ensures FromReverse(parents, before, rev, rev.Keys)
  {
    parents := before;
    var todo := rev.Keys;
    while todo != {}
      invariant todo <= rev.Keys
      invariant FromReverse(parents, before, rev, rev.Keys - todo)
      decreases |todo|
    {
      var k := NextKey(todo);
      ghost var earlier := parents;
      parents := AllParentsInto(parents, rev, k);
      ReverseStep(parents, earlier, before, rev, rev.Keys - todo, k);
      assert rev.Keys - todo + {k} == rev.Keys - (todo - {k});
      todo := todo - {k};
    }
    assert rev.Keys - todo == rev.Keys;
  }

  predicate HasParentAt(deps: seq<Dependency>, child: string) {
    exists d :: d in deps && d.beadId == child && d.typ == PARENT_CHILD
  }

  /** After one list of records: its children have one of its parents. */
  ghost predicate Overwritten(parents: Parents, before: Parents, deps: seq<Dependency>) {
    forall x ::
      if HasParentAt(deps, x) then x in parents && Dependency(x, parents[x], PARENT_CHILD) in deps
      else (x in parents <==> x in before) && (x in parents ==> parents[x] == before[x])
  }

  method AllParentsInto(before: Parents, rev: Records, k: string) returns (parents: Parents)
    requires k in rev
    ensures Overwritten(parents, before, rev[k])
  {
    var deps := rev[k];
    parents := before;
    for i := 0 to |deps|
      invariant Overwritten(parents, before, deps[..i])
    {
      assert deps[..i + 1] == deps[..i] + [deps[i]];
      OverwriteStep(parents, before, deps[..i], deps[i]);
      if deps[i].typ == PARENT_CHILD {
        parents := parents[deps[i].beadId := deps[i].dependsOn];
      }
    }
    assert deps[..|deps|] == deps;
  }

  lemma OverwriteStep(parents: Parents, before: Parents, deps: seq<Dependency>, d: Dependency)
    requires Overwritten(parents, before, deps)
    ensures Overwritten(if d.typ == PARENT_CHILD then parents[d.beadId := d.dependsOn] else parents, before, deps + [d])
  {
    forall x ensures HasParentAt(deps + [d], x) <==> HasParentAt(deps, x) || (d.beadId == x && d.typ == PARENT_CHILD) {
      assert forall e :: e in deps + [d] <==> e in deps || e == d;
    }
    assert d.typ == PARENT_CHILD ==> d == Dependency(d.beadId, d.dependsOn, PARENT_CHILD);
  }

  lemma ReverseStep(parents: Parents, earlier: Parents, before: Parents, rev: Records, keys: set<string>, k: string)
    requires keys <= rev.Keys && k in rev
    requires FromReverse(earlier, before, rev, keys) && Overwritten(parents, earlier, rev[k])
    ensures FromReverse(parents, before, rev, keys + {k})
  {
    forall x ensures HasParentIn(rev, keys + {k}, x) <==> HasParentIn(rev, keys, x) || HasParentAt(rev[k], x) {}
    forall x | HasParentAt(rev[k], x) ensures GivesParent(rev, x, parents[x]) {
      assert k in rev && Dependency(x, parents[x], PARENT_CHILD) in rev[k];
    }
  }

  // ---------------------------------------------------------------- inference

  ghost predicate Inferred(parents: Parents, before: Parents, fwd: Records, beads: map<string, Bead>, keys: set<string>)
    requires keys <= fwd.Keys
  {
    forall x ::
      if x in before then x in parents && parents[x] == before[x]
      else if x in keys && FirstEpic(fwd[x], beads).Some? then
        x in parents && Some(parents[x]) == FirstEpic(fwd[x], beads)
      else x !in parents
  }

  method InferParents(before: Parents, fwd: Records, beads: map<string, Bead>) returns (parents: Parents)
    ensures Inferred(parents, before, fwd, beads, fwd.Keys)
  {
    parents := before;
    var todo := fwd.Keys;
    while todo != {}
      invariant todo <= fwd.Keys
      invariant Inferred(parents, before, fwd, beads, fwd.Keys - todo)
      decreases |todo|
    {
      var beadID := NextKey(todo);
      todo := todo - {beadID};
      if beadID in parents {
        continue;
      }
      var epic := FindEpic(fwd[beadID], beads);
      if epic.Some? {
        parents := parents[beadID := epic.value];
      }
    }
  }

  method FindEpic(deps: seq<Dependency>, beads: map<string, Bead>) returns (r: Option<string>)
    ensures r == FirstEpic(deps, beads)
  {
    for i := 0 to |deps|
      invariant FirstEpic(deps[i..], beads) == FirstEpic(deps, beads)
    {
      assert deps[i..][0] == deps[i] && deps[i..][1..] == deps[i + 1..];
      if deps[i].typ == BLOCKS {
        if deps[i].dependsOn in beads && beads[deps[i].dependsOn].typ == EPIC {
          return Some(deps[i].dependsOn);
        }
      }
    }
    return None;
  }

  lemma {:induction false} FirstEpicIsRecord(deps: seq<Dependency>, beads: map<string, Bead>)
    ensures FirstEpic(deps, beads).Some? ==>
              exists d :: d in deps && EpicBlock(d, beads) && d.dependsOn == FirstEpic(deps, beads).value
    ensures FirstEpic(deps, beads).Some? <==> exists d :: d in deps && EpicBlock(d, beads)
  {
    if deps != [] {
      FirstEpicIsRecord(deps[1..], beads);
      assert deps == [deps[0]] + deps[1..];
      assert deps[0] in deps;
    }
  }

  // --------------------------------------------------------------- the lookup

  /** A bead's parent: a reverse record's, else its last forward one's, else the first epic it waits for. */
  ghost predicate ParentOf(parents: Parents, fwd: Records, rev: Records, beads: map<string, Bead>, x: string) {
    if HasParentIn(rev, rev.Keys, x) then x in parents && GivesParent(rev, x, parents[x])
    else if x in fwd && LastParent(fwd[x]).Some? then x in parents && Some(parents[x]) == LastParent(fwd[x])
    else if x in fwd && FirstEpic(fwd[x], beads).Some? then x in parents && Some(parents[x]) == FirstEpic(fwd[x], beads)
    else x !in parents
  }

  /** The three stages in order. */
  method ParentLookup(fwd: Records, rev: Records, beads: map<string, Bead>) returns (parents: Parents)
    ensures forall x :: ParentOf(parents, fwd, rev, beads, x)
  {
    var forward := ForwardParents(fwd);
    var explicit := ReverseParents(forward, rev);
    parents := InferParents(explicit, fwd, beads);
    forall x ensures ParentOf(parents, fwd, rev, beads, x) {
      StagesCompose(parents, explicit, forward, fwd, rev, beads, x);
    }
  }

  lemma StagesCompose(parents: Parents, explicit: Parents, forward: Parents, fwd: Records, rev: Records,
      beads: map<string, Bead>, x: string)
    requires FromForward(forward, fwd, fwd.Keys) && FromReverse(explicit, forward, rev, rev.Keys)
    requires Inferred(parents, explicit, fwd, beads, fwd.Keys)
    ensures ParentOf(parents, fwd, rev, beads, x)
  {
    assert if HasParentIn(rev, rev.Keys, x) then x in explicit && GivesParent(rev, x, explicit[x])
           else (x in explicit <==> x in forward) && (x in explicit ==> explicit[x] == forward[x]);
    assert x in forward <==> x in fwd && LastParent(fwd[x]).Some?;
  }

  // ---------------------------------------------------------------- promotion

  function Promoted(e: Edge, parents: Parents): Edge {
    if e.typ == BLOCKS && e.source in parents && parents[e.source] == e.target then e.(typ := PARENT_CHILD) else e
  }

  /** The promotion loop, in place; a missing parent reads as "", which is no bead's identifier. */
  method Promote(edges: array<Edge>, parents: Parents)
    requires forall i :: 0 <= i < edges.Length ==> edges[i].target != ""
    modifies edges
    ensures forall i :: 0 <= i < edges.Length ==> edges[i] == Promoted(old(edges[i]), parents)
  {
    for i := 0 to edges.Length
      invariant forall k :: 0 <= k < i ==> edges[k] == Promoted(old(edges[k]), parents)
      invariant forall k :: i <= k < edges.Length ==> edges[k] == old(edges[k])
    {
      var e := edges[i];
      if e.typ == BLOCKS {
        var parent := if e.source in parents then parents[e.source] else "";
        if parent == e.target {
          edges[i] := e.(typ := PARENT_CHILD);
        }
      }
    }
  }

  /** Promotion leaves the ends of every edge, and parent-child edges altogether, as they are. */
  method PromoteAll(edges: seq<Edge>, parents: Parents) returns (promoted: seq<Edge>)
    requires forall e :: e in edges ==> e.target != ""
    ensures |promoted| == |edges| && forall i :: 0 <= i < |edges| ==> promoted[i] == Promoted(edges[i], parents)
  {
    if edges == [] {
      return [];
    }
    var a := new Edge[|edges|](i requires 0 <= i < |edges| => edges[i]);
    assert forall i :: 0 <= i < a.Length ==> a[i] in edges;
    Promote(a, parents);
    promoted := a[..];
  }

  // --------------------------------------------------- parents agree with edges

  /** Why x has the parent it has: a parent-child record, or a blocks record to an epic. */
  lemma ParentHasRecord(parents: Parents, fwd: Records, rev: Records, beads: map<string, Bead>, x: string)
      returns (d: Dependency)
    requires ByBead(fwd) && ParentOf(parents, fwd, rev, beads, x) && x in parents
    ensures d.beadId == x && d.dependsOn == parents[x] && (d.typ == PARENT_CHILD || d.typ == BLOCKS)
    ensures Among(rev, d) || Among(fwd, d)
  {
    if HasParentIn(rev, rev.Keys, x) {
      d := Dependency(x, parents[x], PARENT_CHILD);
    } else if LastParent(fwd[x]).Some? {
      LastParentIsRecord(fwd[x]);
      d :| d in fwd[x] && d.typ == PARENT_CHILD && d.dependsOn == parents[x];
    } else {
      FirstEpicIsRecord(fwd[x], beads);
      d :| d in fwd[x] && EpicBlock(d, beads) && d.dependsOn == parents[x];
    }
  }

  /** A parent-child or blocks record puts the bead under this parent. */
  predicate Backs(d: Dependency, x: string, parent: string) {
    d.beadId == x && d.dependsOn == parent && (d.typ == PARENT_CHILD || d.typ == BLOCKS)
  }

  /**
   Exactly when a bead's parent has its edge after promotion: some record that
   edges are built from, of type parent-child or blocks, joins the two.
   */
  lemma ParentHasEdge(parents: Parents, edges: seq<Edge>, seen: set<string>, used: set<Dependency>,
      promoted: seq<Edge>, x: string)
    requires x in parents
    requires Union(edges, seen, used) && forall d :: d in used ==> IdLike(d.beadId) && IdLike(d.dependsOn)
    requires |promoted| == |edges| && forall i :: 0 <= i < |edges| ==> promoted[i] == Promoted(edges[i], parents)
    ensures Edge(x, parents[x], PARENT_CHILD) in promoted <==> exists d :: d in used && Backs(d, x, parents[x])
  {
    UnionIsExact(edges, seen, used);
    PromotedParents(parents, edges, promoted, x);
    forall d | d in used && Backs(d, x, parents[x]) ensures Edge(x, parents[x], d.typ) in edges {
      assert AsEdge(d) in edges;
    }
    forall t | (t == PARENT_CHILD || t == BLOCKS) && Edge(x, parents[x], t) in edges
      ensures exists d :: d in used && Backs(d, x, parents[x])
    {
      var d :| d in used && AsEdge(d) == Edge(x, parents[x], t);
      assert Backs(d, x, parents[x]);
    }
  }

  lemma PromotedParents(parents: Parents, edges: seq<Edge>, promoted: seq<Edge>, x: string)
    requires x in parents
    requires |promoted| == |edges| && forall i :: 0 <= i < |edges| ==> promoted[i] == Promoted(edges[i], parents)
    ensures Edge(x, parents[x], PARENT_CHILD) in promoted <==>
              Edge(x, parents[x], PARENT_CHILD) in edges || Edge(x, parents[x], BLOCKS) in edges
  {
    forall t | (t == PARENT_CHILD || t == BLOCKS) && Edge(x, parents[x], t) in edges
      ensures Edge(x, parents[x], PARENT_CHILD) in promoted
    {
      var i :| 0 <= i < |edges| && edges[i] == Edge(x, parents[x], t);
      assert promoted[i] == Edge(x, parents[x], PARENT_CHILD);
    }
  }

  /** The records at hand back this parent: always if the reverse query succeeded, else if a forward record does. */
  predicate Backed(fwd: Records, revOk: bool, x: string, parent: string) {
    revOk || Among(fwd, Dependency(x, parent, PARENT_CHILD)) || Among(fwd, Dependency(x, parent, BLOCKS))
  }

  /** When a record that edges are built from backs a parent, in terms of the queries' results. */
  lemma BackedIff(parents: Parents, fwd: Records, rev: Records, revOk: bool, beads: map<string, Bead>, x: string)
    requires ByBead(fwd) && ParentOf(parents, fwd, rev, beads, x) && x in parents
    ensures (exists d :: d in Used(fwd, rev, revOk) && Backs(d, x, parents[x])) <==> Backed(fwd, revOk, x, parents[x])
  {
    var p := parents[x];
    if revOk {
      var d := ParentHasRecord(parents, fwd, rev, beads, x);
      assert d in Used(fwd, rev, revOk) && Backs(d, x, p);
    } else {
      forall d | d in Used(fwd, rev, revOk) && Backs(d, x, p) ensures Backed(fwd, revOk, x, p) {
        assert d == Dependency(x, p, d.typ);
      }
      forall t | (t == PARENT_CHILD || t == BLOCKS) && Among(fwd, Dependency(x, p, t))
        ensures exists d :: d in Used(fwd, rev, revOk) && Backs(d, x, p)
      {
        assert Dependency(x, p, t) in Used(fwd, rev, revOk) && Backs(Dependency(x, p, t), x, p);
      }
    }
  }
}
