/**
 Two readings of "blocked": the ready list looks blockers up one by one
 (internal/server/http_graph.go, handleGetReady), the batch query joins them
 (internal/store/postgres/batch_queries.go, queryGetBlockedByForBeads).
 */
module Ready {
  import opened Beads
  import Lifecycle
  import opened Store
  import opened Validation
  import opened ServerRuns

  /** Something not closed blocks the bead. */
  predicate Unready(st: Store, id: string) {
    exists d :: d in st.deps && d.beadId == id && d.typ == BLOCKS
                && d.dependsOn in st.beads && st.beads[d.dependsOn].status != CLOSED
  }

  /** The statuses the batch query joins on. */
  predicate Live(status: string) {
    status == OPEN || status == IN_PROGRESS || status == BLOCKED || status == DEFERRED
  }

  /** The beads the batch query reports as blockers. */
  function Blockers(st: Store, id: string): (r: set<string>)
    ensures forall x :: x in r <==>
              Dependency(id, x, BLOCKS) in st.deps && x in st.beads && Live(st.beads[x].status)
  {
    set d | d in st.deps && d.beadId == id && d.typ == BLOCKS
            && d.dependsOn in st.beads && Live(st.beads[d.dependsOn].status) :: d.dependsOn
  }

  /** The blocking loop of handleGetReady for one bead: stop at the first open blocker. */
  method IsBlocked(st: Store, id: string) returns (blocked: bool)
    ensures blocked <==> Unready(st, id)
  {
    var deps := set d | d in st.deps && d.beadId == id;
    var todo := deps;
    blocked := false;
    while todo != {}
      invariant todo <= deps
      invariant forall d :: d in deps - todo ==>
                  !(d.typ == BLOCKS && d.dependsOn in st.beads && st.beads[d.dependsOn].status != CLOSED)
      decreases |todo|
    {
      var d :| d in todo;
      todo := todo - {d};
      if d.typ == BLOCKS {
        if d.dependsOn !in st.beads {
          continue;
        }
        if st.beads[d.dependsOn].status != CLOSED {
          return true;
        }
      }
    }
  }

  /** handleGetReady over the open beads it was given. */
  method GetReady(st: Store, beads: seq<Bead>) returns (ready: seq<Bead>)
    ensures forall b :: b in ready <==> b in beads && !Unready(st, b.id)
    ensures forall b :: b in ready <==>
              && b in beads
              && forall d :: d in st.deps && d.beadId == b.id && d.typ == "blocks" && d.dependsOn in st.beads ==>
                st.beads[d.dependsOn].status == "closed"
    ensures |ready| <= |beads|
  {
    ready := [];
    for i := 0 to |beads|
      invariant forall b :: b in ready <==> b in beads[..i] && !Unready(st, b.id)
      invariant |ready| <= i
    {
      var blocked := IsBlocked(st, beads[i].id);
      if !blocked {
        ready := ready + [beads[i]];
      }
      assert forall b :: b in beads[..i + 1] <==> b in beads[..i] || b == beads[i];
    }
    assert beads[..|beads|] == beads;
  }

  /** The rows of the join. */
  function JoinRows(st: Store, beadIDs: set<string>): (rows: set<Dependency>)
    ensures forall d :: d in rows <==>
              d.beadId in beadIDs && d.typ == BLOCKS && d.dependsOn in Blockers(st, d.beadId)
  {
    set d | d in st.deps && d.beadId in beadIDs && d.typ == BLOCKS && d.dependsOn in Blockers(st, d.beadId)
  }

  /** The rows seen so far, as one list per bead. */
  ghost predicate Grouped(m: map<string, seq<string>>, done: set<Dependency>) {
    && (forall d :: d in done ==> d.beadId in m && d.dependsOn in m[d.beadId])
    && (forall id :: id in m ==> m[id] != [])
    && (forall id, i :: id in m && 0 <= i < |m[id]| ==> Dependency(id, m[id][i], BLOCKS) in done)
  }

  lemma GroupStep(m: map<string, seq<string>>, done: set<Dependency>, d: Dependency, list: seq<string>)
    requires Grouped(m, done) && d.typ == BLOCKS
    requires list == if d.beadId in m then m[d.beadId] else []
    ensures Grouped(m[d.beadId := list + [d.dependsOn]], done + {d})
  {
    var m' := m[d.beadId := list + [d.dependsOn]];
    assert d == Dependency(d.beadId, d.dependsOn, BLOCKS);
    forall e | e in done + {d} ensures e.beadId in m' && e.dependsOn in m'[e.beadId] {
      if e.beadId == d.beadId {
        assert m'[d.beadId][|list|] == d.dependsOn;
      }
    }
    forall id, i | id in m' && 0 <= i < |m'[id]| ensures Dependency(id, m'[id][i], BLOCKS) in done + {d} {
      if id == d.beadId && i < |list| {
        assert m'[id][i] == m[id][i];
      }
    }
  }

  /** The rows of the join, appended to one list per bead. */
  method GetBlockedBy(st: Store, beadIDs: set<string>) returns (result: map<string, seq<string>>)
    ensures forall id :: id in result <==> id in beadIDs && Blockers(st, id) != {}
    ensures forall id :: id in result ==> forall x :: x in result[id] <==> x in Blockers(st, id)
    ensures forall id, x :: id in result && x in result[id] <==>
              && id in beadIDs && Dependency(id, x, "blocks") in st.deps && x in st.beads
              && st.beads[x].status in ["open", "in_progress", "blocked", "deferred"]
  {
    result := GroupRows(JoinRows(st, beadIDs));
    GroupedRows(st, beadIDs, result);
  }

  /** The loop over the rows, in any order. */
  method GroupRows(rows: set<Dependency>) returns (result: map<string, seq<string>>)
    requires forall d :: d in rows ==> d.typ == BLOCKS
    ensures Grouped(result, rows)
  {
    result := map[];
    var todo := rows;
    ghost var done := {};
    while todo != {}
      invariant done + todo == rows && Grouped(result, done)
      decreases |todo|
    {
      var d :| d in todo;
      var list := if d.beadId in result then result[d.beadId] else [];
      GroupStep(result, done, d, list);
      result := result[d.beadId := list + [d.dependsOn]];
      todo, done := todo - {d}, done + {d};
    }
    assert done == rows;
  }

  lemma GroupedRows(st: Store, beadIDs: set<string>, m: map<string, seq<string>>)
    requires Grouped(m, JoinRows(st, beadIDs))
    ensures forall id :: id in m <==> id in beadIDs && Blockers(st, id) != {}
    ensures forall id :: id in m ==> forall x :: x in m[id] <==> x in Blockers(st, id)
  {
    forall id | id in m ensures id in beadIDs && Blockers(st, id) != {} {
      assert Dependency(id, m[id][0], BLOCKS) in JoinRows(st, beadIDs);
    }
    forall id, x | id in beadIDs && x in Blockers(st, id) ensures id in m && x in m[id] {
      assert Dependency(id, x, BLOCKS) in JoinRows(st, beadIDs);
    }
    forall id, x | id in m && x in m[id] ensures x in Blockers(st, id) {
      var i :| 0 <= i < |m[id]| && m[id][i] == x;
      assert Dependency(id, m[id][i], BLOCKS) in JoinRows(st, beadIDs);
    }
  }

  /**
   In every store the server can reach, a bead is listed as ready exactly when the
   batch query returns no blocker for it. The two readings test different status
   lists; they agree because the validator keeps every status within its closed set.
   */
  lemma TwoReadingsAgree(types: Lifecycle.Types, ops: seq<Op>, id: string)
    ensures var st := Run(types, ops); Unready(st, id) <==> Blockers(st, id) != {}
  {
    var st := Run(types, ops);
    EveryRunIsSound(types, ops);
    if Unready(st, id) {
      var d :| d in st.deps && d.beadId == id && d.typ == BLOCKS
               && d.dependsOn in st.beads && st.beads[d.dependsOn].status != CLOSED;
      assert !Broken(st.beads[d.dependsOn], Status);
      assert d == Dependency(id, d.dependsOn, BLOCKS);
      assert d.dependsOn in Blockers(st, id);
    }
    if Blockers(st, id) != {} {
      var x :| x in Blockers(st, id);
      assert Dependency(id, x, BLOCKS) in st.deps;
    }
  }
}
