/**
 What a pour leaves behind: when it succeeds, that the new beads and edges are an
 exact image of the active steps, that acyclic steps give acyclic edges, and that
 burning the molecule right away restores the store.
 */
module MoleculeShape {
  import opened Wrappers
  import opened Beads
  import opened Store
  import opened Lifecycle
  import opened Molecules

  // ------------------------------------------------------------- the new beads

  /** The request is one the server accepts for an unused identifier. */
  predicate Asked(types: Types, id: string, in_: CreateInput, now: Time) {
    Creatable(types, EMPTY, id, in_, now)
  }

  function Row(types: Types, id: string, in_: CreateInput, now: Time): Bead
    requires Asked(types, id, in_, now)
  {
    NewBead(id, in_, types(Canonical(in_.typ)).value, now)
  }

  /** The identifiers lo..n-1. */
  function Ids(ids: seq<string>, lo: nat, n: nat): set<string>
    requires n <= |ids|
  {
    set k | lo <= k < n :: ids[k]
  }

  predicate DistinctUpTo(ids: seq<string>, n: nat)
    requires n <= |ids|
  {
    forall j, k :: 0 <= j < k < n ==> ids[j] != ids[k]
  }

  /** The first n identifiers are new to the store, distinct and not blank. */
  predicate Fresh(st: Store, ids: seq<string>, n: nat)
    requires n <= |ids|
  {
    && DistinctUpTo(ids, n)
    && forall k :: 0 <= k < n ==> ids[k] !in st.beads && ids[k] != ""
  }

  /** The parent-child edges of n children. */
  function Family(ids: seq<string>, n: nat): set<Dependency>
    requires n < |ids|
  {
    set k | 1 <= k <= n :: Dependency(ids[k], ids[0], PARENT_CHILD)
  }

  /** The labels of n children. */
  function Tags(kids: seq<Kid>, ids: seq<string>, n: nat): set<(string, string)>
    requires n <= |kids| < |ids|
  {
    if n == 0 then {} else Tags(kids, ids, n - 1) + LabelRows(ids[n], kids[n - 1].input.labels)
  }

  predicate KidsAsked(types: Types, kids: seq<Kid>, ids: seq<string>, clock: nat -> Time, n: nat)
    requires n <= |kids| < |ids|
  {
    n > 0 ==> KidsAsked(types, kids, ids, clock, n - 1) && Asked(types, ids[n], kids[n - 1].input, clock(n))
  }

  /** The rows of n children. */
  function KidRows(types: Types, kids: seq<Kid>, ids: seq<string>, clock: nat -> Time, n: nat): (rows: seq<Bead>)
    requires n <= |kids| < |ids| && KidsAsked(types, kids, ids, clock, n)
    ensures |rows| == n
  {
    if n == 0 then []
    else KidRows(types, kids, ids, clock, n - 1) + [Row(types, ids[n], kids[n - 1].input, clock(n))]
  }

  /** Rows added to a table under the identifiers from ids[1] on. */
  ghost predicate RowsAdded(before: map<string, Bead>, beads: map<string, Bead>, ids: seq<string>, rows: seq<Bead>)
    requires |rows| < |ids|
  {
    && beads.Keys == before.Keys + Ids(ids, 1, |rows| + 1)
    && (forall id :: id in before ==> beads[id] == before[id])
    && (forall k :: 1 <= k <= |rows| ==> ids[k] in beads && beads[ids[k]] == rows[k - 1])
  }

  /** `st` is `st1` with children of ids[0] added, one per row. */
  ghost predicate WithKids(st1: Store, st: Store, kids: seq<Kid>, ids: seq<string>, rows: seq<Bead>)
    requires |rows| <= |kids| < |ids|
  {
    && RowsAdded(st1.beads, st.beads, ids, rows)
    && st.labels == st1.labels + Tags(kids, ids, |rows|)
    && st.deps == st1.deps + Family(ids, |rows|)
    && st.gates == st1.gates
  }

  /** When a child can be created, and what then happens. */
  lemma OneKid(types: Types, st: Store, mol: string, id: string, in_: CreateInput, now: Time)
    requires Linked(st) && mol in st.beads && mol != ""
    ensures CreateKid(types, st, mol, id, in_, now).ok <==> Asked(types, id, in_, now) && id !in st.beads && id != ""
    ensures CreateKid(types, st, mol, id, in_, now).ok ==>
              CreateKid(types, st, mol, id, in_, now).st ==
              st.(beads := st.beads[id := Row(types, id, in_, now)], labels := st.labels + LabelRows(id, in_.labels),
                  deps := st.deps + {Dependency(id, mol, PARENT_CHILD)})
  {
    assert Creatable(types, st, id, in_, now) <==> Asked(types, id, in_, now) && id !in st.beads;
    var d := Dependency(id, mol, PARENT_CHILD);
    if id !in st.beads {
      assert d !in st.deps;
    }
  }

  lemma {:induction false} KidsMade(types: Types, st1: Store, kids: seq<Kid>, ids: seq<string>, clock: nat -> Time,
      n: nat)
    requires n <= |kids| < |ids| && Linked(st1) && ids[0] in st1.beads && ids[0] != ""
    requires DistinctUpTo(ids, n + 1) && forall k :: 1 <= k <= n ==> ids[k] !in st1.beads && ids[k] != ""
    ensures CreateKids(types, st1, kids, ids, clock, n).ok <==> KidsAsked(types, kids, ids, clock, n)
    ensures KidsAsked(types, kids, ids, clock, n) ==>
              var st := CreateKids(types, st1, kids, ids, clock, n).st;
              WithKids(st1, st, kids, ids, KidRows(types, kids, ids, clock, n)) && Linked(st)
  {
    if n == 0 {
      assert Ids(ids, 1, 1) == {} && Family(ids, 0) == {};
    } else {
      KidsMade(types, st1, kids, ids, clock, n - 1);
      var before := CreateKids(types, st1, kids, ids, clock, n - 1);
      if before.ok {
        NextKid(types, st1, before.st, kids, ids, clock, n);
      }
    }
  }

  lemma NextKid(types: Types, st1: Store, before: Store, kids: seq<Kid>, ids: seq<string>, clock: nat -> Time, n: nat)
    requires 0 < n <= |kids| < |ids| && ids[0] in st1.beads && ids[0] != ""
    requires DistinctUpTo(ids, n + 1) && forall k :: 1 <= k <= n ==> ids[k] !in st1.beads && ids[k] != ""
    requires KidsAsked(types, kids, ids, clock, n - 1) && Linked(before)
    requires WithKids(st1, before, kids, ids, KidRows(types, kids, ids, clock, n - 1))
    ensures var r := CreateKid(types, before, ids[0], ids[n], kids[n - 1].input, clock(n));
            && (r.ok <==> KidsAsked(types, kids, ids, clock, n))
            && (r.ok ==> WithKids(st1, r.st, kids, ids, KidRows(types, kids, ids, clock, n)) && Linked(r.st))
  {
    OneKid(types, before, ids[0], ids[n], kids[n - 1].input, clock(n));
    assert ids[n] !in before.beads;
    if KidsAsked(types, kids, ids, clock, n) {
      OneMoreKid(st1, before, kids, ids, KidRows(types, kids, ids, clock, n - 1),
                 Row(types, ids[n], kids[n - 1].input, clock(n)));
    }
  }

  lemma OneMoreKid(st1: Store, before: Store, kids: seq<Kid>, ids: seq<string>, rows: seq<Bead>, row: Bead)
    requires |rows| < |kids| < |ids| && WithKids(st1, before, kids, ids, rows) && Linked(before)
    requires ids[0] in st1.beads && ids[|rows| + 1] !in before.beads
    ensures var n := |rows| + 1;
            var st := before.(beads := before.beads[ids[n] := row],
                              labels := before.labels + LabelRows(ids[n], kids[n - 1].input.labels),
                              deps := before.deps + {Dependency(ids[n], ids[0], PARENT_CHILD)});
            WithKids(st1, st, kids, ids, rows + [row]) && Linked(st)
  {
    var n := |rows| + 1;
    OneMoreRow(st1.beads, before.beads, ids, rows, row);
    assert Family(ids, n) == Family(ids, n - 1) + {Dependency(ids[n], ids[0], PARENT_CHILD)};
    assert st1.deps + Family(ids, n) == before.deps + {Dependency(ids[n], ids[0], PARENT_CHILD)};
    assert st1.labels + Tags(kids, ids, n) == before.labels + LabelRows(ids[n], kids[n - 1].input.labels);
  }

  lemma OneMoreRow(before: map<string, Bead>, beads: map<string, Bead>, ids: seq<string>, rows: seq<Bead>, row: Bead)
    requires |rows| + 1 < |ids| && RowsAdded(before, beads, ids, rows) && ids[|rows| + 1] !in beads
    ensures RowsAdded(before, beads[ids[|rows| + 1] := row], ids, rows + [row])
  {
    var n := |rows| + 1;
    assert Ids(ids, 1, n + 1) == Ids(ids, 1, n) + {ids[n]};
  }

  // ------------------------------------------------------------- the new edges

  predicate DistinctSteps(kids: seq<Kid>) {
    forall i, j :: 0 <= i < j < |kids| ==> kids[i].stepId != kids[j].stepId
  }

  function StepsOf(kids: seq<Kid>): set<string> {
    set k | 0 <= k < |kids| :: kids[k].stepId
  }

  /** What creation's validation leaves true of the active steps. */
  predicate Sound(kids: seq<Kid>) {
    DistinctSteps(kids) && forall k, d :: 0 <= k < |kids| && d in kids[k].deps ==> d in StepsOf(kids)
  }

  lemma {:induction false} IdOfStep(kids: seq<Kid>, ids: seq<string>, n: nat)
    requires n <= |kids| < |ids| && DistinctSteps(kids)
    ensures forall k :: 0 <= k < n ==> IdOf(kids, ids, n)[kids[k].stepId] == ids[k + 1]
    ensures forall s :: s in IdOf(kids, ids, n) ==> exists k :: 0 <= k < n && kids[k].stepId == s
  {
    if n > 0 {
      IdOfStep(kids, ids, n - 1);
    }
  }

  /** The images of one child's dependencies. */
  function ImageOf(deps: seq<string>, from: string, idOf: map<string, string>): set<Dependency> {
    set d | d in deps && d in idOf :: Dependency(from, idOf[d], BLOCKS)
  }

  predicate Injective(m: map<string, string>) {
    forall a, b :: a in m && b in m && m[a] == m[b] ==> a == b
  }

  lemma {:induction false} DepsLinked(st: Store, from: string, deps: seq<string>, idOf: map<string, string>)
    requires from in st.beads && from != "" && Injective(idOf)
    requires forall s :: s in idOf ==> idOf[s] in st.beads && idOf[s] != ""
    requires forall d :: d in deps ==> d in idOf
    requires forall d :: d in st.deps && d.typ == BLOCKS ==> d.beadId != from
    ensures LinkDeps(st, from, deps, idOf).ok <==> Distinct(deps)
    ensures Distinct(deps) ==> LinkDeps(st, from, deps, idOf).st == st.(deps := st.deps + ImageOf(deps, from, idOf))
  {
    if deps != [] {
      var m := |deps| - 1;
      var front, d := deps[..m], deps[m];
      assert deps == front + [d];
      DepsLinked(st, from, front, idOf);
      var e := Dependency(from, idOf[d], BLOCKS);
      assert e in ImageOf(front, from, idOf) <==> d in front;
      assert ImageOf(deps, from, idOf) == ImageOf(front, from, idOf) + {e};
      assert Distinct(deps) <==> Distinct(front) && d !in front;
    }
  }

  function Images(kids: seq<Kid>, idOf: map<string, string>, n: nat): set<Dependency>
    requires n <= |kids| && forall k :: 0 <= k < |kids| ==> kids[k].stepId in idOf
  {
    if n == 0 then {} else Images(kids, idOf, n - 1) + ImageOf(kids[n - 1].deps, idOf[kids[n - 1].stepId], idOf)
  }

  lemma {:induction false} ImagesAre(kids: seq<Kid>, idOf: map<string, string>, n: nat)
    requires n <= |kids| && forall k :: 0 <= k < |kids| ==> kids[k].stepId in idOf
    ensures forall e :: e in Images(kids, idOf, n) <==>
              exists k, d :: 0 <= k < n && d in kids[k].deps && d in idOf &&
                  e == Dependency(idOf[kids[k].stepId], idOf[d], BLOCKS)
  {
    if n > 0 {
      ImagesAre(kids, idOf, n - 1);
    }
  }

  /** None of the first n children names a dependency twice. */
  predicate EachOnce(kids: seq<Kid>, n: nat)
    requires n <= |kids|
  {
    n > 0 ==> EachOnce(kids, n - 1) && Distinct(kids[n - 1].deps)
  }

  lemma {:induction false} KidsLinked(st: Store, kids: seq<Kid>, idOf: map<string, string>, n: nat)
    requires n <= |kids| && DistinctSteps(kids) && forall k :: 0 <= k < |kids| ==> kids[k].stepId in idOf
    requires Injective(idOf) && forall s :: s in idOf ==> idOf[s] in st.beads && idOf[s] != ""
    requires forall k, d :: 0 <= k < |kids| && d in kids[k].deps ==> d in idOf
    requires forall d, s :: d in st.deps && d.typ == BLOCKS && s in idOf ==> d.beadId != idOf[s]
    ensures LinkKids(st, kids, idOf, n).ok <==> EachOnce(kids, n)
    ensures EachOnce(kids, n) ==> LinkKids(st, kids, idOf, n).st == st.(deps := st.deps + Images(kids, idOf, n))
  {
    if n > 0 {
      KidsLinked(st, kids, idOf, n - 1);
      if EachOnce(kids, n - 1) {
        var deps := st.deps + Images(kids, idOf, n - 1);
        var from := idOf[kids[n - 1].stepId];
        NotLinkedYet(st, kids, idOf, n);
        DepsLinked(st.(deps := deps), from, kids[n - 1].deps, idOf);
        assert deps + ImageOf(kids[n - 1].deps, from, idOf) == st.deps + Images(kids, idOf, n);
      }
    }
  }

  /** No earlier child has put an edge where the n-th puts its own. */
  lemma NotLinkedYet(st: Store, kids: seq<Kid>, idOf: map<string, string>, n: nat)
    requires 0 < n <= |kids| && DistinctSteps(kids) && forall k :: 0 <= k < |kids| ==> kids[k].stepId in idOf
    requires Injective(idOf)
    requires forall d, s :: d in st.deps && d.typ == BLOCKS && s in idOf ==> d.beadId != idOf[s]
    ensures forall d :: d in st.deps + Images(kids, idOf, n - 1) && d.typ == BLOCKS ==>
        d.beadId != idOf[kids[n - 1].stepId]
  {
    ImagesAre(kids, idOf, n - 1);
  }

  // ---------------------------------------------------------------- the whole pour

  /** When a pour with fresh identifiers succeeds: every request is acceptable and no dependency is named twice. */
  predicate Pourable(types: Types, plan: Plan, ids: seq<string>, clock: nat -> Time)
    requires |plan.kids| < |ids|
  {
    && plan.kids != [] && Asked(types, ids[0], plan.mol, clock(0))
    && KidsAsked(types, plan.kids, ids, clock, |plan.kids|) && EachOnce(plan.kids, |plan.kids|)
  }

  /** A molecule and its children added to a table. */
  ghost predicate FamilyAdded(before: map<string, Bead>, beads: map<string, Bead>, ids: seq<string>, mol: Bead,
      rows: seq<Bead>)
    requires |rows| < |ids|
  {
    && beads.Keys == before.Keys + Ids(ids, 0, |rows| + 1)
    && (forall id :: id in before ==> beads[id] == before[id])
    && ids[0] in beads && beads[ids[0]] == mol
    && (forall k :: 1 <= k <= |rows| ==> ids[k] in beads && beads[ids[k]] == rows[k - 1])
  }

  lemma MoleculeFirst(before: map<string, Bead>, beads: map<string, Bead>, ids: seq<string>, mol: Bead, rows: seq<Bead>)
    requires |rows| < |ids| && ids[0] !in before && RowsAdded(before[ids[0] := mol], beads, ids, rows)
    ensures FamilyAdded(before, beads, ids, mol, rows)
  {
    var n, with := |rows|, before[ids[0] := mol];
    assert Ids(ids, 0, n + 1) == Ids(ids, 1, n + 1) + {ids[0]};
    assert with.Keys == before.Keys + {ids[0]};
    assert ids[0] in with;
    forall id | id in before ensures beads[id] == before[id] {
      assert id in with;
    }
  }

  /** `st` is `st0` with a molecule, its children and their edges added, and nothing else changed. */
  ghost predicate Image(st0: Store, st: Store, plan: Plan, ids: seq<string>, mol: Bead, rows: seq<Bead>)
    requires |plan.kids| == |rows| < |ids|
  {
    var n := |rows|;
    && FamilyAdded(st0.beads, st.beads, ids, mol, rows)
    && st.labels == st0.labels + LabelRows(ids[0], plan.mol.labels) + Tags(plan.kids, ids, n)
    && st.deps == st0.deps + Family(ids, n) + Images(plan.kids, IdOf(plan.kids, ids, n), n)
    && st.gates == st0.gates
  }

  /** The rows of the image are those of the plan's requests. */
  ghost predicate Poured(types: Types, st0: Store, st: Store, plan: Plan, ids: seq<string>, clock: nat -> Time)
    requires |plan.kids| < |ids| && Pourable(types, plan, ids, clock)
  {
    Image(st0, st, plan, ids, Row(types, ids[0], plan.mol, clock(0)),
          KidRows(types, plan.kids, ids, clock, |plan.kids|))
  }

  /** With fresh identifiers, a pour of sound steps succeeds exactly when it can, and leaves exactly its image. */
  lemma PourIs(types: Types, st0: Store, plan: Plan, ids: seq<string>, clock: nat -> Time)
    requires |plan.kids| < |ids| && Linked(st0) && Fresh(st0, ids, |plan.kids| + 1) && Sound(plan.kids)
    ensures Pour(types, st0, plan, ids, clock).ok <==> Pourable(types, plan, ids, clock)
    ensures Pourable(types, plan, ids, clock) ==>
        Poured(types, st0, Pour(types, st0, plan, ids, clock).st, plan, ids, clock)
  {
    var n := |plan.kids|;
    MoleculeMade(types, st0, ids[0], plan.mol, clock(0));
    if plan.kids != [] && Asked(types, ids[0], plan.mol, clock(0)) {
      var st1 := AfterCreate(types, st0, ids[0], plan.mol, clock(0));
      KidsMade(types, st1, plan.kids, ids, clock, n);
      if KidsAsked(types, plan.kids, ids, clock, n) {
        var st2 := CreateKids(types, st1, plan.kids, ids, clock, n).st;
        StepsLinked(st0, st1, st2, plan.kids, ids, KidRows(types, plan.kids, ids, clock, n));
        if EachOnce(plan.kids, n) {
          PutTogether(st0, st1, st2, plan, ids, Row(types, ids[0], plan.mol, clock(0)),
                      KidRows(types, plan.kids, ids, clock, n));
        }
      }
    }
  }

  lemma MoleculeMade(types: Types, st: Store, id: string, in_: CreateInput, now: Time)
    requires Linked(st) && id !in st.beads
    ensures Creatable(types, st, id, in_, now) <==> Asked(types, id, in_, now)
    ensures Asked(types, id, in_, now) ==>
              AfterCreate(types, st, id, in_, now) ==
              st.(beads := st.beads[id := Row(types, id, in_, now)], labels := st.labels + LabelRows(id, in_.labels))
    ensures Linked(AfterCreate(types, st, id, in_, now))
  {}

  lemma StepsLinked(st0: Store, st1: Store, st2: Store, kids: seq<Kid>, ids: seq<string>, rows: seq<Bead>)
    requires |rows| == |kids| < |ids| && Linked(st0) && Fresh(st0, ids, |kids| + 1) && Sound(kids)
    requires st1.deps == st0.deps && WithKids(st1, st2, kids, ids, rows)
    ensures var idOf := IdOf(kids, ids, |kids|);
            && (LinkKids(st2, kids, idOf, |kids|).ok <==> EachOnce(kids, |kids|))
            && (EachOnce(kids, |kids|) ==>
                  LinkKids(st2, kids, idOf, |kids|).st == st2.(deps := st2.deps + Images(kids, idOf, |kids|)))
  {
    var n := |kids|;
    var idOf := IdOf(kids, ids, n);
    IdOfStep(kids, ids, n);
    forall s | s in idOf ensures exists k :: 1 <= k <= n && idOf[s] == ids[k] {
      var k :| 0 <= k < n && kids[k].stepId == s;
      assert idOf[s] == ids[k + 1];
    }
    assert Injective(idOf);
    forall k, d | 0 <= k < n && d in kids[k].deps ensures d in idOf {
      assert d in StepsOf(kids);
    }
    forall d, s | d in st2.deps && d.typ == BLOCKS && s in idOf ensures d.beadId != idOf[s] {
      assert d in st0.deps;
      assert d.beadId in st0.beads;
    }
    KidsLinked(st2, kids, idOf, n);
  }

  lemma PutTogether(st0: Store, st1: Store, st2: Store, plan: Plan, ids: seq<string>, mol: Bead, rows: seq<Bead>)
    requires |plan.kids| == |rows| < |ids| && ids[0] !in st0.beads
    requires st1 == st0.(beads := st0.beads[ids[0] := mol], labels := st0.labels + LabelRows(ids[0], plan.mol.labels))
    requires WithKids(st1, st2, plan.kids, ids, rows)
    ensures var idOf := IdOf(plan.kids, ids, |rows|);
            Image(st0, st2.(deps := st2.deps + Images(plan.kids, idOf, |rows|)), plan, ids, mol, rows)
  {
    MoleculeFirst(st0.beads, st2.beads, ids, mol, rows);
    assert st2.deps == st0.deps + Family(ids, |rows|);
  }
}
