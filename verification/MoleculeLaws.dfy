/**
 The laws of a molecule: its edges are exactly those of the active steps, acyclic
 steps make acyclic edges, and burning it right away restores the store
 (cmd/kd/formula_apply.go, cmd/kd/mol_burn.go).
 */
module MoleculeLaws {
  import opened Templates
  import opened Beads
  import opened Store
  import opened Lifecycle
  import opened BeadServer
  import opened Formula
  import opened Molecules
  import opened MoleculeShape

  /** The store after a successful pour, as the shape lemmas describe it. */
  ghost predicate Settled(st0: Store, st: Store, plan: Plan, ids: seq<string>, mol: Bead, rows: seq<Bead>) {
    && |plan.kids| == |rows| < |ids|
    && Linked(st0) && Fresh(st0, ids, |rows| + 1) && Sound(plan.kids)
    && Image(st0, st, plan, ids, mol, rows)
  }

  // ----------------------------------------------------- the edges of the image

  /** The edges alone: those of a table over some beads, and the image of the children's. */
  ghost predicate EdgeImage(old0: set<string>, deps0: set<Dependency>, deps: set<Dependency>, kids: seq<Kid>,
      ids: seq<string>) {
    && |kids| < |ids| && DistinctSteps(kids) && DistinctUpTo(ids, |kids| + 1)
    && (forall k :: 0 <= k <= |kids| ==> ids[k] !in old0)
    && (forall d :: d in deps0 ==> d.beadId in old0 && d.dependsOn in old0)
    && deps == deps0 + Family(ids, |kids|) + Images(kids, IdOf(kids, ids, |kids|), |kids|)
  }

  lemma SettledEdges(st0: Store, st: Store, plan: Plan, ids: seq<string>, mol: Bead, rows: seq<Bead>)
    requires Settled(st0, st, plan, ids, mol, rows)
    ensures EdgeImage(st0.beads.Keys, st0.deps, st.deps, plan.kids, ids)
  {}

  lemma EdgeOfSteps(kids: seq<Kid>, ids: seq<string>, e: Dependency) returns (i: nat, j: nat)
    requires |kids| < |ids| && DistinctSteps(kids)
    requires e in Images(kids, IdOf(kids, ids, |kids|), |kids|)
    ensures i < |kids| && j < |kids| && e == Dependency(ids[i + 1], ids[j + 1], BLOCKS)
    ensures kids[j].stepId in kids[i].deps
  {
    var idOf := IdOf(kids, ids, |kids|);
    ImagesAre(kids, idOf, |kids|);
    var k, d :| 0 <= k < |kids| && d in kids[k].deps && d in idOf &&
        e == Dependency(idOf[kids[k].stepId], idOf[d], BLOCKS);
    i := k;
    j := StepNamed(kids, ids, d);
    IdOfStep(kids, ids, |kids|);
  }

  lemma StepNamed(kids: seq<Kid>, ids: seq<string>, d: string) returns (j: nat)
    requires |kids| < |ids| && DistinctSteps(kids) && d in IdOf(kids, ids, |kids|)
    ensures j < |kids| && kids[j].stepId == d
  {
    IdOfStep(kids, ids, |kids|);
    var m :| 0 <= m < |kids| && kids[m].stepId == d;
    j := m;
  }

  lemma StepsOfEdge(kids: seq<Kid>, ids: seq<string>, i: nat, j: nat)
    requires |kids| < |ids| && DistinctSteps(kids) && i < |kids| && j < |kids| && kids[j].stepId in kids[i].deps
    ensures Dependency(ids[i + 1], ids[j + 1], BLOCKS) in Images(kids, IdOf(kids, ids, |kids|), |kids|)
  {
    var n := |kids|;
    var idOf := IdOf(kids, ids, n);
    ImagesAre(kids, idOf, n);
    IdOfStep(kids, ids, n);
    assert idOf[kids[i].stepId] == ids[i + 1] && idOf[kids[j].stepId] == ids[j + 1];
  }

  /** A blocks edge joins two children exactly when the one's step waits for the other's. */
  lemma BlocksExactly(old0: set<string>, deps0: set<Dependency>, deps: set<Dependency>, kids: seq<Kid>,
      ids: seq<string>, i: nat, j: nat)
    requires EdgeImage(old0, deps0, deps, kids, ids) && i < |kids| && j < |kids|
    ensures Dependency(ids[i + 1], ids[j + 1], BLOCKS) in deps <==> kids[j].stepId in kids[i].deps
  {
    var e := Dependency(ids[i + 1], ids[j + 1], BLOCKS);
    assert e !in deps0;
    if e in deps {
      var a, b := EdgeOfSteps(kids, ids, e);
      assert a == i && b == j;
    }
    if kids[j].stepId in kids[i].deps {
      StepsOfEdge(kids, ids, i, j);
    }
  }

  /** The new edges are parent-child edges from children to the molecule and blocks edges between children. */
  lemma NewEdges(old0: set<string>, deps0: set<Dependency>, deps: set<Dependency>, kids: seq<Kid>, ids: seq<string>,
      e: Dependency)
    requires EdgeImage(old0, deps0, deps, kids, ids) && e in deps && e !in deps0
    ensures e.beadId in Ids(ids, 1, |kids| + 1)
    ensures || (e.typ == PARENT_CHILD && e.dependsOn == ids[0])
            || (e.typ == BLOCKS && e.dependsOn in Ids(ids, 1, |kids| + 1))
  {
    if e !in Family(ids, |kids|) {
      var i, j := EdgeOfSteps(kids, ids, e);
    }
  }

  function ChildrenIn(deps: set<Dependency>, id: string): set<string> {
    set d | d in deps && d.dependsOn == id && d.typ == PARENT_CHILD :: d.beadId
  }

  function Children(st: Store, id: string): set<string> {
    ChildrenIn(st.deps, id)
  }

  /** The molecule's children are the new beads but itself, and each has it as its only parent. */
  lemma ChildrenAreSteps(old0: set<string>, deps0: set<Dependency>, deps: set<Dependency>, kids: seq<Kid>,
      ids: seq<string>)
    requires EdgeImage(old0, deps0, deps, kids, ids)
    ensures ChildrenIn(deps, ids[0]) == Ids(ids, 1, |kids| + 1)
    ensures forall d :: d in deps && d.typ == PARENT_CHILD && d.beadId in Ids(ids, 1, |kids| + 1) ==>
        d.dependsOn == ids[0]
  {
    forall c ensures c in ChildrenIn(deps, ids[0]) <==> c in Ids(ids, 1, |kids| + 1) {
      var d := Dependency(c, ids[0], PARENT_CHILD);
      if c in ChildrenIn(deps, ids[0]) {
        assert d in deps && d !in deps0;
        NewEdges(old0, deps0, deps, kids, ids, d);
      }
      if c in Ids(ids, 1, |kids| + 1) {
        assert d in Family(ids, |kids|);
      }
    }
    forall d | d in deps && d.typ == PARENT_CHILD && d.beadId in Ids(ids, 1, |kids| + 1) ensures d.dependsOn == ids[0] {
      assert d !in deps0;
      NewEdges(old0, deps0, deps, kids, ids, d);
    }
  }

  // --------------------------------------------------- back to the formula's steps

  /** The active steps of a formula that passed creation are sound, and wait for each other as written. */
  lemma ActiveDeps(f: FormulaBead, vars: Vars, p: nat, i: nat)
    requires WellFormed(f.steps) && p < |ActiveOf(f, vars)| && i < |f.steps|
    requires ActiveOf(f, vars)[p].id == f.steps[i].id
    ensures !Skipped(f.steps[i], vars)
    ensures forall d :: d in ActiveOf(f, vars)[p].dependsOn <==>
        d in f.steps[i].dependsOn && d !in SkippedIds(f.steps, vars)
  {
    var gone, a := SkippedIds(f.steps, vars), ActiveOf(f, vars)[p];
    ActiveSteps(f.steps, vars, gone);
    assert a in ActiveOf(f, vars);
    var k :| 0 <= k < |f.steps| && !Skipped(f.steps[k], vars) && a == ActiveForm(f.steps[k], vars, gone);
    assert k == i;
    KeptDeps(f.steps[i].dependsOn, gone);
  }

  lemma ActiveFound(f: FormulaBead, vars: Vars, d: string) returns (p: nat)
    requires WellFormed(f.steps) && d in StepIds(f.steps) && d !in SkippedIds(f.steps, vars)
    ensures p < |ActiveOf(f, vars)| && ActiveOf(f, vars)[p].id == d
  {
    var gone := SkippedIds(f.steps, vars);
    var i :| 0 <= i < |f.steps| && f.steps[i].id == d;
    assert !Skipped(f.steps[i], vars);
    ActiveSteps(f.steps, vars, gone);
    var a := ActiveForm(f.steps[i], vars, gone);
    assert a in ActiveOf(f, vars);
    p :| p < |ActiveOf(f, vars)| && ActiveOf(f, vars)[p] == a;
  }

  lemma OriginOf(f: FormulaBead, vars: Vars, p: nat) returns (i: nat)
    requires WellFormed(f.steps) && p < |ActiveOf(f, vars)|
    ensures i < |f.steps| && f.steps[i].id == ActiveOf(f, vars)[p].id && !Skipped(f.steps[i], vars)
  {
    var gone, a := SkippedIds(f.steps, vars), ActiveOf(f, vars)[p];
    ActiveSteps(f.steps, vars, gone);
    assert a in ActiveOf(f, vars);
    i :| 0 <= i < |f.steps| && !Skipped(f.steps[i], vars) && a == ActiveForm(f.steps[i], vars, gone);
  }

  lemma PlanIsSound(f: FormulaBead, opts: Options, vars: Vars, fields: Fields)
    requires WellFormed(f.steps)
    ensures Sound(PlanOf(f, opts, vars, fields).kids)
  {
    var active, kids := ActiveOf(f, vars), PlanOf(f, opts, vars, fields).kids;
    ActiveSteps(f.steps, vars, SkippedIds(f.steps, vars));
    forall k, d | 0 <= k < |kids| && d in kids[k].deps ensures d in StepsOf(kids) {
      var i := OriginOf(f, vars, k);
      ActiveDeps(f, vars, k, i);
      assert DepsKnown(f.steps[i], StepIds(f.steps));
      var p := ActiveFound(f, vars, d);
      assert kids[p].stepId == d;
    }
  }

  /**
   Pouring a formula that passed creation, with fresh identifiers: it succeeds
   exactly when its requests are acceptable and no active step names a dependency
   twice, and then the store holds exactly the image of the active steps.
   */
  lemma PourIsExactImage(types: Types, st0: Store, f: FormulaBead, opts: Options, vars: Vars, fields: Fields,
      ids: seq<string>, clock: nat -> Time)
    requires WellFormed(f.steps) && Linked(st0)
    requires |ActiveOf(f, vars)| < |ids| && Fresh(st0, ids, |ActiveOf(f, vars)| + 1)
    ensures var plan := PlanOf(f, opts, vars, fields);
            var r := Pour(types, st0, plan, ids, clock);
            && (r.ok <==> Pourable(types, plan, ids, clock))
            && (r.ok ==> Settled(st0, r.st, plan, ids, Row(types, ids[0], plan.mol, clock(0)),
                                 KidRows(types, plan.kids, ids, clock, |plan.kids|)))
  {
    PlanIsSound(f, opts, vars, fields);
    PourSettles(types, st0, PlanOf(f, opts, vars, fields), ids, clock);
  }

  lemma PourSettles(types: Types, st0: Store, plan: Plan, ids: seq<string>, clock: nat -> Time)
    requires |plan.kids| < |ids| && Linked(st0) && Fresh(st0, ids, |plan.kids| + 1) && Sound(plan.kids)
    ensures var r := Pour(types, st0, plan, ids, clock);
            && (r.ok <==> Pourable(types, plan, ids, clock))
            && (r.ok ==> Settled(st0, r.st, plan, ids, Row(types, ids[0], plan.mol, clock(0)),
                                 KidRows(types, plan.kids, ids, clock, |plan.kids|)))
  {
    PourIs(types, st0, plan, ids, clock);
  }

  /** The p-th and the q-th child are joined exactly when the step of the one waits for the step of the other. */
  lemma EdgesFollowSteps(st0: Store, st: Store, f: FormulaBead, opts: Options, vars: Vars, fields: Fields,
      ids: seq<string>, mol: Bead, rows: seq<Bead>, p: nat, q: nat, i: nat, j: nat)
    requires WellFormed(f.steps) && Settled(st0, st, PlanOf(f, opts, vars, fields), ids, mol, rows)
    requires p < |rows| && q < |rows| && i < |f.steps| && j < |f.steps|
    requires ActiveOf(f, vars)[p].id == f.steps[i].id && ActiveOf(f, vars)[q].id == f.steps[j].id
    ensures Dependency(ids[p + 1], ids[q + 1], BLOCKS) in st.deps <==> f.steps[j].id in f.steps[i].dependsOn
  {
    var kids := PlanOf(f, opts, vars, fields).kids;
    SettledEdges(st0, st, PlanOf(f, opts, vars, fields), ids, mol, rows);
    BlocksExactly(st0.beads.Keys, st0.deps, st.deps, kids, ids, p, q);
    DepsAsWritten(f, vars, p, q, i, j);
  }

  lemma DepsAsWritten(f: FormulaBead, vars: Vars, p: nat, q: nat, i: nat, j: nat)
    requires WellFormed(f.steps) && p < |ActiveOf(f, vars)| && q < |ActiveOf(f, vars)| && i < |f.steps| && j < |f.steps|
    requires ActiveOf(f, vars)[p].id == f.steps[i].id && ActiveOf(f, vars)[q].id == f.steps[j].id
    ensures ActiveOf(f, vars)[q].id in ActiveOf(f, vars)[p].dependsOn <==> f.steps[j].id in f.steps[i].dependsOn
  {
    ActiveDeps(f, vars, p, i);
    ActiveDeps(f, vars, q, j);
    forall k | 0 <= k < |f.steps| && Skipped(f.steps[k], vars) ensures f.steps[k].id != f.steps[j].id {
      assert k != j;
    }
  }

  /** The label rows of one child are those of its request. */
  lemma {:induction false} TagsAre(kids: seq<Kid>, ids: seq<string>, n: nat, k: nat, l: string)
    requires n <= |kids| < |ids| && DistinctUpTo(ids, n + 1) && 1 <= k <= n
    ensures (ids[k], l) in Tags(kids, ids, n) <==> l in kids[k - 1].input.labels
  {
    TagsOfIds(kids, ids, n - 1);
    if k < n {
      TagsAre(kids, ids, n - 1, k, l);
    }
  }

  /** In the poured store a child has the labels of formula, command line, step and roles, and no others. */
  lemma ChildLabels(st0: Store, st: Store, f: FormulaBead, opts: Options, vars: Vars, fields: Fields,
      ids: seq<string>, mol: Bead, rows: seq<Bead>, p: nat, l: string)
    requires Settled(st0, st, PlanOf(f, opts, vars, fields), ids, mol, rows) && p < |rows|
    ensures var s := ActiveOf(f, vars)[p];
            (ids[p + 1], l) in st.labels <==>
            l in f.labels || l in opts.labels || l in s.labels || exists r :: HasRole(f, s, r) && l == "role:" + r
  {
    LabelsOfChild(st0, st, PlanOf(f, opts, vars, fields), ids, mol, rows, p, l);
    LabelOfKid(f, opts, ActiveOf(f, vars)[p], l);
  }

  lemma LabelOfKid(f: FormulaBead, opts: Options, s: Step, l: string)
    ensures l in KidInput(f, opts, s).labels <==>
            l in f.labels || l in opts.labels || l in s.labels || exists r :: HasRole(f, s, r) && l == "role:" + r
  {
    KidLabels(f, opts, s);
  }

  lemma LabelsOfChild(st0: Store, st: Store, plan: Plan, ids: seq<string>, mol: Bead, rows: seq<Bead>, p: nat,
      l: string)
    requires Settled(st0, st, plan, ids, mol, rows) && p < |rows|
    ensures (ids[p + 1], l) in st.labels <==> l in plan.kids[p].input.labels
  {
    TagsAre(plan.kids, ids, |rows|, p + 1, l);
    assert ids[p + 1] != ids[0] && ids[p + 1] !in st0.beads;
  }

  // ---------------------------------------------------------------- acyclicity

  /** A path along blocks edges, from each bead to one it waits for. */
  predicate Walk(deps: set<Dependency>, path: seq<string>) {
    |path| >= 2 && forall i :: 0 <= i < |path| - 1 ==> Dependency(path[i], path[i + 1], BLOCKS) in deps
  }

  ghost predicate Cyclic(deps: set<Dependency>) {
    exists path :: Walk(deps, path) && path[0] == path[|path| - 1]
  }

  predicate Waits(steps: seq<Step>, a: string, b: string) {
    exists i :: 0 <= i < |steps| && steps[i].id == a && b in steps[i].dependsOn
  }

  predicate StepWalk(steps: seq<Step>, path: seq<string>) {
    |path| >= 2 && forall i :: 0 <= i < |path| - 1 ==> Waits(steps, path[i], path[i + 1])
  }

  ghost predicate CyclicSteps(steps: seq<Step>) {
    exists path :: StepWalk(steps, path) && path[0] == path[|path| - 1]
  }

  /** Acyclic steps poured into a store without a cycle leave it without a cycle. */
  lemma PourKeepsAcyclic(st0: Store, st: Store, f: FormulaBead, opts: Options, vars: Vars, fields: Fields,
      ids: seq<string>, mol: Bead, rows: seq<Bead>)
    requires WellFormed(f.steps) && Settled(st0, st, PlanOf(f, opts, vars, fields), ids, mol, rows)
    requires !CyclicSteps(f.steps) && !Cyclic(st0.deps)
    ensures !Cyclic(st.deps)
  {
    var kids := PlanOf(f, opts, vars, fields).kids;
    SettledEdges(st0, st, PlanOf(f, opts, vars, fields), ids, mol, rows);
    KidsWait(f, opts, vars, fields);
    if path :| Walk(st.deps, path) && path[0] == path[|path| - 1] {
      if path[0] in st0.beads {
        OldWalk(st0.beads.Keys, st0.deps, st.deps, kids, ids, path);
      } else {
        var steps := NewWalk(st0.beads.Keys, st0.deps, st.deps, kids, ids, f.steps, path);
      }
    }
  }

  /** A walk that starts at an old bead was there before. */
  lemma OldWalk(old0: set<string>, deps0: set<Dependency>, deps: set<Dependency>, kids: seq<Kid>, ids: seq<string>,
      path: seq<string>)
    requires EdgeImage(old0, deps0, deps, kids, ids) && Walk(deps, path) && path[0] in old0
    ensures Walk(deps0, path)
  {
    for n := 1 to |path|
      invariant path[n - 1] in old0
      invariant forall i :: 0 <= i < n - 1 ==> Dependency(path[i], path[i + 1], BLOCKS) in deps0
    {
      var e := Dependency(path[n - 1], path[n], BLOCKS);
      assert e in deps;
      if e !in deps0 {
        NewEdges(old0, deps0, deps, kids, ids, e);
      }
    }
  }

  /** The children's dependencies are dependencies of the formula's steps. */
  ghost predicate WaitLike(kids: seq<Kid>, steps: seq<Step>) {
    forall i, j :: 0 <= i < |kids| && 0 <= j < |kids| && kids[j].stepId in kids[i].deps ==>
      Waits(steps, kids[i].stepId, kids[j].stepId)
  }

  /** The steps along a walk of new beads: at[k] is the child the walk visits k-th. */
  ghost predicate Along(kids: seq<Kid>, ids: seq<string>, path: seq<string>, at: seq<nat>) {
    |at| <= |path| && |kids| < |ids| && forall k :: 0 <= k < |at| ==> at[k] < |kids| && path[k] == ids[at[k] + 1]
  }

  /** A walk that starts at a new bead is a walk of steps. */
  lemma NewWalk(old0: set<string>, deps0: set<Dependency>, deps: set<Dependency>, kids: seq<Kid>, ids: seq<string>,
      fsteps: seq<Step>, path: seq<string>) returns (steps: seq<string>)
    requires EdgeImage(old0, deps0, deps, kids, ids) && WaitLike(kids, fsteps)
    requires Walk(deps, path) && path[0] !in old0
    ensures StepWalk(fsteps, steps)
    ensures path[0] == path[|path| - 1] ==> steps[0] == steps[|steps| - 1]
  {
    var at := Visits(old0, deps0, deps, kids, ids, path);
    steps := seq(|path|, k requires 0 <= k < |path| => kids[at[k]].stepId);
    forall k | 0 <= k < |steps| - 1 ensures Waits(fsteps, steps[k], steps[k + 1]) {
      BlocksExactly(old0, deps0, deps, kids, ids, at[k], at[k + 1]);
      assert Dependency(path[k], path[k + 1], BLOCKS) in deps;
    }
    if path[0] == path[|path| - 1] {
      assert at[0] == at[|path| - 1];
    }
  }

  lemma Visits(old0: set<string>, deps0: set<Dependency>, deps: set<Dependency>, kids: seq<Kid>, ids: seq<string>,
      path: seq<string>) returns (at: seq<nat>)
    requires EdgeImage(old0, deps0, deps, kids, ids) && Walk(deps, path) && path[0] !in old0
    ensures |at| == |path| && Along(kids, ids, path, at)
  {
    var i0, j0 := NewEdge(old0, deps0, deps, kids, ids, path[0], path[1]);
    at := [i0];
    for n := 1 to |path|
      invariant |at| == n && Along(kids, ids, path, at)
    {
      assert path[n - 1] == ids[at[n - 1] + 1];
      var i, j := NewEdge(old0, deps0, deps, kids, ids, path[n - 1], path[n]);
      at := at + [j];
    }
  }

  lemma NewEdge(old0: set<string>, deps0: set<Dependency>, deps: set<Dependency>, kids: seq<Kid>, ids: seq<string>,
      x: string, y: string)
      returns (i: nat, j: nat)
    requires EdgeImage(old0, deps0, deps, kids, ids)
    requires x !in old0 && Dependency(x, y, BLOCKS) in deps
    ensures i < |kids| && j < |kids| && x == ids[i + 1] && y == ids[j + 1]
  {
    i, j := EdgeOfSteps(kids, ids, Dependency(x, y, BLOCKS));
  }

  lemma KidsWait(f: FormulaBead, opts: Options, vars: Vars, fields: Fields)
    requires WellFormed(f.steps)
    ensures WaitLike(PlanOf(f, opts, vars, fields).kids, f.steps)
  {
    var kids := PlanOf(f, opts, vars, fields).kids;
    forall i, j | 0 <= i < |kids| && 0 <= j < |kids| && kids[j].stepId in kids[i].deps
      ensures Waits(f.steps, kids[i].stepId, kids[j].stepId)
    {
      var k := OriginOf(f, vars, i);
      ActiveDeps(f, vars, i, k);
    }
  }

  // ---------------------------------------------------------------------- burn

  /** The store without some beads and everything that refers to them. */
  function Without(st: Store, gone: set<string>): Store {
    st.(beads := st.beads - gone,
        labels := (set l | l in st.labels && l.0 !in gone),
        deps := (set d | d in st.deps && d.beadId !in gone && d.dependsOn !in gone),
        gates := (map k | k in st.gates && k.0 !in gone :: st.gates[k]))
  }

  datatype BurnResult = Burned | Shown | Refused | Failed

  predicate Burnable(st: Store, id: string) {
    id in st.beads && st.beads[id].typ == "molecule"
  }

  /** kd mol burn: the children in any order, then the molecule. */
  method Burn(server: Server, id: string, dryRun: bool, force: bool) returns (r: BurnResult)
    requires Linked(server.st)
    modifies server
    ensures !Burnable(old(server.st), id) ==> r == Failed
    ensures Burnable(old(server.st), id) ==>
              r == if dryRun then Shown
                   else if !force && Children(old(server.st), id) != {} then Refused
                   else if id in Children(old(server.st), id) then Failed
                   else Burned
    ensures server.st == if Burnable(old(server.st), id) && !dryRun && (force || Children(old(server.st), id) == {})
                         then Without(old(server.st), Children(old(server.st), id) + {id})
                         else old(server.st)
    ensures r == Burned ==>
              forall x :: x in old(server.st).beads && x !in server.st.beads <==>
                x == id || Dependency(x, id, "parent-child") in old(server.st).deps
  {
    if id !in server.st.beads || server.st.beads[id].typ != "molecule" {
      return Failed;
    }
    ghost var st := server.st;
    var children := Children(server.st, id);
    if dryRun {
      return Shown;
    }
    if !force && children != {} {
      return Refused;
    }
    DeleteAll(server, children);
    assert id in server.st.beads <==> id !in children;
    var ok := server.DeleteBead(id);
    WithoutBoth(st, children, {id});
    assert server.st == Without(st, children + {id}) by {
      if id !in children {
        WithoutOne(Without(st, children), id);
      } else {
        assert children + {id} == children;
      }
    }
    return if ok then Burned else Failed;
  }

  /** The loop over the children; each is there when its turn comes. */
  method DeleteAll(server: Server, children: set<string>)
    requires children <= server.st.beads.Keys
    modifies server
    ensures server.st == Without(old(server.st), children)
  {
    ghost var st := server.st;
    var todo := children;
    NoneGone(st);
    while todo != {}
      invariant todo <= children
      invariant server.st == Without(st, children - todo)
      decreases |todo|
    {
      var cid :| cid in todo;
      var ok := server.DeleteBead(cid);
      WithoutOne(Without(st, children - todo), cid);
      WithoutBoth(st, children - todo, {cid});
      assert children - todo + {cid} == children - (todo - {cid});
      todo := todo - {cid};
    }
    assert children - todo == children;
  }

  lemma NoneGone(st: Store)
    ensures Without(st, {}) == st
  {
    assert st.beads - {} == st.beads;
    assert (map k | k in st.gates && k.0 !in {} :: st.gates[k]) == st.gates;
  }

  lemma WithoutOne(st: Store, id: string)
    requires id in st.beads
    ensures AfterDelete(st, id) == Without(st, {id})
  {}

  lemma WithoutBoth(st: Store, a: set<string>, b: set<string>)
    ensures Without(Without(st, a), b) == Without(st, a + b)
  {
    assert st.beads - a - b == st.beads - (a + b);
  }

  /** A forced burn of what was just poured is carried out. */
  lemma BurnRuns(st0: Store, st: Store, plan: Plan, ids: seq<string>, mol: Bead, rows: seq<Bead>)
    requires Settled(st0, st, plan, ids, mol, rows) && mol.typ == "molecule"
    ensures Linked(st) && Burnable(st, ids[0]) && ids[0] !in Children(st, ids[0])
  {
    SettledEdges(st0, st, plan, ids, mol, rows);
    ChildrenAreSteps(st0.beads.Keys, st0.deps, st.deps, plan.kids, ids);
    TagsOfIds(plan.kids, ids, |rows|);
    forall d | d in st.deps ensures d.beadId in st.beads && d.dependsOn in st.beads {
      if d !in st0.deps {
        NewEdges(st0.beads.Keys, st0.deps, st.deps, plan.kids, ids, d);
      }
    }
    forall l | l in st.labels ensures l.0 in st.beads {
      assert l in st0.labels || l.0 == ids[0] || l in Tags(plan.kids, ids, |rows|);
    }
  }

  /** Burning what was just poured restores every table. */
  lemma BurnUndoesPour(st0: Store, st: Store, plan: Plan, ids: seq<string>, mol: Bead, rows: seq<Bead>)
    requires Settled(st0, st, plan, ids, mol, rows)
    ensures Without(st, Children(st, ids[0]) + {ids[0]}) == st0
  {
    SettledEdges(st0, st, plan, ids, mol, rows);
    WholeFamily(st0.beads.Keys, st0.deps, st.deps, plan.kids, ids);
    AllRestored(st0, st, plan, ids, mol, rows);
  }

  lemma WholeFamily(old0: set<string>, deps0: set<Dependency>, deps: set<Dependency>, kids: seq<Kid>, ids: seq<string>)
    requires EdgeImage(old0, deps0, deps, kids, ids)
    ensures ChildrenIn(deps, ids[0]) + {ids[0]} == Ids(ids, 0, |kids| + 1)
  {
    ChildrenAreSteps(old0, deps0, deps, kids, ids);
    assert Ids(ids, 1, |kids| + 1) + {ids[0]} == Ids(ids, 0, |kids| + 1);
  }

  lemma AllRestored(st0: Store, st: Store, plan: Plan, ids: seq<string>, mol: Bead, rows: seq<Bead>)
    requires Settled(st0, st, plan, ids, mol, rows)
    ensures Without(st, Ids(ids, 0, |rows| + 1)) == st0
  {
    SettledEdges(st0, st, plan, ids, mol, rows);
    BeadsRestored(st0, st, plan, ids, mol, rows);
    EdgesRestored(st0.beads.Keys, st0.deps, st.deps, plan.kids, ids);
    assert Without(st, Ids(ids, 0, |rows| + 1)).gates == st0.gates;
  }

  lemma BeadsRestored(st0: Store, st: Store, plan: Plan, ids: seq<string>, mol: Bead, rows: seq<Bead>)
    requires Settled(st0, st, plan, ids, mol, rows)
    ensures var gone := Ids(ids, 0, |rows| + 1);
            st.beads - gone == st0.beads && (set l | l in st.labels && l.0 !in gone) == st0.labels
  {
    TagsOfIds(plan.kids, ids, |rows|);
    var gone := Ids(ids, 0, |rows| + 1);
    assert st.beads - gone == st0.beads;
    forall l ensures l in st.labels && l.0 !in gone <==> l in st0.labels {}
  }

  lemma EdgesRestored(old0: set<string>, deps0: set<Dependency>, deps: set<Dependency>, kids: seq<Kid>,
      ids: seq<string>)
    requires EdgeImage(old0, deps0, deps, kids, ids)
    ensures var gone := Ids(ids, 0, |kids| + 1);
            (set d | d in deps && d.beadId !in gone && d.dependsOn !in gone) == deps0
  {
    var gone := Ids(ids, 0, |kids| + 1);
    forall d ensures d in deps && d.beadId !in gone && d.dependsOn !in gone <==> d in deps0 {
      if d in deps && d !in deps0 {
        NewEdges(old0, deps0, deps, kids, ids, d);
      }
    }
  }

  lemma {:induction false} TagsOfIds(kids: seq<Kid>, ids: seq<string>, n: nat)
    requires n <= |kids| < |ids|
    ensures forall l :: l in Tags(kids, ids, n) ==> l.0 in Ids(ids, 1, n + 1)
  {
    if n > 0 {
      TagsOfIds(kids, ids, n - 1);
    }
  }
}
