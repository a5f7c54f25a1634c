/**
 What a successful pour leaves in the tables, step by step of the formula as it is
 written (cmd/kd/formula_apply.go).
 */
module MoleculeSteps {
  import opened Wrappers
  import opened Templates
  import opened Beads
  import opened Store
  import opened Lifecycle
  import opened Formula
  import opened Molecules
  import opened MoleculeShape
  import opened MoleculeLaws

  /** The step has no condition or its condition holds. */
  predicate Remains(s: Step, vars: Vars) {
    s.condition == "" || EvaluateCondition(s.condition, vars)
  }

  predicate Ascending(at: seq<nat>) {
    forall j, k :: 0 <= j < k < |at| ==> at[j] < at[k]
  }

  /** The numbers, in order, of the steps that remain. */
  ghost predicate RemainAt(at: seq<nat>, steps: seq<Step>, vars: Vars) {
    Ascending(at) && forall i: nat :: i in at <==> i < |steps| && Remains(steps[i], vars)
  }

  predicate Untouched(b: Bead) {
    && b.status == "open" && b.notes == "" && b.owner == "" && b.closedAt == None && b.closedBy == ""
    && b.dueAt == None && b.deferUntil == None
  }

  /** The bead of a step: what the step says, with the formula's and the command's defaults. */
  predicate BeadOfStep(b: Bead, s: Step, f: FormulaBead, opts: Options, vars: Vars) {
    var own := SubstituteVars(s.assignee, vars);
    && b.title == SubstituteVars(s.title, vars) && b.description == SubstituteVars(s.description, vars)
    && b.typ == (if s.typ == "" then "task" else if s.typ == "template" then "formula"
                 else if s.typ == "bundle" then "molecule" else s.typ)
    && b.priority == (if s.priority.Some? then s.priority.value else f.priority)
    && b.assignee == (if own != "" then own else if opts.assignee != "" then opts.assignee else f.assignedAgent)
    && b.createdBy == opts.actor && b.fields == NoFields && Untouched(b)
  }

  predicate BeadOfFormula(b: Bead, f: FormulaBead, opts: Options, vars: Vars, fields: Fields) {
    && b.title == SubstituteVars(f.title, vars) && b.description == SubstituteVars(f.description, vars)
    && b.typ == "molecule" && b.priority == f.priority
    && b.assignee == (if opts.assignee != "" then opts.assignee else f.assignedAgent)
    && b.createdBy == opts.actor && b.fields == fields && Untouched(b)
  }

  /** The labels of a step's bead. */
  predicate LabelOfStep(l: string, s: Step, f: FormulaBead, opts: Options) {
    || l in f.labels || l in opts.labels || l in s.labels
    || exists r :: r in (if s.roles == [] then f.defaultRoles else s.roles) && l == "role:" + r
  }

  predicate StepStored(st: Store, id: string, mol: string, s: Step, f: FormulaBead, opts: Options, vars: Vars) {
    && id in st.beads && BeadOfStep(st.beads[id], s, f, opts, vars)
    && Dependency(id, mol, "parent-child") in st.deps
  }

  ghost predicate LabelsStored(st: Store, id: string, s: Step, f: FormulaBead, opts: Options) {
    forall l :: (id, l) in st.labels <==> LabelOfStep(l, s, f, opts)
  }

  /** The k-th bead waits for the j-th exactly if its step says so. */
  predicate EdgeStored(st: Store, steps: seq<Step>, ids: seq<string>, at: seq<nat>, j: nat, k: nat)
    requires j < |at| < |ids| && k < |at| && at[j] < |steps| && at[k] < |steps|
  {
    Dependency(ids[k + 1], ids[j + 1], "blocks") in st.deps <==> steps[at[j]].id in steps[at[k]].dependsOn
  }

  /** The molecule has the formula's columns; every step that remains has its bead, its labels and its edges. */
  ghost predicate StepsStored(st0: Store, st: Store, f: FormulaBead, opts: Options, vars: Vars, fields: Fields,
      ids: seq<string>, at: seq<nat>)
  {
    && |at| < |ids| && RemainAt(at, f.steps, vars)
    && st.beads.Keys == st0.beads.Keys + (set k | 0 <= k <= |at| :: ids[k])
    && ids[0] in st.beads && BeadOfFormula(st.beads[ids[0]], f, opts, vars, fields)
    && (forall l :: (ids[0], l) in st.labels <==> l in f.labels || l in opts.labels)
    && (forall k :: 0 <= k < |at| ==>
          && at[k] < |f.steps|
          && StepStored(st, ids[k + 1], ids[0], f.steps[at[k]], f, opts, vars)
          && LabelsStored(st, ids[k + 1], f.steps[at[k]], f, opts))
    && (forall j, k :: 0 <= j < |at| && 0 <= k < |at| ==> EdgeStored(st, f.steps, ids, at, j, k))
  }

  /** Where the trues of a list are. */
  ghost predicate Trues(at: seq<nat>, flags: seq<bool>) {
    Ascending(at) && forall i: nat :: i in at <==> i < |flags| && flags[i]
  }

  lemma TruesMore(at: seq<nat>, flags: seq<bool>, flag: bool)
    requires Trues(at, flags)
    ensures Trues(if flag then at + [|flags|] else at, flags + [flag])
  {
    forall k | 0 <= k < |at| ensures at[k] < |flags| {
      assert at[k] in at;
    }
  }

  function Flags(steps: seq<Step>, vars: Vars): seq<bool> {
    seq(|steps|, i requires 0 <= i < |steps| => Remains(steps[i], vars))
  }

  lemma {:induction false} ActiveAt(steps: seq<Step>, vars: Vars, gone: set<string>) returns (at: seq<nat>)
    ensures Trues(at, Flags(steps, vars)) && |at| == |Active(steps, vars, gone)|
    ensures forall k :: 0 <= k < |at| ==>
              at[k] < |steps| && Active(steps, vars, gone)[k] == ActiveForm(steps[at[k]], vars, gone)
  {
    at := [];
    if steps != [] {
      var m := |steps| - 1;
      var front := ActiveAt(steps[..m], vars, gone);
      var flag := Remains(steps[m], vars);
      assert Flags(steps, vars) == Flags(steps[..m], vars) + [flag];
      TruesMore(front, Flags(steps[..m], vars), flag);
      at := if flag then front + [m] else front;
    }
  }

  lemma TruesRemain(at: seq<nat>, steps: seq<Step>, vars: Vars)
    requires Trues(at, Flags(steps, vars))
    ensures RemainAt(at, steps, vars)
  {
    forall i: nat ensures i in at <==> i < |steps| && Remains(steps[i], vars) {
      assert i < |steps| ==> Flags(steps, vars)[i] == Remains(steps[i], vars);
    }
  }

  lemma {:induction false} KidRowAt(types: Types, kids: seq<Kid>, ids: seq<string>, clock: nat -> Time, n: nat, k: nat)
    requires k < n <= |kids| < |ids| && KidsAsked(types, kids, ids, clock, n)
    ensures Asked(types, ids[k + 1], kids[k].input, clock(k + 1))
    ensures KidRows(types, kids, ids, clock, n)[k] == Row(types, ids[k + 1], kids[k].input, clock(k + 1))
  {
    if k < n - 1 {
      KidRowAt(types, kids, ids, clock, n - 1, k);
    }
  }

  /** The columns of a step's bead. */
  lemma RowOfStep(types: Types, id: string, f: FormulaBead, opts: Options, s: Step, vars: Vars, gone: set<string>,
      now: Time)
    requires Asked(types, id, KidInput(f, opts, ActiveForm(s, vars, gone)), now)
    ensures BeadOfStep(Row(types, id, KidInput(f, opts, ActiveForm(s, vars, gone)), now), s, f, opts, vars)
  {}

  lemma RowOfFormula(types: Types, id: string, f: FormulaBead, opts: Options, vars: Vars, fields: Fields, now: Time)
    requires Asked(types, id, MolInput(f, opts, vars, fields), now)
    ensures BeadOfFormula(Row(types, id, MolInput(f, opts, vars, fields), now), f, opts, vars, fields)
  {}

  lemma SettledKeys(st0: Store, st: Store, plan: Plan, ids: seq<string>, mol: Bead, rows: seq<Bead>)
    requires Settled(st0, st, plan, ids, mol, rows)
    ensures st.beads.Keys == st0.beads.Keys + (set k | 0 <= k <= |rows| :: ids[k])
    ensures ids[0] in st.beads && st.beads[ids[0]] == mol
    ensures forall k :: 0 <= k < |rows| ==> ids[k + 1] in st.beads && st.beads[ids[k + 1]] == rows[k]
  {
    assert Ids(ids, 0, |rows| + 1) == set k | 0 <= k <= |rows| :: ids[k];
    forall k | 0 <= k < |rows| ensures ids[k + 1] in st.beads && st.beads[ids[k + 1]] == rows[k] {
      assert 1 <= k + 1 <= |rows| && rows[k + 1 - 1] == rows[k];
    }
  }

  lemma MoleculeLabels(st0: Store, st: Store, f: FormulaBead, opts: Options, vars: Vars, fields: Fields,
      ids: seq<string>, mol: Bead, rows: seq<Bead>)
    requires Settled(st0, st, PlanOf(f, opts, vars, fields), ids, mol, rows)
    ensures forall l :: (ids[0], l) in st.labels <==> l in f.labels || l in opts.labels
  {
    var plan := PlanOf(f, opts, vars, fields);
    TagsOfIds(plan.kids, ids, |rows|);
    MergeIs(f.labels, opts.labels);
    forall l ensures (ids[0], l) in st.labels <==> l in f.labels || l in opts.labels {
      assert (ids[0], l) !in st0.labels;
      assert (ids[0], l) !in Tags(plan.kids, ids, |rows|);
    }
  }

  /** What is stored for one step. */
  lemma OneStored(st0: Store, st: Store, f: FormulaBead, opts: Options, vars: Vars, fields: Fields,
      ids: seq<string>, mol: Bead, rows: seq<Bead>, s: Step, k: nat)
    requires Settled(st0, st, PlanOf(f, opts, vars, fields), ids, mol, rows) && k < |rows|
    requires ActiveOf(f, vars)[k] == ActiveForm(s, vars, SkippedIds(f.steps, vars))
    requires BeadOfStep(rows[k], s, f, opts, vars)
    ensures StepStored(st, ids[k + 1], ids[0], s, f, opts, vars) && LabelsStored(st, ids[k + 1], s, f, opts)
  {
    SettledKeys(st0, st, PlanOf(f, opts, vars, fields), ids, mol, rows);
    assert Dependency(ids[k + 1], ids[0], PARENT_CHILD) in Family(ids, |rows|);
    forall l ensures (ids[k + 1], l) in st.labels <==> LabelOfStep(l, s, f, opts) {
      ChildLabels(st0, st, f, opts, vars, fields, ids, mol, rows, k, l);
      SameLabels(f, opts, s, vars, SkippedIds(f.steps, vars), l);
    }
  }

  lemma SameLabels(f: FormulaBead, opts: Options, s: Step, vars: Vars, gone: set<string>, l: string)
    ensures var a := ActiveForm(s, vars, gone);
            LabelOfStep(l, s, f, opts) <==>
            l in f.labels || l in opts.labels || l in a.labels || exists r :: HasRole(f, a, r) && l == "role:" + r
  {
    var a := ActiveForm(s, vars, gone);
    assert forall r :: HasRole(f, a, r) <==> r in if s.roles == [] then f.defaultRoles else s.roles;
  }

  /**
   A formula that passed creation, poured with fresh identifiers: if the pour
   succeeds, some step remains, the molecule is filled in from the formula, and
   every step that remains has its bead, its labels and its edges.
   */
  lemma StepsPoured(types: Types, st0: Store, f: FormulaBead, opts: Options, vars: Vars, fields: Fields,
      ids: seq<string>, clock: nat -> Time) returns (at: seq<nat>)
    requires WellFormed(f.steps) && Linked(st0)
    requires |ActiveOf(f, vars)| < |ids| && Fresh(st0, ids, |ActiveOf(f, vars)| + 1)
    requires Pour(types, st0, PlanOf(f, opts, vars, fields), ids, clock).ok
    ensures at != []
    ensures StepsStored(st0, Pour(types, st0, PlanOf(f, opts, vars, fields), ids, clock).st, f, opts, vars, fields,
                        ids, at)
  {
    var plan := PlanOf(f, opts, vars, fields);
    var st := Pour(types, st0, plan, ids, clock).st;
    at := ActiveAt(f.steps, vars, SkippedIds(f.steps, vars));
    TruesRemain(at, f.steps, vars);
    PourIsExactImage(types, st0, f, opts, vars, fields, ids, clock);
    var mol, rows := Row(types, ids[0], plan.mol, clock(0)), KidRows(types, plan.kids, ids, clock, |plan.kids|);
    RowOfFormula(types, ids[0], f, opts, vars, fields, clock(0));
    RowsOfSteps(types, f, opts, vars, fields, ids, clock, at);
    AllStored(st0, st, f, opts, vars, fields, ids, mol, rows, at);
  }

  lemma RowsOfSteps(types: Types, f: FormulaBead, opts: Options, vars: Vars, fields: Fields, ids: seq<string>,
      clock: nat -> Time, at: seq<nat>)
    requires var kids := PlanOf(f, opts, vars, fields).kids;
             |kids| < |ids| && KidsAsked(types, kids, ids, clock, |kids|)
    requires |at| == |ActiveOf(f, vars)|
    requires forall k :: 0 <= k < |at| ==>
               && at[k] < |f.steps|
               && ActiveOf(f, vars)[k] == ActiveForm(f.steps[at[k]], vars, SkippedIds(f.steps, vars))
    ensures var kids := PlanOf(f, opts, vars, fields).kids;
            forall k :: 0 <= k < |at| ==>
              BeadOfStep(KidRows(types, kids, ids, clock, |kids|)[k], f.steps[at[k]], f, opts, vars)
  {
    var kids := PlanOf(f, opts, vars, fields).kids;
    forall k | 0 <= k < |at|
      ensures BeadOfStep(KidRows(types, kids, ids, clock, |kids|)[k], f.steps[at[k]], f, opts, vars)
    {
      KidRowAt(types, kids, ids, clock, |kids|, k);
      RowOfStep(types, ids[k + 1], f, opts, f.steps[at[k]], vars, SkippedIds(f.steps, vars), clock(k + 1));
    }
  }

  lemma AllStored(st0: Store, st: Store, f: FormulaBead, opts: Options, vars: Vars, fields: Fields,
      ids: seq<string>, mol: Bead, rows: seq<Bead>, at: seq<nat>)
    requires WellFormed(f.steps) && Settled(st0, st, PlanOf(f, opts, vars, fields), ids, mol, rows)
    requires BeadOfFormula(mol, f, opts, vars, fields)
    requires RemainAt(at, f.steps, vars) && |at| == |ActiveOf(f, vars)| == |rows|
    requires forall k :: 0 <= k < |at| ==>
               && at[k] < |f.steps|
               && ActiveOf(f, vars)[k] == ActiveForm(f.steps[at[k]], vars, SkippedIds(f.steps, vars))
               && BeadOfStep(rows[k], f.steps[at[k]], f, opts, vars)
    ensures StepsStored(st0, st, f, opts, vars, fields, ids, at)
  {
    SettledKeys(st0, st, PlanOf(f, opts, vars, fields), ids, mol, rows);
    MoleculeLabels(st0, st, f, opts, vars, fields, ids, mol, rows);
    forall k | 0 <= k < |at|
      ensures && StepStored(st, ids[k + 1], ids[0], f.steps[at[k]], f, opts, vars)
              && LabelsStored(st, ids[k + 1], f.steps[at[k]], f, opts)
    {
      OneStored(st0, st, f, opts, vars, fields, ids, mol, rows, f.steps[at[k]], k);
    }
    forall j, k | 0 <= j < |at| && 0 <= k < |at| ensures EdgeStored(st, f.steps, ids, at, j, k) {
      EdgesFollowSteps(st0, st, f, opts, vars, fields, ids, mol, rows, k, j, at[k], at[j]);
    }
  }
}
