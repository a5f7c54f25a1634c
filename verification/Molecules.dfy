/**
 Pouring a formula into a molecule of beads and burning it again
 (cmd/kd/formula_apply.go, cmd/kd/mol_burn.go), as runs of server calls.
 Identifiers and times come from the server; here they are parameters: ids[0]
 is the molecule's, ids[k] the k-th child's, and clock(k) the time of its creation.
 */
module Molecules {
  import opened Wrappers
  import opened Templates
  import opened Beads
  import opened Store
  import opened Lifecycle
  import opened BeadServer
  import opened Formula

  datatype FormulaBead = FormulaBead(
    id: string, title: string, description: string, priority: int, labels: seq<string>,
    steps: seq<Step>, defaultRoles: seq<string>, assignedAgent: string)

  datatype Options = Options(labels: seq<string>, assignee: string, actor: string)

  /** A child to create: the step it stands for, the request, the steps it waits for. */
  datatype Kid = Kid(stepId: string, input: CreateInput, deps: seq<string>)
  datatype Plan = Plan(mol: CreateInput, kids: seq<Kid>)

  // ----------------------------------------------------------------- requests

  function Assignee(f: FormulaBead, opts: Options): string {
    if opts.assignee == "" then f.assignedAgent else opts.assignee
  }

  /** The molecule's request; `fields` records the formula, the variables and the phase. */
  function MolInput(f: FormulaBead, opts: Options, vars: Vars, fields: Fields): CreateInput {
    CreateInput(
      SubstituteVars(f.title, vars), "molecule", SubstituteVars(f.description, vars), "", f.priority,
      Assignee(f, opts), "", Merge(f.labels, opts.labels), opts.actor, fields, None, None)
  }

  function RoleLabels(roles: seq<string>): seq<string> {
    seq(|roles|, i requires 0 <= i < |roles| => "role:" + roles[i])
  }

  /** A child's request, from an active step. */
  function KidInput(f: FormulaBead, opts: Options, s: Step): CreateInput {
    CreateInput(
      s.title, if s.typ == "" then "task" else s.typ, s.description, "", Pick(s.priority, f.priority),
      if s.assignee == "" then Assignee(f, opts) else s.assignee, "",
      Merge(Merge(Merge(f.labels, opts.labels), s.labels),
            RoleLabels(if s.roles == [] then f.defaultRoles else s.roles)),
      opts.actor, NoFields, None, None)
  }

  /** The roles a step is for: its own, else the formula's. */
  predicate HasRole(f: FormulaBead, s: Step, r: string) {
    r in s.roles || (s.roles == [] && r in f.defaultRoles)
  }

  /** A child carries the labels of the formula, of the command line, of its step and of its roles, and no others. */
  ghost predicate LabelsFrom(ls: seq<string>, f: FormulaBead, opts: Options, s: Step) {
    && (forall l :: l in f.labels || l in opts.labels || l in s.labels ==> l in ls)
    && (forall r :: HasRole(f, s, r) ==> "role:" + r in ls)
    && (forall l :: l in ls ==>
          l in f.labels || l in opts.labels || l in s.labels || exists r :: HasRole(f, s, r) && l == "role:" + r)
  }

  lemma RolesLabelled(f: FormulaBead, s: Step)
    ensures var roleLabels := RoleLabels(if s.roles == [] then f.defaultRoles else s.roles);
            && (forall r :: HasRole(f, s, r) ==> "role:" + r in roleLabels)
            && (forall l :: l in roleLabels ==> exists r :: HasRole(f, s, r) && l == "role:" + r)
  {
    var roles := if s.roles == [] then f.defaultRoles else s.roles;
    forall r | HasRole(f, s, r) ensures "role:" + r in RoleLabels(roles) {
      var i :| 0 <= i < |roles| && roles[i] == r;
      assert RoleLabels(roles)[i] == "role:" + r;
    }
    forall l | l in RoleLabels(roles) ensures exists r :: HasRole(f, s, r) && l == "role:" + r {
      var i :| 0 <= i < |roles| && RoleLabels(roles)[i] == l;
      assert HasRole(f, s, roles[i]);
    }
  }

  lemma KidLabels(f: FormulaBead, opts: Options, s: Step)
    ensures LabelsFrom(KidInput(f, opts, s).labels, f, opts, s)
  {
    var roleLabels := RoleLabels(if s.roles == [] then f.defaultRoles else s.roles);
    RolesLabelled(f, s);
    MergeIs(f.labels, opts.labels);
    MergeIs(Merge(f.labels, opts.labels), s.labels);
    MergeIs(Merge(Merge(f.labels, opts.labels), s.labels), roleLabels);
  }

  method KidRequest(f: FormulaBead, opts: Options, s: Step, molLabels: seq<string>) returns (input: CreateInput)
    requires molLabels == Merge(f.labels, opts.labels)
    ensures input == KidInput(f, opts, s)
    ensures LabelsFrom(input.labels, f, opts, s)
    ensures s.assignee != "" ==> input.assignee == s.assignee
    ensures s.assignee == "" && opts.assignee != "" ==> input.assignee == opts.assignee
    ensures s.assignee == "" && opts.assignee == "" ==> input.assignee == f.assignedAgent
  {
    KidLabels(f, opts, s);
    var typ := s.typ;
    if typ == "" {
      typ := "task";
    }
    var stepAssignee := s.assignee;
    if stepAssignee == "" {
      stepAssignee := Assignee(f, opts);
    }
    var stepRoles := s.roles;
    if |stepRoles| == 0 {
      stepRoles := f.defaultRoles;
    }
    var roleLabels := [];
    for i := 0 to |stepRoles|
      invariant roleLabels == RoleLabels(stepRoles[..i])
    {
      roleLabels := roleLabels + ["role:" + stepRoles[i]];
    }
    assert stepRoles[..|stepRoles|] == stepRoles;
    var labels := MergeLabels(molLabels, s.labels);
    labels := MergeLabels(labels, roleLabels);
    return CreateInput(
      s.title, typ, s.description, "", Pick(s.priority, f.priority), stepAssignee, "",
      labels, opts.actor, NoFields, None, None);
  }

  function KidOf(f: FormulaBead, opts: Options, s: Step): Kid {
    Kid(s.id, KidInput(f, opts, s), s.dependsOn)
  }

  function KidsOf(f: FormulaBead, opts: Options, active: seq<Step>): seq<Kid> {
    seq(|active|, i requires 0 <= i < |active| => KidOf(f, opts, active[i]))
  }

  function ActiveOf(f: FormulaBead, vars: Vars): seq<Step> {
    Active(f.steps, vars, SkippedIds(f.steps, vars))
  }

  function PlanOf(f: FormulaBead, opts: Options, vars: Vars, fields: Fields): Plan {
    Plan(MolInput(f, opts, vars, fields), KidsOf(f, opts, ActiveOf(f, vars)))
  }

  // ------------------------------------------------------- what pouring does

  /** The store after some calls, and whether they all succeeded; nothing is done after a failure. */
  datatype Run = Run(st: Store, ok: bool)

  function Add(st: Store, d: Dependency): Run {
    Run(Pick(AddDep(st, d), st), AddDep(st, d).Some?)
  }

  /** One child: its bead, and its edge to the molecule. */
  function CreateKid(types: Types, st: Store, mol: string, id: string, in_: CreateInput, now: Time): Run {
    if !Creatable(types, st, id, in_, now) then Run(st, false)
    else Add(AfterCreate(types, st, id, in_, now), Dependency(id, mol, PARENT_CHILD))
  }

  function CreateKids(types: Types, st: Store, kids: seq<Kid>, ids: seq<string>, clock: nat -> Time, n: nat): Run
    requires n <= |kids| < |ids|
  {
    if n == 0 then Run(st, true)
    else
      var before := CreateKids(types, st, kids, ids, clock, n - 1);
      if !before.ok then before
      else CreateKid(types, before.st, ids[0], ids[n], kids[n - 1].input, clock(n))
  }

  /** stepBeadIDs after n children. */
  function IdOf(kids: seq<Kid>, ids: seq<string>, n: nat): (m: map<string, string>)
    requires n <= |kids| < |ids|
    ensures forall k :: 0 <= k < n ==> kids[k].stepId in m
  {
    if n == 0 then map[] else IdOf(kids, ids, n - 1)[kids[n - 1].stepId := ids[n]]
  }

  /** The blocks edges of one child. */
  function LinkDeps(st: Store, from: string, deps: seq<string>, idOf: map<string, string>): Run {
    if deps == [] then Run(st, true)
    else
      var before, d := LinkDeps(st, from, deps[..|deps| - 1], idOf), deps[|deps| - 1];
      if !before.ok || d !in idOf then before else Add(before.st, Dependency(from, idOf[d], BLOCKS))
  }

  function LinkKids(st: Store, kids: seq<Kid>, idOf: map<string, string>, n: nat): Run
    requires n <= |kids| && forall k :: 0 <= k < |kids| ==> kids[k].stepId in idOf
  {
    if n == 0 then Run(st, true)
    else
      var before := LinkKids(st, kids, idOf, n - 1);
      if !before.ok then before
      else LinkDeps(before.st, idOf[kids[n - 1].stepId], kids[n - 1].deps, idOf)
  }

  /** A pour: the molecule, its children, the edges between them, up to the first failing call. */
  function Pour(types: Types, st: Store, plan: Plan, ids: seq<string>, clock: nat -> Time): Run
    requires |plan.kids| < |ids|
  {
    var n := |plan.kids|;
    if n == 0 || !Creatable(types, st, ids[0], plan.mol, clock(0)) then Run(st, false)
    else
      var made := CreateKids(types, AfterCreate(types, st, ids[0], plan.mol, clock(0)), plan.kids, ids, clock, n);
      if !made.ok then made else LinkKids(made.st, plan.kids, IdOf(plan.kids, ids, n), n)
  }

  // ----------------------------------------------------------- carrying it out

  /** runFormulaApply from the expansion on. It stops at the first failing call and takes nothing back. */
  method Apply(server: Server, types: Types, f: FormulaBead, opts: Options, vars: Vars, fields: Fields,
      ids: seq<string>, clock: nat -> Time) returns (ok: bool)
    requires RowsNamed(server.st) && |ids| > |ActiveOf(f, vars)|
    modifies server
    ensures Run(server.st, ok) == Pour(types, old(server.st), PlanOf(f, opts, vars, fields), ids, clock)
  {
    var active := Expand(f.steps, vars);
    var molLabels := MergeLabels(f.labels, opts.labels);
    var kids := Requests(f, opts, active, molLabels);
    var plan := Plan(MolInput(f, opts, vars, fields).(labels := molLabels), kids);
    assert plan == PlanOf(f, opts, vars, fields);
    ok := Carry(server, types, plan, ids, clock);
  }

  /** The requests of the creating loop; building one depends on no call. */
  method Requests(f: FormulaBead, opts: Options, active: seq<Step>, molLabels: seq<string>) returns (kids: seq<Kid>)
    requires molLabels == Merge(f.labels, opts.labels)
    ensures kids == KidsOf(f, opts, active)
  {
    kids := [];
    for i := 0 to |active|
      invariant |kids| == i && forall k :: 0 <= k < i ==> kids[k] == KidOf(f, opts, active[k])
    {
      var stepReq := KidRequest(f, opts, active[i], molLabels);
      kids := kids + [Kid(active[i].id, stepReq, active[i].dependsOn)];
    }
  }

  /** The calls of a pour, in order. */
  method Carry(server: Server, types: Types, plan: Plan, ids: seq<string>, clock: nat -> Time) returns (ok: bool)
    requires RowsNamed(server.st) && |ids| > |plan.kids|
    modifies server
    ensures Run(server.st, ok) == Pour(types, old(server.st), plan, ids, clock)
  {
    if |plan.kids| == 0 {
      return false;
    }
    var mol := server.CreateBead(types, ids[0], plan.mol, clock(0));
    if mol.Err? {
      return false;
    }
    var created, stepBeadIDs := CreateChildren(server, types, plan.kids, ids, clock);
    if !created {
      return false;
    }
    ok := LinkChildren(server, plan.kids, stepBeadIDs);
  }

  /** The loop that creates the children. */
  method CreateChildren(server: Server, types: Types, kids: seq<Kid>, ids: seq<string>, clock: nat -> Time)
      returns (ok: bool, stepBeadIDs: map<string, string>)
    requires RowsNamed(server.st) && |kids| < |ids|
    modifies server
    ensures Run(server.st, ok) == CreateKids(types, old(server.st), kids, ids, clock, |kids|)
    ensures ok ==> stepBeadIDs == IdOf(kids, ids, |kids|)
  {
    stepBeadIDs := map[];
    for i := 0 to |kids|
      invariant CreateKids(types, old(server.st), kids, ids, clock, i) == Run(server.st, true)
      invariant stepBeadIDs == IdOf(kids, ids, i)
    {
      ok := NextChild(server, types, old(server.st), kids, ids, clock, i);
      if !ok {
        StaysFailed(types, old(server.st), kids, ids, clock, i + 1, |kids|);
        return;
      }
      stepBeadIDs := stepBeadIDs[kids[i].stepId := ids[i + 1]];
    }
    ok := true;
  }

  /** One turn: the bead, then its edge to the molecule. */
  method NextChild(server: Server, types: Types, ghost st0: Store, kids: seq<Kid>, ids: seq<string>,
      clock: nat -> Time, i: nat)
      returns (ok: bool)
    requires RowsNamed(st0) && i < |kids| < |ids|
    requires CreateKids(types, st0, kids, ids, clock, i) == Run(server.st, true)
    modifies server
    ensures Run(server.st, ok) == CreateKids(types, st0, kids, ids, clock, i + 1)
  {
    NamesKept(types, st0, kids, ids, clock, i);
    var bead := server.CreateBead(types, ids[i + 1], kids[i].input, clock(i + 1));
    if bead.Err? {
      return false;
    }
    ok := server.AddDependency(Dependency(ids[i + 1], ids[0], PARENT_CHILD));
  }

  /** The loop that links them. */
  method LinkChildren(server: Server, kids: seq<Kid>, stepBeadIDs: map<string, string>) returns (ok: bool)
    requires forall k :: 0 <= k < |kids| ==> kids[k].stepId in stepBeadIDs
    modifies server
    ensures Run(server.st, ok) == LinkKids(old(server.st), kids, stepBeadIDs, |kids|)
  {
    for i := 0 to |kids|
      invariant LinkKids(old(server.st), kids, stepBeadIDs, i) == Run(server.st, true)
    {
      ok := LinkChild(server, stepBeadIDs[kids[i].stepId], kids[i].deps, stepBeadIDs);
      if !ok {
        LinkStaysFailed(old(server.st), kids, stepBeadIDs, i + 1, |kids|);
        return;
      }
    }
    ok := true;
  }

  method LinkChild(server: Server, from: string, dependsOn: seq<string>, stepBeadIDs: map<string, string>)
      returns (ok: bool)
    modifies server
    ensures Run(server.st, ok) == LinkDeps(old(server.st), from, dependsOn, stepBeadIDs)
  {
    for j := 0 to |dependsOn|
      invariant LinkDeps(old(server.st), from, dependsOn[..j], stepBeadIDs) == Run(server.st, true)
    {
      assert dependsOn[..j + 1][..j] == dependsOn[..j];
      if dependsOn[j] !in stepBeadIDs {
        continue;
      }
      ok := server.AddDependency(Dependency(from, stepBeadIDs[dependsOn[j]], BLOCKS));
      if !ok {
        DepsStayFailed(old(server.st), from, dependsOn, stepBeadIDs, j + 1);
        return;
      }
    }
    assert dependsOn[..|dependsOn|] == dependsOn;
    ok := true;
  }

  lemma {:induction false} NamesKept(types: Types, st: Store, kids: seq<Kid>, ids: seq<string>, clock: nat -> Time,
      n: nat)
    requires n <= |kids| < |ids| && RowsNamed(st)
    ensures RowsNamed(CreateKids(types, st, kids, ids, clock, n).st)
  {
    if n > 0 {
      NamesKept(types, st, kids, ids, clock, n - 1);
    }
  }

  lemma {:induction false} StaysFailed(types: Types, st: Store, kids: seq<Kid>, ids: seq<string>,
      clock: nat -> Time, i: nat, n: nat)
    requires i <= n <= |kids| < |ids| && !CreateKids(types, st, kids, ids, clock, i).ok
    ensures CreateKids(types, st, kids, ids, clock, n) == CreateKids(types, st, kids, ids, clock, i)
  {
    if i < n {
      StaysFailed(types, st, kids, ids, clock, i, n - 1);
    }
  }

  lemma {:induction false} LinkStaysFailed(st: Store, kids: seq<Kid>, idOf: map<string, string>, i: nat, n: nat)
    requires i <= n <= |kids| && forall k :: 0 <= k < |kids| ==> kids[k].stepId in idOf
    requires !LinkKids(st, kids, idOf, i).ok
    ensures LinkKids(st, kids, idOf, n) == LinkKids(st, kids, idOf, i)
  {
    if i < n {
      LinkStaysFailed(st, kids, idOf, i, n - 1);
    }
  }

  lemma {:induction false} DepsStayFailed(st: Store, from: string, deps: seq<string>, idOf: map<string, string>, j: nat)
    requires j <= |deps| && !LinkDeps(st, from, deps[..j], idOf).ok
    ensures LinkDeps(st, from, deps, idOf) == LinkDeps(st, from, deps[..j], idOf)
    decreases |deps|
  {
    if j == |deps| {
      assert deps[..j] == deps;
    } else {
      var m := |deps| - 1;
      assert deps[..m][..j] == deps[..j];
      DepsStayFailed(st, from, deps[..m], idOf, j);
    }
  }
}
