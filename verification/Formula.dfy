/**
 What a formula is and what instantiating it would create: validation
 (cmd/kd/formula_create.go), variables, the expansion of steps and the
 filtering of skipped ones (cmd/kd/formula_apply.go).
 */
module Formula {
  import opened Wrappers
  import opened Templates

  datatype VarDef = VarDef(name: string, required: bool, default: string, allowed: seq<string>)

  datatype Step = Step(
    id: string, title: string, description: string, typ: string, priority: Option<int>, labels: seq<string>,
    dependsOn: seq<string>, assignee: string, condition: string, roles: seq<string>)

  // -------------------------------------------------------------- validation

  predicate DistinctIds(steps: seq<Step>) {
    forall i, j :: 0 <= i < j < |steps| ==> steps[i].id != steps[j].id
  }

  function StepIds(steps: seq<Step>): set<string> {
    set i | 0 <= i < |steps| :: steps[i].id
  }

  predicate Named(steps: seq<Step>) {
    forall i :: 0 <= i < |steps| ==> steps[i].id != "" && steps[i].title != ""
  }

  predicate DepsKnown(s: Step, known: set<string>) {
    forall d :: d in s.dependsOn ==> d in known
  }

  /** What creation demands of a formula's steps. */
  predicate WellFormed(steps: seq<Step>) {
    && steps != [] && Named(steps) && DistinctIds(steps)
    && forall i :: 0 <= i < |steps| ==> DepsKnown(steps[i], StepIds(steps))
  }

  /** Some step; ids and titles not blank; ids distinct; every dependency the id of a step. */
  lemma WellFormedMeans(steps: seq<Step>)
    ensures WellFormed(steps) <==>
            && |steps| > 0
            && (forall s :: s in steps ==> s.id != "" && s.title != "")
            && (forall i, j :: 0 <= i < j < |steps| ==> steps[i].id != steps[j].id)
            && (forall s, d :: s in steps && d in s.dependsOn ==> exists t :: t in steps && t.id == d)
  {
    forall d ensures d in StepIds(steps) <==> exists t :: t in steps && t.id == d {
      if t :| t in steps && t.id == d {
        var k :| 0 <= k < |steps| && steps[k] == t;
        assert steps[k].id == d;
      }
    }
  }

  /** The validation loops of formula creation. */
  method ValidateSteps(steps: seq<Step>) returns (ok: bool)
    ensures ok <==> WellFormed(steps)
  {
    if |steps| == 0 {
      return false;
    }
    var stepIDs: set<string> := {};
    for i := 0 to |steps|
      invariant stepIDs == StepIds(steps[..i])
      invariant Named(steps[..i]) && DistinctIds(steps[..i])
    {
      var s := steps[i];
      if s.id == "" || s.title == "" {
        return false;
      }
      if s.id in stepIDs {
        assert exists k :: 0 <= k < i && steps[..i][k].id == s.id;
        return false;
      }
      stepIDs := stepIDs + {s.id};
      IdsExtend(steps, i);
    }
    assert steps[..|steps|] == steps;
    for i := 0 to |steps|
      invariant forall k :: 0 <= k < i ==> DepsKnown(steps[k], stepIDs)
    {
      var known := AllKnown(steps[i], stepIDs);
      if !known {
        return false;
      }
    }
    return true;
  }

  lemma IdsExtend(steps: seq<Step>, i: nat)
    requires i < |steps|
    ensures StepIds(steps[..i + 1]) == StepIds(steps[..i]) + {steps[i].id}
  {
    forall x ensures x in StepIds(steps[..i + 1]) <==> x in StepIds(steps[..i]) + {steps[i].id} {
      if x in StepIds(steps[..i]) {
        var k :| 0 <= k < i && steps[..i][k].id == x;
        assert steps[..i + 1][k].id == x;
      }
      if x == steps[i].id {
        assert steps[..i + 1][i].id == x;
      }
      if x in StepIds(steps[..i + 1]) {
        var k :| 0 <= k < i + 1 && steps[..i + 1][k].id == x;
        assert k < i ==> steps[..i][k].id == x;
      }
    }
  }

  method AllKnown(s: Step, known: set<string>) returns (ok: bool)
    ensures ok <==> DepsKnown(s, known)
  {
    for j := 0 to |s.dependsOn|
      invariant forall k :: 0 <= k < j ==> s.dependsOn[k] in known
    {
      if s.dependsOn[j] !in known {
        return false;
      }
    }
    return true;
  }

  // --------------------------------------------------------------- variables

  /** The variables once a definition's default is applied; a binding is never replaced. */
  function WithDefault(d: VarDef, vars: Vars): Vars {
    if d.name !in vars && d.default != "" then vars[d.name := d.default] else vars
  }

  function WithDefaults(defs: seq<VarDef>, given: Vars): Vars {
    if defs == [] then given
    else WithDefault(defs[|defs| - 1], WithDefaults(defs[..|defs| - 1], given))
  }

  /** A definition's demands on the variables. */
  predicate Meets(d: VarDef, vars: Vars) {
    && (d.required ==> d.name in vars)
    && (d.allowed != [] && d.name in vars ==> vars[d.name] in d.allowed)
  }

  /** The first n definitions are met, each by the variables as they are after it. */
  predicate MetOnTheWay(defs: seq<VarDef>, given: Vars, n: nat)
    requires n <= |defs|
  {
    forall i :: 0 <= i < n ==> Meets(defs[i], WithDefaults(defs[..i + 1], given))
  }

  /** One turn of the loop over variable definitions. */
  method ResolveOne(vd: VarDef, given: Vars) returns (r: Option<Vars>)
    ensures r == if Meets(vd, WithDefault(vd, given)) then Some(WithDefault(vd, given)) else None
  {
    var vars := given;
    if vd.name !in vars {
      if vd.default != "" {
        vars := vars[vd.name := vd.default];
      } else if vd.required {
        return None;
      }
    }
    if |vd.allowed| > 0 && vd.name in vars && vars[vd.name] !in vd.allowed {
      return None;
    }
    return Some(vars);
  }

  /** The loop over variable definitions: defaults, required variables, allowed values. */
  method ResolveVars(defs: seq<VarDef>, given: Vars) returns (r: Option<Vars>)
    ensures r.Some? <==> MetOnTheWay(defs, given, |defs|)
    ensures r.Some? ==> r.value == WithDefaults(defs, given)
  {
    var vars := given;
    for i := 0 to |defs|
      invariant vars == WithDefaults(defs[..i], given)
      invariant MetOnTheWay(defs, given, i)
    {
      assert defs[..i + 1][..i] == defs[..i];
      var next := ResolveOne(defs[i], vars);
      if next.None? {
        return None;
      }
      vars := next.value;
    }
    assert defs[..|defs|] == defs;
    return Some(vars);
  }

  predicate DistinctNames(defs: seq<VarDef>) {
    forall i, j :: 0 <= i < j < |defs| ==> defs[i].name != defs[j].name
  }

  /** What was given stays, and a name is bound afterwards if it was given or has a default. */
  lemma {:induction false} DefaultsFill(defs: seq<VarDef>, given: Vars)
    ensures forall n :: n in given ==> n in WithDefaults(defs, given) && WithDefaults(defs, given)[n] == given[n]
    ensures forall n :: n in WithDefaults(defs, given) <==>
              n in given || exists i :: 0 <= i < |defs| && defs[i].name == n && defs[i].default != ""
  {
    if defs != [] {
      var m := |defs| - 1;
      DefaultsFill(defs[..m], given);
      forall n ensures n in WithDefaults(defs, given) <==>
                         n in given || exists i :: 0 <= i < |defs| && defs[i].name == n && defs[i].default != ""
      {
        if i :| 0 <= i < |defs| && defs[i].name == n && defs[i].default != "" {
          if i < m {
            assert defs[..m][i].name == n && defs[..m][i].default != "";
          }
        }
      }
    }
  }

  /**
   With distinct names the checks made on the way are checks of the result: the
   formula is accepted exactly when the final variables meet every definition.
   */
  lemma AcceptedMeetsAll(defs: seq<VarDef>, given: Vars)
    requires DistinctNames(defs)
    ensures MetOnTheWay(defs, given, |defs|) <==>
            (forall i :: 0 <= i < |defs| ==> Meets(defs[i], WithDefaults(defs, given)))
  {
    forall i | 0 <= i < |defs|
      ensures Meets(defs[i], WithDefaults(defs[..i + 1], given)) <==> Meets(defs[i], WithDefaults(defs, given))
    {
      assert defs == defs[..i + 1] + defs[i + 1..];
      LaterDefaults(defs[..i + 1], defs[i + 1..], given, defs[i].name);
    }
  }

  /** The value a name is bound to by default is that of the first definition that has one. */
  lemma {:induction false} DefaultUsed(defs: seq<VarDef>, given: Vars, i: nat)
    requires i < |defs| && defs[i].default != "" && defs[i].name !in given
    requires forall k :: 0 <= k < i && defs[k].name == defs[i].name ==> defs[k].default == ""
    ensures defs[i].name in WithDefaults(defs, given) && WithDefaults(defs, given)[defs[i].name] == defs[i].default
  {
    var m := |defs| - 1;
    if i < m {
      DefaultUsed(defs[..m], given, i);
    } else {
      DefaultsFill(defs[..m], given);
      assert forall k :: 0 <= k < m ==> defs[..m][k] == defs[k];
    }
  }

  /**
   What it takes to be accepted, definition by definition: a required variable is
   given or has a default, and whatever value it ends up with is an allowed one.
   */
  lemma AcceptedMeans(defs: seq<VarDef>, given: Vars)
    requires DistinctNames(defs)
    ensures MetOnTheWay(defs, given, |defs|) <==>
            forall i :: 0 <= i < |defs| ==>
              var d := defs[i];
              && (d.required ==> d.name in given || d.default != "")
              && (d.allowed != [] && d.name in given ==> given[d.name] in d.allowed)
              && (d.allowed != [] && d.name !in given && d.default != "" ==> d.default in d.allowed)
  {
    AcceptedMeetsAll(defs, given);
    DefaultsFill(defs, given);
    forall i | 0 <= i < |defs|
      ensures Meets(defs[i], WithDefaults(defs, given)) <==>
              var d := defs[i];
              && (d.required ==> d.name in given || d.default != "")
              && (d.allowed != [] && d.name in given ==> given[d.name] in d.allowed)
              && (d.allowed != [] && d.name !in given && d.default != "" ==> d.default in d.allowed)
    {
      var d := defs[i];
      if d.name !in given && d.default != "" {
        DefaultUsed(defs, given, i);
      }
    }
  }

  lemma {:induction false} LaterDefaults(front: seq<VarDef>, back: seq<VarDef>, given: Vars, n: string)
    requires forall i :: 0 <= i < |back| ==> back[i].name != n
    ensures var a, b := WithDefaults(front, given), WithDefaults(front + back, given);
            (n in a <==> n in b) && (n in a ==> a[n] == b[n])
  {
    if back == [] {
      assert front + back == front;
    } else {
      var m := |back| - 1;
      assert (front + back)[..|front + back| - 1] == front + back[..m];
      LaterDefaults(front, back[..m], given, n);
    }
  }

  // ------------------------------------------------------------ expand, filter

  predicate Skipped(s: Step, vars: Vars) {
    s.condition != "" && !EvaluateCondition(s.condition, vars)
  }

  function SkippedIds(steps: seq<Step>, vars: Vars): set<string> {
    set i | 0 <= i < |steps| && Skipped(steps[i], vars) :: steps[i].id
  }

  function Expanded(s: Step, vars: Vars): Step {
    s.(title := SubstituteVars(s.title, vars),
       description := SubstituteVars(s.description, vars),
       assignee := SubstituteVars(s.assignee, vars))
  }

  function KeepDeps(deps: seq<string>, gone: set<string>): seq<string> {
    if deps == [] then []
    else
      var front, d := KeepDeps(deps[..|deps| - 1], gone), deps[|deps| - 1];
      if d in gone then front else front + [d]
  }

  /** A step that remains: expanded, and without dependencies on skipped ones. */
  function ActiveForm(s: Step, vars: Vars, gone: set<string>): Step {
    Expanded(s, vars).(dependsOn := KeepDeps(s.dependsOn, gone))
  }

  /** The steps that remain, expanded and without dependencies on the others. */
  function Active(steps: seq<Step>, vars: Vars, gone: set<string>): seq<Step> {
    if steps == [] then []
    else
      var front, s := Active(steps[..|steps| - 1], vars, gone), steps[|steps| - 1];
      if Skipped(s, vars) then front else front + [ActiveForm(s, vars, gone)]
  }

  datatype ExpandedStep = ExpandedStep(step: Step, skip: bool)

  predicate IsExpansion(es: ExpandedStep, s: Step, vars: Vars) {
    es == ExpandedStep(Expanded(s, vars), Skipped(s, vars))
  }

  predicate ExpansionOf(expanded: seq<ExpandedStep>, steps: seq<Step>, vars: Vars) {
    && |expanded| == |steps|
    && forall k :: 0 <= k < |steps| ==> IsExpansion(expanded[k], steps[k], vars)
  }

  method ExpandOne(s: Step, vars: Vars) returns (es: ExpandedStep)
    ensures IsExpansion(es, s, vars)
  {
    var skip := false;
    if s.condition != "" {
      if !EvaluateCondition(s.condition, vars) {
        skip := true;
      }
    }
    return ExpandedStep(Expanded(s, vars), skip);
  }

  method ExpandSteps(steps: seq<Step>, vars: Vars) returns (expanded: seq<ExpandedStep>)
    ensures ExpansionOf(expanded, steps, vars)
  {
    expanded := [];
    for i := 0 to |steps|
      invariant |expanded| == i && forall k :: 0 <= k < i ==> IsExpansion(expanded[k], steps[k], vars)
    {
      var es := ExpandOne(steps[i], vars);
      expanded := expanded + [es];
    }
  }

  method SkippedOf(expanded: seq<ExpandedStep>, ghost steps: seq<Step>, ghost vars: Vars) returns (skipped: set<string>)
    requires ExpansionOf(expanded, steps, vars)
    ensures skipped == SkippedIds(steps, vars)
  {
    skipped := {};
    for i := 0 to |expanded|
      invariant forall x :: x in skipped <==> exists k :: 0 <= k < i && Skipped(steps[k], vars) && steps[k].id == x
    {
      if expanded[i].skip {
        skipped := skipped + {expanded[i].step.id};
      }
    }
  }

  /** The step with its variables filled in; its dependencies may be fewer. */
  predicate Instance(a: Step, s: Step, vars: Vars) {
    && a.id == s.id && a.typ == s.typ && a.priority == s.priority && a.labels == s.labels
    && a.condition == s.condition && a.roles == s.roles
    && a.title == SubstituteVars(s.title, vars)
    && a.description == SubstituteVars(s.description, vars)
    && a.assignee == SubstituteVars(s.assignee, vars)
    && forall d :: d in a.dependsOn ==> d in s.dependsOn
  }

  /**
   A step remains exactly if it has no condition or its condition holds, and what
   remains is the step with title, description and assignee filled in, waiting for
   those of its dependencies that remain.
   */
  lemma WhatRemains(steps: seq<Step>, vars: Vars)
    requires DistinctIds(steps)
    ensures var active := Active(steps, vars, SkippedIds(steps, vars));
            && (forall i :: 0 <= i < |steps| ==>
                  ((exists a :: a in active && a.id == steps[i].id) <==>
                   steps[i].condition == "" || EvaluateCondition(steps[i].condition, vars)))
            && (forall a :: a in active ==> exists i :: 0 <= i < |steps| && Instance(a, steps[i], vars))
  {
    var gone := SkippedIds(steps, vars);
    var active := Active(steps, vars, gone);
    ActiveSteps(steps, vars, gone);
    forall i | 0 <= i < |steps|
      ensures (exists a :: a in active && a.id == steps[i].id) <==>
              steps[i].condition == "" || EvaluateCondition(steps[i].condition, vars)
    {
      StepRemains(steps, vars, i);
    }
    forall a | a in active ensures exists i :: 0 <= i < |steps| && Instance(a, steps[i], vars) {
      var i :| 0 <= i < |steps| && !Skipped(steps[i], vars) && a == ActiveForm(steps[i], vars, gone);
      KeptDeps(steps[i].dependsOn, gone);
      assert Instance(a, steps[i], vars);
    }
  }

  lemma StepRemains(steps: seq<Step>, vars: Vars, i: nat)
    requires DistinctIds(steps) && i < |steps|
    ensures (exists a :: a in Active(steps, vars, SkippedIds(steps, vars)) && a.id == steps[i].id) <==>
            steps[i].condition == "" || EvaluateCondition(steps[i].condition, vars)
  {
    var gone := SkippedIds(steps, vars);
    ActiveSteps(steps, vars, gone);
    if !Skipped(steps[i], vars) {
      assert ComesFrom(steps, vars, gone, ActiveForm(steps[i], vars, gone));
    }
    if a :| a in Active(steps, vars, gone) && a.id == steps[i].id {
      var k :| 0 <= k < |steps| && !Skipped(steps[k], vars) && a == ActiveForm(steps[k], vars, gone);
      assert k == i;
    }
  }

  /** The dependencies an active step keeps are its own on steps that remain too, in terms of ids. */
  lemma DependenciesRemain(steps: seq<Step>, vars: Vars, a: Step, i: nat)
    requires DistinctIds(steps) && i < |steps|
    requires a in Active(steps, vars, SkippedIds(steps, vars)) && a.id == steps[i].id
    ensures forall d :: d in a.dependsOn <==>
              d in steps[i].dependsOn &&
              forall k :: 0 <= k < |steps| && steps[k].id == d ==>
                steps[k].condition == "" || EvaluateCondition(steps[k].condition, vars)
  {
    var gone := SkippedIds(steps, vars);
    ActiveSteps(steps, vars, gone);
    var k :| 0 <= k < |steps| && !Skipped(steps[k], vars) && a == ActiveForm(steps[k], vars, gone);
    assert k == i;
    KeptDeps(steps[i].dependsOn, gone);
  }

  /** The expansion, the map of skipped ids and the filter, loop by loop. */
  method Expand(steps: seq<Step>, vars: Vars) returns (active: seq<Step>)
    ensures active == Active(steps, vars, SkippedIds(steps, vars))
    ensures DistinctIds(steps) ==>
              forall i :: 0 <= i < |steps| ==>
                ((exists a :: a in active && a.id == steps[i].id) <==>
                 steps[i].condition == "" || EvaluateCondition(steps[i].condition, vars))
    ensures DistinctIds(steps) ==>
              forall a :: a in active ==> exists i :: 0 <= i < |steps| && Instance(a, steps[i], vars)
  {
    if DistinctIds(steps) {
      WhatRemains(steps, vars);
    }
    var expanded := ExpandSteps(steps, vars);
    var skipped := SkippedOf(expanded, steps, vars);
    active := [];
    for i := 0 to |expanded|
      invariant active == Active(steps[..i], vars, skipped)
    {
      assert steps[..i + 1][..i] == steps[..i];
      if expanded[i].skip {
        continue;
      }
      var filtered := FilterDeps(expanded[i].step.dependsOn, skipped);
      active := active + [expanded[i].step.(dependsOn := filtered)];
    }
    assert steps[..|steps|] == steps;
  }

  method FilterDeps(deps: seq<string>, skipped: set<string>) returns (filtered: seq<string>)
    ensures filtered == KeepDeps(deps, skipped)
  {
    filtered := [];
    for j := 0 to |deps|
      invariant filtered == KeepDeps(deps[..j], skipped)
    {
      assert deps[..j + 1][..j] == deps[..j];
      if deps[j] !in skipped {
        filtered := filtered + [deps[j]];
      }
    }
    assert deps[..|deps|] == deps;
  }

  lemma {:induction false} KeptDeps(deps: seq<string>, gone: set<string>)
    ensures forall d :: d in KeepDeps(deps, gone) <==> d in deps && d !in gone
    ensures Distinct(deps) ==> Distinct(KeepDeps(deps, gone))
  {
    if deps != [] {
      var m := |deps| - 1;
      KeptDeps(deps[..m], gone);
      assert deps == deps[..m] + [deps[m]];
      if Distinct(deps) {
        assert deps[m] !in deps[..m];
      }
    }
  }

  /** The active form of one of the steps that are not skipped. */
  ghost predicate ComesFrom(steps: seq<Step>, vars: Vars, gone: set<string>, a: Step) {
    exists i :: 0 <= i < |steps| && !Skipped(steps[i], vars) && a == ActiveForm(steps[i], vars, gone)
  }

  lemma ComesFromLast(steps: seq<Step>, vars: Vars, gone: set<string>, a: Step)
    requires steps != []
    ensures ComesFrom(steps, vars, gone, a) <==>
            || ComesFrom(steps[..|steps| - 1], vars, gone, a)
            || (!Skipped(steps[|steps| - 1], vars) && a == ActiveForm(steps[|steps| - 1], vars, gone))
  {
    var front := steps[..|steps| - 1];
    if ComesFrom(front, vars, gone, a) {
      var i :| 0 <= i < |front| && !Skipped(front[i], vars) && a == ActiveForm(front[i], vars, gone);
      assert steps[i] == front[i];
    }
    if ComesFrom(steps, vars, gone, a) {
      var i :| 0 <= i < |steps| && !Skipped(steps[i], vars) && a == ActiveForm(steps[i], vars, gone);
      assert i < |front| ==> steps[i] == front[i];
    }
  }

  /** Each active step comes from the step of its id, which was not skipped; and every such step is active. */
  lemma {:induction false} ActiveSteps(steps: seq<Step>, vars: Vars, gone: set<string>)
    requires DistinctIds(steps)
    ensures DistinctIds(Active(steps, vars, gone))
    ensures forall a :: a in Active(steps, vars, gone) <==> ComesFrom(steps, vars, gone, a)
  {
    if steps != [] {
      var m := |steps| - 1;
      var front, s := Active(steps[..m], vars, gone), steps[m];
      ActiveSteps(steps[..m], vars, gone);
      forall a ensures a in Active(steps, vars, gone) <==> ComesFrom(steps, vars, gone, a) {
        ComesFromLast(steps, vars, gone, a);
      }
      forall k | 0 <= k < |front| ensures front[k].id != s.id {
        assert front[k] in front;
        var i :| 0 <= i < m && !Skipped(steps[..m][i], vars) && front[k] == ActiveForm(steps[..m][i], vars, gone);
        assert steps[i].id != steps[m].id;
      }
    }
  }

  // ------------------------------------------------------------------- labels

  function Dedup(ls: seq<string>): seq<string> {
    if ls == [] then []
    else
      var front, l := Dedup(ls[..|ls| - 1]), ls[|ls| - 1];
      if l in front then front else front + [l]
  }

  function Merge(base: seq<string>, extra: seq<string>): seq<string> {
    if extra == [] then base else Dedup(base + extra)
  }

  /** mergeLabels. */
  method MergeLabels(base: seq<string>, extra: seq<string>) returns (result: seq<string>)
    ensures result == Merge(base, extra)
  {
    if |extra| == 0 {
      return base;
    }
    result := AppendNew([], base, []);
    assert [] + base == base;
    result := AppendNew(base, extra, result);
  }

  /** One of its two loops; the map of labels seen holds what is in the result. */
  method AppendNew(done: seq<string>, more: seq<string>, before: seq<string>) returns (result: seq<string>)
    requires before == Dedup(done)
    ensures result == Dedup(done + more)
  {
    result := before;
    assert done + more[..0] == done;
    for i := 0 to |more|
      invariant result == Dedup(done + more[..i])
    {
      assert (done + more[..i + 1])[..|done| + i] == done + more[..i];
      if more[i] !in result {
        result := result + [more[i]];
      }
    }
    assert more[..|more|] == more;
  }

  /** Merging keeps every label, and repeats none unless there was nothing to add. */
  lemma {:induction false} DedupIs(ls: seq<string>)
    ensures forall l :: l in Dedup(ls) <==> l in ls
    ensures Distinct(Dedup(ls))
  {
    if ls != [] {
      var m := |ls| - 1;
      DedupIs(ls[..m]);
      assert ls == ls[..m] + [ls[m]];
    }
  }

  lemma MergeIs(base: seq<string>, extra: seq<string>)
    ensures forall l :: l in Merge(base, extra) <==> l in base || l in extra
    ensures extra != [] ==> Distinct(Merge(base, extra))
  {
    DedupIs(base + extra);
  }
}
