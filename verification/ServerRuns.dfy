/**
 Whole runs of the server: every sequence of bead, dependency, label and gate
 operations, including the Stop hook (internal/server/beads.go, http.go,
 http_hooks.go, http_gates.go; internal/store/postgres/gates.go).
 Each operation is one step; a store call inside the Stop hook may fail.
 */
module ServerRuns {
  import opened Wrappers
  import opened Beads
  import opened Store
  import opened Strings
  import opened Validation
  import opened Lifecycle
  import opened Gates

  datatype Op =
    | Create(newId: string, cin: CreateInput, now: Time)
    | Update(id: string, uin: UpdateInput, now: Time, dbNow: Time)
    | Close(id: string, closedBy: string, dbNow: Time)
    | Merge(id: string, extra: map<string, FieldValue>, dbNow: Time)
    | Delete(id: string)
    | AddDep(d: Dependency)
    | RemoveDep(d: Dependency)
    | AddLabel(id: string, l: string)
    | RemoveLabel(id: string, l: string)
    | SatisfyGate(agent: string, gate: string, dbNow: Time)
    | ClearGate(agent: string, gate: string)
    | Stop(agent: string, faults: Faults, dbNow: Time)

  function Step(types: Types, st: Store, op: Op): Store {
    match op
    case Create(id, in_, now) => AfterCreate(types, st, id, in_, now)
    case Update(id, in_, now, dbNow) => AfterUpdate(types, st, id, in_, now, dbNow)
    case Close(id, closer, dbNow) => AfterClose(st, id, closer, dbNow)
    case Merge(id, extra, dbNow) => AfterMerge(st, id, extra, dbNow)
    case Delete(id) => AfterDelete(st, id)
    case AddDep(d) => Pick(Lifecycle.AddDep(st, d), st)
    case RemoveDep(d) => st.(deps := st.deps - {d})
    case AddLabel(id, l) => Pick(InsertLabel(st, id, l), st)
    case RemoveLabel(id, l) => st.(labels := st.labels - {(id, l)})
    case SatisfyGate(agent, gate, now) => AfterSatisfy(st, agent, gate, now)
    case ClearGate(agent, gate) => SetGate(st, agent, gate, Pending)
    case Stop(agent, faults, now) => AfterStop(st, agent, faults, now)
  }

  function Run(types: Types, ops: seq<Op>): Store {
    if ops == [] then EMPTY else Step(types, Run(types, ops[..|ops| - 1]), ops[|ops| - 1])
  }

  // ------------------------------------------------------------- lifecycle

  /** Rows carry their key, foreign keys hold, and every bead passes the validator. */
  ghost predicate Sound(st: Store) {
    && RowsNamed(st)
    && Linked(st)
    && forall id :: id in st.beads ==> ValidBead(st.beads[id])
  }

  /** Closing and merging never call the validator, yet keep what it checks. */
  lemma CloseKeepsValid(b: Bead, closedBy: string, now: Time)
    requires ValidBead(b)
    ensures ValidBead(b.(status := CLOSED, closedAt := Some(now), closedBy := closedBy, updatedAt := now))
  {
    var b' := b.(status := CLOSED, closedAt := Some(now), closedBy := closedBy, updatedAt := now);
    forall c ensures !Broken(b', c) {
      assert !Broken(b, c);
    }
  }

  lemma FieldsKeepValid(b: Bead, entries: map<string, FieldValue>, now: Time)
    requires ValidBead(b)
    ensures ValidBead(b.(fields := Fields(entries), updatedAt := now))
    ensures ValidBead(b.(updatedAt := now))
  {
    var b1, b2 := b.(fields := Fields(entries), updatedAt := now), b.(updatedAt := now);
    forall c ensures !Broken(b1, c) && !Broken(b2, c) {
      assert !Broken(b, c);
    }
  }

  lemma MergeKeepsSound(st: Store, id: string, extra: map<string, FieldValue>, now: Time)
    requires Sound(st)
    ensures Sound(AfterMerge(st, id, extra, now))
  {
    if id in st.beads {
      FieldsKeepValid(st.beads[id], Entries(st.beads[id].fields) + extra, now);
    }
  }

  lemma GateKeepsSound(st: Store, agent: string, gate: string, v: Gate)
    requires Sound(st)
    ensures Sound(SetGate(st, agent, gate, v))
    ensures Sound(Pick(UpsertGate(st, agent, gate), st))
  {}

  lemma StopKeepsSound(st: Store, agent: string, faults: Faults, now: Time)
    requires Sound(st)
    ensures Sound(AfterStop(st, agent, faults, now))
  {
    GateKeepsSound(st, agent, DECISION, Pending);
    var st1 := Ensured(st, agent, faults);
    GateKeepsSound(st1, agent, DECISION, Pending);
    MergeKeepsSound(st1, agent, map[SATISFIED_BY := JNull], now);
    MergeKeepsSound(SetGate(st1, agent, DECISION, Pending), agent, map[SATISFIED_BY := JNull], now);
  }

  lemma CreateKeepsSound(types: Types, st: Store, id: string, in_: CreateInput, now: Time)
    requires Sound(st)
    ensures Sound(AfterCreate(types, st, id, in_, now))
  {}

  lemma UpdateKeepsSound(types: Types, st: Store, id: string, in_: UpdateInput, now: Time, dbNow: Time)
    requires Sound(st)
    ensures Sound(AfterUpdate(types, st, id, in_, now, dbNow))
  {
    if Updatable(types, st, id, in_, now) {
      FieldsKeepValid(Patched(st.beads[id], in_, now), map[], dbNow);
    }
  }

  /**
   closed_at over an update of a sound store: kept if the bead was closed already
   and stays so, the current time if it is newly closed, none if it is open.
   Reopening and closing again therefore gives a new time.
   */
  lemma UpdateStampsClosing(types: Types, st: Store, id: string, in_: UpdateInput, now: Time, dbNow: Time)
    requires Sound(st) && Updatable(types, st, id, in_, now)
    ensures var b, b' := st.beads[id], AfterUpdate(types, st, id, in_, now, dbNow).beads[id];
            b'.closedAt == if b'.status != CLOSED then None else if b.status == CLOSED then b.closedAt else Some(now)
  {
    assert !Broken(st.beads[id], ClosedAt);
  }

  lemma CloseKeepsSound(st: Store, id: string, closedBy: string, now: Time)
    requires Sound(st)
    ensures Sound(AfterClose(st, id, closedBy, now))
  {
    if id in st.beads {
      CloseKeepsValid(st.beads[id], closedBy, now);
    }
  }

  lemma StepKeepsSound(types: Types, st: Store, op: Op)
    requires Sound(st)
    ensures Sound(Step(types, st, op))
  {
    match op
    case Create(id, in_, now) => CreateKeepsSound(types, st, id, in_, now);
    case Update(id, in_, now, dbNow) => UpdateKeepsSound(types, st, id, in_, now, dbNow);
    case Close(id, closer, now) => CloseKeepsSound(st, id, closer, now);
    case Merge(id, extra, now) => MergeKeepsSound(st, id, extra, now);
    case Delete(id) => if id in st.beads { DeleteKeepsLinks(st, id); }
    case AddDep(d) =>
    case RemoveDep(d) =>
    case AddLabel(id, l) =>
    case RemoveLabel(id, l) =>
    case SatisfyGate(agent, gate, now) =>
      GateKeepsSound(st, agent, gate, Pending);
      GateKeepsSound(Pick(UpsertGate(st, agent, gate), st), agent, gate, Satisfied(now));
    case ClearGate(agent, gate) => GateKeepsSound(st, agent, gate, Pending);
    case Stop(agent, faults, now) => StopKeepsSound(st, agent, faults, now);
  }

  /**
   Over every run every stored bead passes the validator; in particular
   closed_at is set exactly when the status is closed. References never dangle.
   */
  lemma {:induction false} EveryRunIsSound(types: Types, ops: seq<Op>)
    ensures Sound(Run(types, ops))
    ensures forall id :: id in Run(types, ops).beads ==>
              var b := Run(types, ops).beads[id];
              && 1 <= |TrimSpace(b.title)| <= 500 && 0 <= b.priority <= 4
              && b.status in ["open", "in_progress", "blocked", "deferred", "closed"]
              && (b.closedAt.Some? <==> b.status == "closed")
  {
    if ops != [] {
      EveryRunIsSound(types, ops[..|ops| - 1]);
      StepKeepsSound(types, Run(types, ops[..|ops| - 1]), ops[|ops| - 1]);
    }
    StoredIsValid(Run(types, ops));
  }

  lemma StoredIsValid(st: Store)
    requires Sound(st)
    ensures forall id :: id in st.beads ==>
              var b := st.beads[id];
              && 1 <= |TrimSpace(b.title)| <= 500 && 0 <= b.priority <= 4
              && b.status in ["open", "in_progress", "blocked", "deferred", "closed"]
              && (b.closedAt.Some? <==> b.status == "closed")
  {
    forall id | id in st.beads
      ensures var b := st.beads[id];
              && 1 <= |TrimSpace(b.title)| <= 500 && 0 <= b.priority <= 4
              && b.status in ["open", "in_progress", "blocked", "deferred", "closed"]
              && (b.closedAt.Some? <==> b.status == "closed")
    {
      ValidMeans(st.beads[id]);
    }
  }

  // ----------------------------------------------------------- stop gates

  predicate IsSatisfy(op: Op, a: string) {
    op.SatisfyGate? && op.agent == a && op.gate == DECISION
  }

  /** The operation is a Stop of agent a that gets through in store st. */
  predicate IsPass(st: Store, op: Op, a: string) {
    op.Stop? && op.agent == a && Passes(st, a, op.faults)
  }

  /** The operation writes an accepted value to gate_satisfied_by of bead a. */
  predicate IsAcceptedWrite(op: Op, a: string) {
    match op
    case Create(id, in_, _) => id == a && HasAccepted(Entries(in_.fields))
    case Update(id, in_, _, _) =>
      id == a && in_.fields.Some? && in_.fields.value.Patch? && HasAccepted(in_.fields.value.entries)
    case Merge(id, extra, _) => id == a && HasAccepted(extra)
    case _ => false
  }

  predicate HasAccepted(entries: map<string, FieldValue>) {
    SATISFIED_BY in entries && Accepted(entries[SATISFIED_BY])
  }

  predicate GateOpen(st: Store, a: string) {
    GateSatisfied(st, a, DECISION)
  }

  function NumPasses(types: Types, ops: seq<Op>, a: string): nat {
    if ops == [] then 0
    else
      var n := |ops| - 1;
      NumPasses(types, ops[..n], a) + if IsPass(Run(types, ops[..n]), ops[n], a) then 1 else 0
  }

  /** Passing Stops whose ClearGate failed. */
  function NumUncleared(types: Types, ops: seq<Op>, a: string): nat {
    if ops == [] then 0
    else
      var n := |ops| - 1;
      NumUncleared(types, ops[..n], a)
        + if IsPass(Run(types, ops[..n]), ops[n], a) && ops[n].faults.clear then 1 else 0
  }

  function NumSatisfies(ops: seq<Op>, a: string): nat {
    if ops == [] then 0
    else NumSatisfies(ops[..|ops| - 1], a) + if IsSatisfy(ops[|ops| - 1], a) then 1 else 0
  }

  /** Only a satisfy step opens a gate; a pass closes it unless the clear failed. */
  lemma StepGate(types: Types, st: Store, op: Op, a: string)
    ensures GateOpen(Step(types, st, op), a) ==> GateOpen(st, a) || IsSatisfy(op, a)
    ensures IsPass(st, op, a) ==> GateOpen(st, a)
    ensures IsPass(st, op, a) && GateOpen(Step(types, st, op), a) ==> op.faults.clear
  {
    match op
    case Create(id, in_, now) =>
    case Update(id, in_, now, dbNow) =>
    case Close(id, closer, now) =>
    case Merge(id, extra, now) =>
    case Delete(id) =>
    case SatisfyGate(agent, gate, now) =>
    case Stop(agent, faults, now) =>
    case _ =>
  }

  /**
   Gates are consumed: over every run, the Stops that pass an agent's gate number
   at most its satisfy steps, up to those whose ClearGate call failed; while the
   gate stands open one satisfy step is still unused.
   */
  lemma {:induction false} PassesNeedSatisfies(types: Types, ops: seq<Op>, a: string)
    ensures NumPasses(types, ops, a) + (if GateOpen(Run(types, ops), a) then 1 else 0)
            <= NumSatisfies(ops, a) + NumUncleared(types, ops, a)
  {
    if ops != [] {
      var n := |ops| - 1;
      PassesNeedSatisfies(types, ops[..n], a);
      StepGate(types, Run(types, ops[..n]), ops[n], a);
    }
  }

  /** Only an accepted write makes a bead properly satisfied. */
  lemma StepProper(types: Types, st: Store, op: Op, a: string)
    ensures ProperlySatisfied(Step(types, st, op), a) ==> ProperlySatisfied(st, a) || IsAcceptedWrite(op, a)
    ensures IsPass(st, op, a) && ProperlySatisfied(Step(types, st, op), a) ==> op.faults.merge
  {
    match op
    case Create(id, in_, now) =>
    case Update(id, in_, now, dbNow) =>
    case Close(id, closer, now) =>
    case Merge(id, extra, now) =>
    case Delete(id) =>
    case SatisfyGate(agent, gate, now) =>
    case Stop(agent, faults, now) =>
    case _ =>
  }

  predicate PassAt(types: Types, ops: seq<Op>, i: nat, a: string)
    requires i < |ops|
  {
    IsPass(Run(types, ops[..i]), ops[i], a)
  }

  lemma RunStep(types: Types, ops: seq<Op>, i: nat)
    requires i < |ops|
    ensures Run(types, ops[..i + 1]) == Step(types, Run(types, ops[..i]), ops[i])
  {
    assert ops[..i + 1][..i] == ops[..i];
  }

  lemma RunStepGate(types: Types, ops: seq<Op>, i: nat, a: string)
    requires i < |ops|
    ensures GateOpen(Run(types, ops[..i + 1]), a) ==> GateOpen(Run(types, ops[..i]), a) || IsSatisfy(ops[i], a)
    ensures PassAt(types, ops, i, a) ==> GateOpen(Run(types, ops[..i]), a)
    ensures PassAt(types, ops, i, a) && GateOpen(Run(types, ops[..i + 1]), a) ==> ops[i].faults.clear
  {
    RunStep(types, ops, i);
    StepGate(types, Run(types, ops[..i]), ops[i], a);
  }

  lemma RunStepProper(types: Types, ops: seq<Op>, i: nat, a: string)
    requires i < |ops|
    ensures ProperlySatisfied(Run(types, ops[..i + 1]), a) ==>
              ProperlySatisfied(Run(types, ops[..i]), a) || IsAcceptedWrite(ops[i], a)
    ensures PassAt(types, ops, i, a) ==> ProperlySatisfied(Run(types, ops[..i]), a)
    ensures PassAt(types, ops, i, a) && ProperlySatisfied(Run(types, ops[..i + 1]), a) ==> ops[i].faults.merge
  {
    RunStep(types, ops, i);
    StepProper(types, Run(types, ops[..i]), ops[i], a);
  }

  /** From a closed gate to an open one there is a satisfy step in between. */
  lemma {:induction false} SatisfyBetween(types: Types, ops: seq<Op>, i: nat, j: nat, a: string)
    requires i <= j <= |ops|
    requires !GateOpen(Run(types, ops[..i]), a) && GateOpen(Run(types, ops[..j]), a)
    ensures exists k :: i <= k < j && IsSatisfy(ops[k], a)
    decreases j
  {
    RunStepGate(types, ops, j - 1, a);
    if GateOpen(Run(types, ops[..j - 1]), a) {
      SatisfyBetween(types, ops, i, j - 1, a);
    }
  }

  lemma {:induction false} WriteBetween(types: Types, ops: seq<Op>, i: nat, j: nat, a: string)
    requires i <= j <= |ops|
    requires !ProperlySatisfied(Run(types, ops[..i]), a) && ProperlySatisfied(Run(types, ops[..j]), a)
    ensures exists k :: i <= k < j && IsAcceptedWrite(ops[k], a)
    decreases j
  {
    RunStepProper(types, ops, j - 1, a);
    if ProperlySatisfied(Run(types, ops[..j - 1]), a) {
      WriteBetween(types, ops, i, j - 1, a);
    }
  }

  /**
   Between any two Stops that pass an agent's gate there is a new satisfy step,
   unless the first one's ClearGate failed, and a new accepted write of
   gate_satisfied_by, unless the first one's field update failed.
   */
  lemma BetweenTwoPasses(types: Types, ops: seq<Op>, i: nat, j: nat, a: string)
    requires i < j < |ops| && PassAt(types, ops, i, a) && PassAt(types, ops, j, a)
    ensures !ops[i].faults.clear ==> exists k :: i < k < j && IsSatisfy(ops[k], a)
    ensures !ops[i].faults.merge ==> exists k :: i < k < j && IsAcceptedWrite(ops[k], a)
  {
    RunStepGate(types, ops, i, a);
    RunStepProper(types, ops, i, a);
    RunStepGate(types, ops, j, a);
    RunStepProper(types, ops, j, a);
    if !ops[i].faults.clear {
      SatisfyBetween(types, ops, i + 1, j, a);
    }
    if !ops[i].faults.merge {
      WriteBetween(types, ops, i + 1, j, a);
    }
  }
}
