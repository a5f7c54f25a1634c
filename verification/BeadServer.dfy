/** The server's bead operations, carried out statement by statement (internal/server/beads.go, http.go). */
module BeadServer {
  import opened Wrappers
  import opened Beads
  import opened Store
  import opened Validation
  import opened Lifecycle
  import opened Gates

  datatype Failure = InvalidInput | NotFound | StoreFailed

  class Server {
    var st: Store

    constructor ()
      ensures st == EMPTY
    {
      st := EMPTY;
    }

    /** createBead. The insert and its labels are one transaction: nothing is kept unless all succeed. */
    method CreateBead(types: Types, id: string, in_: CreateInput, now: Time) returns (r: Result<Bead, Failure>)
      requires RowsNamed(st)
      modifies this
      ensures r.Ok? <==> Creatable(types, old(st), id, in_, now)
      ensures st == AfterCreate(types, old(st), id, in_, now)
      ensures r.Ok? ==> r.value == st.beads[id]
      ensures r.Ok? ==> OneRowChanged(old(st), st, id) && CreatedAs(st.beads[id], types, id, in_, now)
      ensures r.Ok? ==>
                forall i, l :: (i, l) in st.labels <==> (i, l) in old(st).labels || (i == id && l in in_.labels)
      ensures !r.Ok? ==> st == old(st)
    {
      if in_.title == "" {
        return Err(InvalidInput);
      }
      var beadType := in_.typ;
      if beadType == "template" {
        beadType := "formula";
      } else if beadType == "bundle" {
        beadType := "molecule";
      }
      var tc := types(beadType);
      if tc.None? {
        return Err(InvalidInput);
      }
      var bead := NewBead(id, in_, tc.value, now);
      var errors := ValidateBead(bead);
      if errors != [] || !tc.value.accepts(bead.fields) {
        return Err(InvalidInput);
      }
      var row := InsertBead(st, bead);
      if row.None? {
        return Err(StoreFailed);
      }
      var tx := AddLabels(row.value, id, in_.labels);
      st := tx;
      return Ok(bead);
    }

    /**
     updateBead: overwrite what was provided, reconcile closed_at, validate, write.
     Every column that comes out different is named in the published changes.
     */
    method UpdateBead(types: Types, id: string, in_: UpdateInput, now: Time, dbNow: Time)
        returns (r: Result<Bead, Failure>, changes: set<Column>)
      requires RowsNamed(st)
      modifies this
      ensures r.Ok? <==> Updatable(types, old(st), id, in_, now)
      ensures st == AfterUpdate(types, old(st), id, in_, now, dbNow)
      ensures r.Ok? ==> r.value == st.beads[id] && Covers(changes, old(st).beads[id], st.beads[id])
      ensures r.Ok? ==> OneRowChanged(old(st), st, id) && UpdatedAs(old(st).beads[id], st.beads[id], in_, now, dbNow)
      ensures r.Ok? ==>
                forall i, l :: (i, l) in st.labels <==>
                  if i == id && in_.newLabels.Some? then l in in_.newLabels.value else (i, l) in old(st).labels
      ensures !r.Ok? ==> st == old(st)
    {
      if id !in st.beads {
        return Err(NotFound), {};
      }
      var bead;
      bead, changes := ApplyPatch(st.beads[id], in_, now);
      var acceptable := CheckPatched(types, bead, in_);
      if !acceptable {
        return Err(InvalidInput), changes;
      }
      CoversStamp(changes, st.beads[id], bead, dbNow);
      assert bead.id == id;
      WriteBead(bead, in_.newLabels, dbNow);
      return Ok(bead.(updatedAt := dbNow)), changes;
    }

    /** The row first, then its labels if they were provided. */
    method WriteBead(bead: Bead, newLabels: Option<seq<string>>, dbNow: Time)
      requires bead.id in st.beads
      modifies this
      ensures st == old(st).(beads := old(st).beads[bead.id := bead.(updatedAt := dbNow)],
                             labels := if newLabels.Some? then WithLabels(old(st).labels, bead.id, newLabels.value)
                                       else old(st).labels)
    {
      st := UpdateRow(st, bead, dbNow).value;
      if newLabels.Some? {
        ReconcileLabels(bead.id, newLabels.value);
      }
    }

    /** mergeBeadFields. */
    method MergeBeadFields(id: string, extra: map<string, FieldValue>, dbNow: Time) returns (ok: bool)
      requires RowsNamed(st)
      modifies this
      ensures ok <==> id in old(st).beads
      ensures st == AfterMerge(old(st), id, extra, dbNow)
      ensures !ok ==> st == old(st)
      ensures ok ==> OneRowChanged(old(st), st, id) && st.labels == old(st).labels
      ensures ok ==> MergedAs(old(st).beads[id].fields, st.beads[id].fields, extra)
      ensures ok ==>
                st.beads[id].(fields := old(st).beads[id].fields, updatedAt := old(st).beads[id].updatedAt) ==
                old(st).beads[id]
      ensures ok ==> st.beads[id].updatedAt == dbNow
    {
      if id !in st.beads {
        return false;
      }
      var bead := st.beads[id];
      var existing := LayOver(Entries(bead.fields), extra);
      st := UpdateRow(st, bead.(fields := Fields(existing)), dbNow).value;
      return true;
    }

    /** closeBead: one row is closed, stamped and signed; no other column, row or table changes. */
    method CloseBead(id: string, closedBy: string, dbNow: Time) returns (ok: bool)
      modifies this
      ensures ok <==> id in old(st).beads
      ensures st == AfterClose(old(st), id, closedBy, dbNow)
      ensures st.labels == old(st).labels && st.deps == old(st).deps && st.gates == old(st).gates
      ensures st.beads.Keys == old(st).beads.Keys
      ensures forall k :: k in st.beads && k != id ==> st.beads[k] == old(st).beads[k]
      ensures ok ==> ClosedAs(old(st).beads[id], st.beads[id], closedBy, dbNow)
    {
      var row := CloseRow(st, id, closedBy, dbNow);
      if row.None? {
        return false;
      }
      st := row.value;
      return true;
    }

    /** handleAddDependency: one new row between beads that exist, or nothing. */
    method AddDependency(d: Dependency) returns (ok: bool)
      modifies this
      ensures st == Pick(AddDep(old(st), d), old(st))
      ensures ok <==> AddDep(old(st), d).Some?
      ensures ok <==> d.beadId != "" && d.dependsOn != "" && d.beadId in old(st).beads && d.dependsOn in old(st).beads
                      && d !in old(st).deps
      ensures forall e :: e in st.deps <==> e in old(st).deps || (ok && e == d)
      ensures st.beads == old(st).beads && st.labels == old(st).labels && st.gates == old(st).gates
      ensures Linked(old(st)) ==> Linked(st)
    {
      if d.beadId == "" || d.dependsOn == "" {
        return false;
      }
      var row := InsertDep(st, d);
      if row.None? {
        return false;
      }
      st := row.value;
      return true;
    }

    /** deleteBead: of every table exactly the rows that name the bead go. */
    method DeleteBead(id: string) returns (ok: bool)
      modifies this
      ensures ok <==> id in old(st).beads
      ensures st == AfterDelete(old(st), id)
      ensures !ok ==> st == old(st)
      ensures ok ==> st.beads.Keys == old(st).beads.Keys - {id}
      ensures ok ==> forall k :: k in st.beads ==> st.beads[k] == old(st).beads[k]
      ensures ok ==> forall l :: l in st.labels <==> l in old(st).labels && l.0 != id
      ensures ok ==> forall d :: d in st.deps <==> d in old(st).deps && d.beadId != id && d.dependsOn != id
      ensures ok ==> forall k :: k in st.gates <==> k in old(st).gates && k.0 != id
      ensures ok ==> forall k :: k in st.gates ==> st.gates[k] == old(st).gates[k]
      ensures Linked(old(st)) ==> Linked(st)
    {
      var row := DeleteRow(st, id);
      if row.None? {
        return false;
      }
      st := row.value;
      return true;
    }

    /** handleSatisfyGate: the one gate row is there and satisfied now. */
    method SatisfyGate(agent: string, gate: string, dbNow: Time) returns (ok: bool)
      modifies this
      ensures ok <==> agent in old(st).beads
      ensures st == AfterSatisfy(old(st), agent, gate, dbNow)
      ensures st == old(st).(gates := if ok then old(st).gates[(agent, gate) := Satisfied(dbNow)] else old(st).gates)
    {
      var up := UpsertGate(st, agent, gate);
      if up.None? {
        return false;
      }
      st := up.value;
      st := SetGate(st, agent, gate, Satisfied(dbNow));
      return true;
    }

    /** handleClearGate. */
    method ClearGate(agent: string, gate: string)
      modifies this
      ensures st == SetGate(old(st), agent, gate, Pending)
      ensures (agent, gate) in st.gates <==> (agent, gate) in old(st).gates
      ensures (agent, gate) in st.gates ==> st.gates[(agent, gate)] == Pending
      ensures st == old(st).(gates := st.gates) && st.gates - {(agent, gate)} == old(st).gates - {(agent, gate)}
    {
      st := SetGate(st, agent, gate, Pending);
    }

    /**
     The gate part of handleHookEmit for a Stop. A failed store call is logged
     and treated as "not satisfied" or skipped; a request without an agent bead
     has no gate and is let through.
     */
    method HandleStop(agent: string, faults: Faults, dbNow: Time) returns (block: bool)
      requires RowsNamed(st)
      modifies this
      ensures agent == "" ==> !block && st == old(st)
      ensures agent != "" ==> (!block <==> Passes(old(st), agent, faults))
      ensures agent != "" ==> st == AfterStop(old(st), agent, faults, dbNow)
      ensures agent != "" ==>
                (!block <==>
                 && !faults.check && !faults.get
                 && (agent, "decision") in old(st).gates && old(st).gates[(agent, "decision")].Satisfied?
                 && agent in old(st).beads && SaysProper(old(st).beads[agent].fields))
      ensures agent != "" && !block && !faults.clear ==> st.gates[(agent, "decision")] == Pending
      ensures agent != "" && !block && !faults.merge ==>
                MergedAs(old(st).beads[agent].fields, st.beads[agent].fields, map["gate_satisfied_by" := JNull])
      ensures agent != "" && block && !faults.upsert && agent in old(st).beads ==> (agent, "decision") in st.gates
      ensures agent != "" && block ==>
                st.beads == old(st).beads && st.gates - {(agent, "decision")} == old(st).gates - {(agent, "decision")}
                && ((agent, "decision") in old(st).gates ==> st.gates == old(st).gates)
      ensures st.labels == old(st).labels && st.deps == old(st).deps
    {
      if agent == "" {
        return false;
      }
      if !faults.upsert {
        var up := UpsertGate(st, agent, DECISION);
        if up.Some? {
          st := up.value;
        }
      }
      var satisfied := !faults.check && GateSatisfied(st, agent, DECISION);
      if !satisfied {
        return true;
      }
      var satisfiedBy := JNull;
      if !faults.get && agent in st.beads && st.beads[agent].fields.Fields? {
        var fields := st.beads[agent].fields.entries;
        if SATISFIED_BY in fields && fields[SATISFIED_BY].JString? {
          satisfiedBy := fields[SATISFIED_BY];
        }
      }
      if !Accepted(satisfiedBy) {
        return true;
      }
      if !faults.clear {
        st := SetGate(st, agent, DECISION, Pending);
      }
      if !faults.merge {
        var merged := MergeBeadFields(agent, map[SATISFIED_BY := JNull], dbNow);
      }
      return false;
    }

    /** reconcileLabels: remove what is no longer wanted, then add what is new. */
    method ReconcileLabels(id: string, newLabels: seq<string>)
      requires id in st.beads
      modifies this
      ensures st == old(st).(labels := WithLabels(old(st).labels, id, newLabels))
    {
      var existing := set p | p in st.labels && p.0 == id :: p.1;
      var newSet := set l | l in newLabels;
      ghost var before := st;

      var todo := existing;
      while todo != {}
        invariant todo <= existing
        invariant st == before.(labels := st.labels)
        invariant forall i, l :: (i, l) in st.labels <==>
                    (i, l) in before.labels && (i == id ==> l in todo || l in newSet)
        decreases |todo|
      {
        var l :| l in todo;
        if l !in newSet {
          st := st.(labels := st.labels - {(id, l)});
        }
        todo := todo - {l};
      }

      for i := 0 to |newLabels|
        invariant st == before.(labels := st.labels)
        invariant forall j, l :: (j, l) in st.labels <==>
                    if j == id then l in newLabels[..i] || ((id, l) in before.labels && l in newSet)
                    else (j, l) in before.labels
      {
        if newLabels[i] !in existing {
          st := InsertLabel(st, id, newLabels[i]).value;
        }
        assert forall l :: l in newLabels[..i + 1] <==> l in newLabels[..i] || l == newLabels[i];
      }
      assert newLabels[..|newLabels|] == newLabels;
      forall p ensures p in st.labels <==> p in WithLabels(before.labels, id, newLabels) {
        var (j, l) := p;
      }
    }
  }

  /** Only the row of this bead is new or changed; no other row, and no dependency or gate. */
  predicate OneRowChanged(st: Store, st': Store, id: string) {
    && st'.beads.Keys == st.beads.Keys + {id}
    && (forall k :: k in st.beads && k != id ==> st'.beads[k] == st.beads[k])
    && st'.deps == st.deps && st'.gates == st.gates
  }

  /** The row of a created bead, column by column. */
  predicate CreatedAs(b: Bead, types: Types, id: string, in_: CreateInput, now: Time) {
    && b.id == id && b.slug == "" && b.status == "open" && b.closedAt == None && b.closedBy == ""
    && b.typ == (if in_.typ == "template" then "formula" else if in_.typ == "bundle" then "molecule" else in_.typ)
    && types(b.typ).Some? && b.kind == types(b.typ).value.kind
    && b.title == in_.title && b.description == in_.description && b.notes == in_.notes
    && b.priority == in_.priority && b.assignee == in_.assignee && b.owner == in_.owner
    && b.createdAt == now && b.updatedAt == now && b.createdBy == in_.createdBy
    && b.dueAt == in_.dueAt && b.deferUntil == in_.deferUntil && b.fields == in_.fields
  }

  /** An optional new value replaces the old one. */
  predicate Replaces<T(==)>(o: Option<T>, before: T, after: T) {
    match o
    case None => after == before
    case Some(v) => after == v
  }

  /** An optional new date replaces the old one; null and the zero time clear it. */
  predicate ReplacesDate(o: Option<Option<Time>>, before: Option<Time>, after: Option<Time>) {
    match o
    case None => after == before
    case Some(None) => after == None
    case Some(Some(t)) => after == if t == 0 then None else Some(t)
  }

  /** The stored keys with the given ones laid over them. */
  predicate MergedAs(before: Fields, after: Fields, given: map<string, FieldValue>) {
    && after.Fields?
    && (forall k :: k in given ==> k in after.entries && after.entries[k] == given[k])
    && (before.Fields? ==>
          forall k :: k in before.entries && k !in given ==>
            k in after.entries && after.entries[k] == before.entries[k])
    && (forall k :: k in after.entries ==> k in given || (before.Fields? && k in before.entries))
  }

  /** The row of an updated bead, column by column. */
  predicate UpdatedAs(b: Bead, b': Bead, in_: UpdateInput, now: Time, dbNow: Time) {
    && Replaces(in_.title, b.title, b'.title) && Replaces(in_.description, b.description, b'.description)
    && Replaces(in_.notes, b.notes, b'.notes) && Replaces(in_.status, b.status, b'.status)
    && Replaces(in_.priority, b.priority, b'.priority) && Replaces(in_.assignee, b.assignee, b'.assignee)
    && Replaces(in_.owner, b.owner, b'.owner)
    && ReplacesDate(in_.dueAt, b.dueAt, b'.dueAt) && ReplacesDate(in_.deferUntil, b.deferUntil, b'.deferUntil)
    && (match in_.fields
        case None => b'.fields == b.fields
        case Some(Patch(given)) => MergedAs(b.fields, b'.fields, given)
        case Some(NotAnObject) => MergedAs(b.fields, b'.fields, map[]))
    && b'.closedAt == (if b'.status != "closed" then None else if b.closedAt.Some? then b.closedAt else Some(now))
    && b'.updatedAt == dbNow
    && b'.id == b.id && b'.slug == b.slug && b'.kind == b.kind && b'.typ == b.typ
    && b'.createdAt == b.createdAt && b'.createdBy == b.createdBy && b'.closedBy == b.closedBy
  }

  /** The fields say that the gate was satisfied in one of the three accepted ways. */
  predicate SaysProper(f: Fields) {
    && f.Fields? && "gate_satisfied_by" in f.entries
    && f.entries["gate_satisfied_by"] in
       [JString("yield"), JString("operator"), JString("manual-force")]
  }

  /** The row closed: status, time and signer are set, every other column is as it was. */
  predicate ClosedAs(b: Bead, b': Bead, closedBy: string, now: Time) {
    && b'.status == CLOSED && b'.closedAt == Some(now) && b'.closedBy == closedBy && b'.updatedAt == now
    && b'.(status := b.status, closedAt := b.closedAt, closedBy := b.closedBy, updatedAt := b.updatedAt) == b
  }

  /** The label inserts of a transaction. */
  method AddLabels(row: Store, id: string, ls: seq<string>) returns (tx: Store)
    requires id in row.beads
    ensures tx == row.(labels := row.labels + LabelRows(id, ls))
  {
    tx := row;
    for i := 0 to |ls|
      invariant tx == row.(labels := tx.labels)
      invariant tx.labels == row.labels + LabelRows(id, ls[..i])
    {
      tx := InsertLabel(tx, id, ls[i]).value;
      assert LabelRows(id, ls[..i + 1]) == LabelRows(id, ls[..i]) + {(id, ls[i])};
    }
    assert ls[..|ls|] == ls;
  }

  /** The merge loop over a map's keys: later entries win. */
  method LayOver(base: map<string, FieldValue>, extra: map<string, FieldValue>)
      returns (existing: map<string, FieldValue>)
    ensures existing == base + extra
  {
    existing := base;
    var keys := extra.Keys;
    while keys != {}
      invariant keys <= extra.Keys
      invariant existing.Keys == base.Keys + (extra.Keys - keys)
      invariant forall k :: k in existing ==>
                  existing[k] == if k in extra.Keys - keys then extra[k] else base[k]
      decreases |keys|
    {
      var k :| k in keys;
      existing := existing[k := extra[k]];
      keys := keys - {k};
    }
  }

  /** Every column in which two rows differ is in the change set, updated_at aside. */
  predicate Covers(changes: set<Column>, a: Bead, b: Bead) {
    && (a.title != b.title ==> Title in changes)
    && (a.description != b.description ==> Description in changes)
    && (a.notes != b.notes ==> Notes in changes)
    && (a.status != b.status ==> Status in changes)
    && (a.priority != b.priority ==> Priority in changes)
    && (a.assignee != b.assignee ==> Assignee in changes)
    && (a.owner != b.owner ==> Owner in changes)
    && (a.dueAt != b.dueAt ==> DueAt in changes)
    && (a.deferUntil != b.deferUntil ==> DeferUntil in changes)
    && (a.fields != b.fields ==> FieldsColumn in changes)
    && (a.closedAt != b.closedAt ==> ClosedAt in changes)
    && a.(title := b.title, description := b.description, notes := b.notes, status := b.status,
          priority := b.priority, assignee := b.assignee, owner := b.owner, dueAt := b.dueAt,
          deferUntil := b.deferUntil, fields := b.fields, closedAt := b.closedAt,
          updatedAt := b.updatedAt) == b
  }

  /** The columns an update provides a value for. */
  predicate Provided(in_: UpdateInput, c: Column) {
    match c
    case Title => in_.title.Some?
    case Description => in_.description.Some?
    case Notes => in_.notes.Some?
    case Status => in_.status.Some?
    case Priority => in_.priority.Some?
    case Assignee => in_.assignee.Some?
    case Owner => in_.owner.Some?
    case DueAt => in_.dueAt.Some?
    case DeferUntil => in_.deferUntil.Some?
    case FieldsColumn => in_.fields.Some?
    case Labels => in_.newLabels.Some?
    case _ => false
  }

  /** The changed row of updateBead, before it is validated and written. */
  method ApplyPatch(b: Bead, in_: UpdateInput, now: Time) returns (bead: Bead, changes: set<Column>)
    ensures bead == Patched(b, in_, now)
    ensures Covers(changes, b, bead)
    ensures FieldsColumn in changes <==> in_.fields.Some?
    ensures Labels in changes <==> in_.newLabels.Some?
  {
    bead, changes := PatchText(b, in_);
    bead, changes := PatchWork(bead, in_, changes);
    bead, changes := PatchRest(bead, in_, changes);
    ghost var given := bead;

    // Reconcile closed_at with the status.
    var closed := bead.status == CLOSED;
    if closed && bead.closedAt.None? {
      bead := bead.(closedAt := Some(now));
      changes := changes + {ClosedAt};
    }
    if !closed && bead.closedAt.Some? {
      bead := bead.(closedAt := None);
      changes := changes + {ClosedAt};
    }
    bead := bead.(updatedAt := now);
    assert bead == given.(closedAt := Reconciled(given.status, given.closedAt, now), updatedAt := now);
    assert bead.closedAt != b.closedAt ==> ClosedAt in changes;
    ProvidedCovers(b, in_, now, changes);
  }

  lemma ProvidedCovers(b: Bead, in_: UpdateInput, now: Time, changes: set<Column>)
    requires forall c :: Provided(in_, c) ==> c in changes
    requires Patched(b, in_, now).closedAt != b.closedAt ==> ClosedAt in changes
    ensures Covers(changes, b, Patched(b, in_, now))
  {
    assert Provided(in_, Title) ==> Title in changes;
    assert Provided(in_, Description) ==> Description in changes;
    assert Provided(in_, Notes) ==> Notes in changes;
    assert Provided(in_, Status) ==> Status in changes;
    assert Provided(in_, Priority) ==> Priority in changes;
    assert Provided(in_, Assignee) ==> Assignee in changes;
    assert Provided(in_, Owner) ==> Owner in changes;
    assert Provided(in_, DueAt) ==> DueAt in changes;
    assert Provided(in_, DeferUntil) ==> DeferUntil in changes;
    assert Provided(in_, FieldsColumn) ==> FieldsColumn in changes;
  }

  lemma CoversStamp(changes: set<Column>, a: Bead, b: Bead, t: Time)
    requires Covers(changes, a, b)
    ensures Covers(changes, a, b.(updatedAt := t))
  {}

  /** The validations of updateBead; fields are looked at only when they were patched. */
  method CheckPatched(types: Types, bead: Bead, in_: UpdateInput) returns (acceptable: bool)
    ensures acceptable <==> ValidBead(bead) && FieldsAccepted(types, bead, in_)
  {
    var errors := ValidateBead(bead);
    if errors != [] {
      return false;
    }
    if in_.fields.Some? {
      var tc := types(bead.typ);
      if tc.Some? && !tc.value.accepts(bead.fields) {
        return false;
      }
    }
    return true;
  }

  method PatchText(b: Bead, in_: UpdateInput) returns (bead: Bead, changes: set<Column>)
    ensures bead == b.(title := Pick(in_.title, b.title), description := Pick(in_.description, b.description),
                       notes := Pick(in_.notes, b.notes), status := Pick(in_.status, b.status))
    ensures forall c :: c in changes <==> c in {Title, Description, Notes, Status} && Provided(in_, c)
  {
    bead, changes := b, {};
    if in_.title.Some? {
      bead := bead.(title := in_.title.value);
      changes := changes + {Title};
    }
    if in_.description.Some? {
      bead := bead.(description := in_.description.value);
      changes := changes + {Description};
    }
    if in_.notes.Some? {
      bead := bead.(notes := in_.notes.value);
      changes := changes + {Notes};
    }
    if in_.status.Some? {
      bead := bead.(status := in_.status.value);
      changes := changes + {Status};
    }
  }

  method PatchWork(b: Bead, in_: UpdateInput, before: set<Column>) returns (bead: Bead, changes: set<Column>)
    ensures bead == b.(priority := Pick(in_.priority, b.priority), assignee := Pick(in_.assignee, b.assignee),
                       owner := Pick(in_.owner, b.owner))
    ensures forall c :: c in changes <==> c in before || (c in {Priority, Assignee, Owner} && Provided(in_, c))
  {
    bead, changes := b, before;
    if in_.priority.Some? {
      bead := bead.(priority := in_.priority.value);
      changes := changes + {Priority};
    }
    if in_.assignee.Some? {
      bead := bead.(assignee := in_.assignee.value);
      changes := changes + {Assignee};
    }
    if in_.owner.Some? {
      bead := bead.(owner := in_.owner.value);
      changes := changes + {Owner};
    }
  }

  method PatchRest(b: Bead, in_: UpdateInput, before: set<Column>) returns (bead: Bead, changes: set<Column>)
    ensures bead == b.(dueAt := PickTime(in_.dueAt, b.dueAt), deferUntil := PickTime(in_.deferUntil, b.deferUntil),
                       fields := if in_.fields.Some? then Merged(b.fields, in_.fields.value) else b.fields)
    ensures forall c :: c in changes <==>
              c in before || (c in {DueAt, DeferUntil, FieldsColumn, Labels} && Provided(in_, c))
  {
    bead, changes := b, before;
    if in_.dueAt.Some? {
      if in_.dueAt.value == Some(ZERO_TIME) {
        bead := bead.(dueAt := None);
      } else {
        bead := bead.(dueAt := in_.dueAt.value);
      }
      changes := changes + {DueAt};
    }
    if in_.deferUntil.Some? {
      if in_.deferUntil.value == Some(ZERO_TIME) {
        bead := bead.(deferUntil := None);
      } else {
        bead := bead.(deferUntil := in_.deferUntil.value);
      }
      changes := changes + {DeferUntil};
    }
    if in_.fields.Some? {
      bead := bead.(fields := Merged(bead.fields, in_.fields.value));
      changes := changes + {FieldsColumn};
    }
    if in_.newLabels.Some? {
      changes := changes + {Labels};
    }
  }
}
