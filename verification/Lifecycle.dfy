/**
 What the server's bead operations do to the tables (internal/server/beads.go,
 http.go): create, update, close, field merge and delete, as functions of the
 store. BeadServer carries them out statement by statement; ServerRuns studies
 runs of them.
 */
module Lifecycle {
  import opened Wrappers
  import opened Beads
  import opened Store
  import opened Strings
  import opened Validation

  /** A type's configuration: its kind, and which fields it accepts (model.ValidateFields). */
  datatype TypeConfig = TypeConfig(kind: string, accepts: Fields -> bool)

  /** The configuration looked up for a bead type, stored or built in. */
  type Types = string -> Option<TypeConfig>

  datatype CreateInput = CreateInput(
    title: string, typ: string, description: string, notes: string, priority: int,
    assignee: string, owner: string, labels: seq<string>, createdBy: string, fields: Fields,
    dueAt: Option<Time>, deferUntil: Option<Time>)

  /** The fields of a patch: a JSON object, or text that is not one and changes no key. */
  datatype Patch = Patch(entries: map<string, FieldValue>) | NotAnObject

  /** None means "not provided"; for the two dates Some(None) means "provided as null". */
  datatype UpdateInput = UpdateInput(
    title: Option<string>, description: Option<string>, notes: Option<string>, status: Option<string>,
    priority: Option<int>, assignee: Option<string>, owner: Option<string>,
    dueAt: Option<Option<Time>>, deferUntil: Option<Option<Time>>,
    fields: Option<Patch>, newLabels: Option<seq<string>>)

  /** Deprecated type names and what they stand for. */
  function Canonical(typ: string): string {
    if typ == "template" then "formula" else if typ == "bundle" then "molecule" else typ
  }

  function Pick<T>(o: Option<T>, default: T): T {
    if o.Some? then o.value else default
  }

  /** A provided date replaces the old one; the zero time clears it. */
  function PickTime(o: Option<Option<Time>>, default: Option<Time>): Option<Time> {
    if o.None? then default else if o.value == Some(ZERO_TIME) then None else o.value
  }

  function Entries(f: Fields): map<string, FieldValue> {
    if f.Fields? then f.entries else map[]
  }

  /** The stored fields with those of a patch laid over them. */
  function Merged(f: Fields, p: Patch): Fields {
    Fields(Entries(f) + if p.Patch? then p.entries else map[])
  }

  /** The row that createBead inserts. */
  function NewBead(id: string, in_: CreateInput, tc: TypeConfig, now: Time): Bead {
    Bead(id, "", tc.kind, Canonical(in_.typ), in_.title, in_.description, in_.notes, OPEN, in_.priority,
         in_.assignee, in_.owner, now, in_.createdBy, now, None, "", in_.dueAt, in_.deferUntil, in_.fields)
  }

  /** closed_at follows the status: set when closing, kept while closed, cleared when reopening. */
  function Reconciled(status: string, closedAt: Option<Time>, now: Time): (r: Option<Time>)
    ensures r.Some? <==> status == CLOSED
    ensures status == CLOSED && closedAt.Some? ==> r == closedAt
    ensures status == CLOSED && closedAt.None? ==> r == Some(now)
  {
    if status != CLOSED then None else if closedAt.None? then Some(now) else closedAt
  }

  /** The row that updateBead writes. */
  function Patched(b: Bead, in_: UpdateInput, now: Time): Bead {
    var status := Pick(in_.status, b.status);
    b.(title := Pick(in_.title, b.title),
       description := Pick(in_.description, b.description),
       notes := Pick(in_.notes, b.notes),
       status := status,
       priority := Pick(in_.priority, b.priority),
       assignee := Pick(in_.assignee, b.assignee),
       owner := Pick(in_.owner, b.owner),
       dueAt := PickTime(in_.dueAt, b.dueAt),
       deferUntil := PickTime(in_.deferUntil, b.deferUntil),
       fields := if in_.fields.Some? then Merged(b.fields, in_.fields.value) else b.fields,
       closedAt := Reconciled(status, b.closedAt, now),
       updatedAt := now)
  }

  /** Fields are checked against the type configuration only when they were patched. */
  predicate FieldsAccepted(types: Types, b: Bead, in_: UpdateInput) {
    in_.fields.Some? && types(b.typ).Some? ==> types(b.typ).value.accepts(b.fields)
  }

  /** When createBead goes through. */
  predicate Creatable(types: Types, st: Store, id: string, in_: CreateInput, now: Time) {
    && in_.title != ""
    && types(Canonical(in_.typ)).Some?
    && ValidBead(NewBead(id, in_, types(Canonical(in_.typ)).value, now))
    && types(Canonical(in_.typ)).value.accepts(in_.fields)
    && id !in st.beads
  }

  /** When createBead goes through, condition by condition. */
  lemma CreatableMeans(types: Types, st: Store, id: string, in_: CreateInput, now: Time)
    ensures Creatable(types, st, id, in_, now) <==>
            var typ := if in_.typ == "template" then "formula"
                       else if in_.typ == "bundle" then "molecule" else in_.typ;
            && 1 <= |TrimSpace(in_.title)| <= 500 && 0 <= in_.priority <= 4 && |TrimSpace(typ)| > 0
            && types(typ).Some? && types(typ).value.kind in ["issue", "data", "config"]
            && types(typ).value.accepts(in_.fields) && !in_.fields.Malformed?
            && id !in st.beads
  {
    var typ := Canonical(in_.typ);
    if types(typ).Some? {
      ValidMeans(NewBead(id, in_, types(typ).value, now));
    }
  }

  /** When updateBead goes through: closed_at is reconciled first, so it can never be what is wrong. */
  lemma UpdatableMeans(types: Types, st: Store, id: string, in_: UpdateInput, now: Time)
    ensures Updatable(types, st, id, in_, now) <==>
            && id in st.beads
            && var b := Patched(st.beads[id], in_, now);
            && 1 <= |TrimSpace(b.title)| <= 500 && 0 <= b.priority <= 4 && |TrimSpace(b.typ)| > 0
            && b.status in ["open", "in_progress", "blocked", "deferred", "closed"]
            && b.kind in ["issue", "data", "config"] && !b.fields.Malformed?
            && (in_.fields.Some? && types(b.typ).Some? ==> types(b.typ).value.accepts(b.fields))
  {
    if id in st.beads {
      ValidMeans(Patched(st.beads[id], in_, now));
    }
  }

  function LabelRows(id: string, ls: seq<string>): (r: set<(string, string)>)
    ensures forall i, l :: (i, l) in r <==> i == id && l in ls
  {
    set l | l in ls :: (id, l)
  }

  function AfterCreate(types: Types, st: Store, id: string, in_: CreateInput, now: Time): Store {
    if !Creatable(types, st, id, in_, now) then st
    else
      var b := NewBead(id, in_, types(Canonical(in_.typ)).value, now);
      st.(beads := st.beads[id := b], labels := st.labels + LabelRows(id, in_.labels))
  }

  /** When updateBead goes through. */
  predicate Updatable(types: Types, st: Store, id: string, in_: UpdateInput, now: Time) {
    && id in st.beads
    && ValidBead(Patched(st.beads[id], in_, now))
    && FieldsAccepted(types, Patched(st.beads[id], in_, now), in_)
  }

  /** `dbNow` is the database's clock, which stamps updated_at. */
  function AfterUpdate(types: Types, st: Store, id: string, in_: UpdateInput, now: Time, dbNow: Time): Store {
    if !Updatable(types, st, id, in_, now) then st
    else
      var b := Patched(st.beads[id], in_, now).(updatedAt := dbNow);
      st.(beads := st.beads[id := b],
          labels := if in_.newLabels.Some? then WithLabels(st.labels, id, in_.newLabels.value) else st.labels)
  }

  /** Exactly the given labels for one bead, all others as they were. */
  function WithLabels(labels: set<(string, string)>, id: string, ls: seq<string>): (r: set<(string, string)>)
    ensures forall i, l :: (i, l) in r <==> if i == id then l in ls else (i, l) in labels
  {
    (set p | p in labels && p.0 != id) + LabelRows(id, ls)
  }

  function AfterClose(st: Store, id: string, closedBy: string, dbNow: Time): Store {
    Pick(CloseRow(st, id, closedBy, dbNow), st)
  }

  /** mergeBeadFields: overwrite some keys of the fields object, and write the row back. */
  function AfterMerge(st: Store, id: string, extra: map<string, FieldValue>, dbNow: Time): Store {
    if id !in st.beads then st
    else
      var b := st.beads[id];
      st.(beads := st.beads[id := b.(fields := Merged(b.fields, Patch(extra)), updatedAt := dbNow)])
  }

  /** Adding a dependency, None when the request or the insert is refused. */
  function AddDep(st: Store, d: Dependency): Option<Store> {
    if d.beadId == "" || d.dependsOn == "" then None else InsertDep(st, d)
  }

  function AfterDelete(st: Store, id: string): Store {
    Pick(DeleteRow(st, id), st)
  }
}
