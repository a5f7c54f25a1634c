/**
 The tables the server keeps (internal/store/postgres): rows, keys and the
 cascades of its schema, one function per statement that changes them.
 */
module Store {
  import opened Wrappers
  import opened Beads

  datatype Gate = Pending | Satisfied(at: Time)

  /** Labels by (bead, label), gates by (agent bead, gate). */
  datatype Store = Store(
    beads: map<string, Bead>,
    labels: set<(string, string)>,
    deps: set<Dependency>,
    gates: map<(string, string), Gate>)

  const EMPTY := Store(map[], {}, {}, map[])

  /** The foreign keys: labels, dependencies and gates refer to beads that exist. */
  predicate Linked(st: Store) {
    && (forall l :: l in st.labels ==> l.0 in st.beads)
    && (forall d :: d in st.deps ==> d.beadId in st.beads && d.dependsOn in st.beads)
    && (forall k :: k in st.gates ==> k.0 in st.beads)
  }

  predicate RowsNamed(st: Store) {
    forall id :: id in st.beads ==> st.beads[id].id == id
  }

  /** INSERT INTO beads; None when the primary key is taken. */
  function InsertBead(st: Store, b: Bead): Option<Store> {
    if b.id in st.beads then None else Some(st.(beads := st.beads[b.id := b]))
  }

  /** UPDATE beads ... RETURNING updated_at; None when there is no such row. */
  function UpdateRow(st: Store, b: Bead, now: Time): Option<Store> {
    if b.id !in st.beads then None else Some(st.(beads := st.beads[b.id := b.(updatedAt := now)]))
  }

  /** queryCloseBead; None when there is no such row. */
  function CloseRow(st: Store, id: string, closedBy: string, now: Time): Option<Store> {
    if id !in st.beads then None
    else
      var b := st.beads[id].(status := CLOSED, closedAt := Some(now), closedBy := closedBy, updatedAt := now);
      Some(st.(beads := st.beads[id := b]))
  }

  /** DELETE FROM beads, with its ON DELETE CASCADE; None when there is no such row. */
  function DeleteRow(st: Store, id: string): Option<Store> {
    if id !in st.beads then None
    else Some(Store(
      st.beads - {id},
      set l | l in st.labels && l.0 != id,
      set d | d in st.deps && d.beadId != id && d.dependsOn != id,
      map k | k in st.gates && k.0 != id :: st.gates[k]))
  }

  /** INSERT INTO deps; None for a repeated row or a missing end. */
  function InsertDep(st: Store, d: Dependency): Option<Store> {
    if d in st.deps || d.beadId !in st.beads || d.dependsOn !in st.beads then None
    else Some(st.(deps := st.deps + {d}))
  }

  /** INSERT INTO labels ... ON CONFLICT DO NOTHING; None when the bead is missing. */
  function InsertLabel(st: Store, id: string, l: string): Option<Store> {
    if id !in st.beads then None else Some(st.(labels := st.labels + {(id, l)}))
  }

  /** INSERT INTO session_gates ... ON CONFLICT DO NOTHING; None when the agent bead is missing. */
  function UpsertGate(st: Store, agent: string, gate: string): Option<Store> {
    if agent !in st.beads then None
    else if (agent, gate) in st.gates then Some(st)
    else Some(st.(gates := st.gates[(agent, gate) := Pending]))
  }

  /** UPDATE session_gates SET status = ...: no row, no effect. */
  function SetGate(st: Store, agent: string, gate: string, value: Gate): Store {
    if (agent, gate) in st.gates then st.(gates := st.gates[(agent, gate) := value]) else st
  }

  /** IsGateSatisfied: a missing row is not satisfied. */
  predicate GateSatisfied(st: Store, agent: string, gate: string) {
    (agent, gate) in st.gates && st.gates[(agent, gate)].Satisfied?
  }

  /** Deleting a bead leaves no reference to it behind. */
  lemma DeleteKeepsLinks(st: Store, id: string)
    requires Linked(st) && id in st.beads
    ensures var st' := DeleteRow(st, id).value;
            && Linked(st')
            && (forall l :: l in st'.labels ==> l.0 != id)
            && (forall d :: d in st'.deps ==> d.beadId != id && d.dependsOn != id)
            && (forall k :: k in st'.gates ==> k.0 != id)
  {}
}
