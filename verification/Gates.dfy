/**
 The decision gate that holds back an agent's Stop (internal/server/http_hooks.go,
 http_gates.go; internal/store/postgres/gates.go), as functions of the store.
 */
module Gates {
  import opened Beads
  import opened Store
  import opened Lifecycle

  const DECISION := "decision"
  const SATISFIED_BY := "gate_satisfied_by"

  /** Which store calls of a Stop fail. */
  datatype Faults = Faults(upsert: bool, check: bool, get: bool, clear: bool, merge: bool)

  /** The values of gate_satisfied_by that a Stop accepts. */
  predicate Accepted(v: FieldValue) {
    v.JString? && (v.s == "yield" || v.s == "operator" || v.s == "manual-force")
  }

  /** The agent bead says that its gate was satisfied the proper way. */
  predicate ProperlySatisfied(st: Store, agent: string) {
    agent in st.beads && SATISFIED_BY in Entries(st.beads[agent].fields) &&
    Accepted(Entries(st.beads[agent].fields)[SATISFIED_BY])
  }

  /** handleSatisfyGate: upsert, then mark. */
  function AfterSatisfy(st: Store, agent: string, gate: string, now: Time): Store {
    var up := UpsertGate(st, agent, gate);
    if up.None? then st else SetGate(up.value, agent, gate, Satisfied(now))
  }

  /** The gate row that the Stop hook makes sure exists. */
  function Ensured(st: Store, agent: string, faults: Faults): Store {
    if faults.upsert then st else Pick(UpsertGate(st, agent, DECISION), st)
  }

  /** The Stop hook lets the session end. */
  predicate Passes(st: Store, agent: string, faults: Faults) {
    && !faults.check && !faults.get
    && GateSatisfied(Ensured(st, agent, faults), agent, DECISION)
    && ProperlySatisfied(st, agent)
  }

  /** The gate part of handleHookEmit for a Stop: consume the gate when it passes. */
  function AfterStop(st: Store, agent: string, faults: Faults, now: Time): Store {
    var st1 := Ensured(st, agent, faults);
    if !Passes(st, agent, faults) then st1
    else
      var st2 := if faults.clear then st1 else SetGate(st1, agent, DECISION, Pending);
      if faults.merge then st2 else AfterMerge(st2, agent, map[SATISFIED_BY := JNull], now)
  }
}
