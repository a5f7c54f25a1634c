/** The vocabulary shared by the components: beads, dependencies, statuses (internal/model). */
module Beads {
  import opened Wrappers

  /** Points in time, as numbers that grow; ZERO_TIME is Go's zero time. */
  type Time = int
  const ZERO_TIME: Time := 0

  /** A value in a bead's JSON fields; text that is not a string literal is kept as written. */
  datatype FieldValue = JNull | JString(s: string) | JOther(raw: string)

  /** The fields column: absent, a JSON object, or text that is not JSON at all. */
  datatype Fields = NoFields | Fields(entries: map<string, FieldValue>) | Malformed

  datatype Bead = Bead(
    id: string,
    slug: string,
    kind: string,
    typ: string,
    title: string,
    description: string,
    notes: string,
    status: string,
    priority: int,
    assignee: string,
    owner: string,
    createdAt: Time,
    createdBy: string,
    updatedAt: Time,
    closedAt: Option<Time>,
    closedBy: string,
    dueAt: Option<Time>,
    deferUntil: Option<Time>,
    fields: Fields)

  /** The columns that validation errors and change records are about. */
  datatype Column =
    | Title | Description | Notes | Status | Priority | Assignee | Owner | Type | Kind
    | DueAt | DeferUntil | ClosedAt | FieldsColumn | Labels

  /** bead `beadId` depends on bead `dependsOn`. */
  datatype Dependency = Dependency(beadId: string, dependsOn: string, typ: string)

  const OPEN := "open"
  const IN_PROGRESS := "in_progress"
  const DEFERRED := "deferred"
  const CLOSED := "closed"
  const BLOCKED := "blocked"

  predicate IsStatus(s: string) {
    s == OPEN || s == IN_PROGRESS || s == DEFERRED || s == CLOSED || s == BLOCKED
  }

  predicate IsKind(k: string) {
    k == "issue" || k == "data" || k == "config"
  }

  const BLOCKS := "blocks"
  const PARENT_CHILD := "parent-child"
  const EPIC := "epic"
}
