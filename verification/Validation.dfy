/** The bead validator (internal/model/validate.go). */
module Validation {
  import opened Strings
  import opened Beads

  predicate ValidTitle(title: string) {
    var t := TrimSpace(title);
    t != "" && |t| <= 500
  }

  /** closed_at is set exactly when the status is closed. */
  predicate ClosedAtAgrees(b: Bead) {
    b.closedAt.Some? <==> b.status == CLOSED
  }

  /** The rule about one column. */
  predicate Broken(b: Bead, c: Column) {
    match c
    case Title => !ValidTitle(b.title)
    case Priority => b.priority < 0 || b.priority > 4
    case Status => !IsStatus(b.status)
    case Type => TrimSpace(b.typ) == ""
    case Kind => !IsKind(b.kind)
    case ClosedAt => !ClosedAtAgrees(b)
    case FieldsColumn => b.fields.Malformed?
    case _ => false
  }

  predicate ValidBead(b: Bead) {
    forall c :: !Broken(b, c)
  }

  /** What a valid bead is, rule by rule. */
  lemma ValidMeans(b: Bead)
    ensures ValidBead(b) <==>
            && 1 <= |TrimSpace(b.title)| <= 500 && 0 <= b.priority <= 4 && |TrimSpace(b.typ)| > 0
            && b.status in ["open", "in_progress", "blocked", "deferred", "closed"]
            && b.kind in ["issue", "data", "config"]
            && (b.closedAt.Some? <==> b.status == "closed")
            && !b.fields.Malformed?
  {
    assert IsStatus(b.status) <==> b.status in ["open", "in_progress", "blocked", "deferred", "closed"];
    assert IsKind(b.kind) <==> b.kind in ["issue", "data", "config"];
    if ValidBead(b) {
      assert !Broken(b, Title) && !Broken(b, Priority) && !Broken(b, Status) && !Broken(b, Type);
      assert !Broken(b, Kind) && !Broken(b, ClosedAt) && !Broken(b, FieldsColumn);
    }
  }

  /** ValidateBead: the columns that break a rule; a bead is valid when there are none. */
  method ValidateBead(b: Bead) returns (errors: seq<Column>)
    ensures forall c :: c in errors <==> Broken(b, c)
    ensures errors == [] <==> ValidBead(b)
    ensures errors == [] <==>
            && 1 <= |TrimSpace(b.title)| <= 500 && 0 <= b.priority <= 4 && |TrimSpace(b.typ)| > 0
            && b.status in ["open", "in_progress", "blocked", "deferred", "closed"]
            && b.kind in ["issue", "data", "config"]
            && (b.closedAt.Some? <==> b.status == "closed")
            && !b.fields.Malformed?
  {
    var closed := b.status == CLOSED;
    errors := Report(!ValidTitle(b.title), b.priority < 0 || b.priority > 4, !IsStatus(b.status),
                     TrimSpace(b.typ) == "", !IsKind(b.kind),
                     closed && b.closedAt.None?, !closed && b.closedAt.Some?, b.fields.Malformed?);
    if errors != [] {
      assert errors[0] in errors;
    }
    ValidMeans(b);
  }

  /** The checks in their order, each appending its column when its rule is broken. */
  method Report(title: bool, priority: bool, status: bool, typ: bool, kind: bool,
                noClosedAt: bool, strayClosedAt: bool, fields: bool) returns (errors: seq<Column>)
    ensures forall c :: c in errors <==>
              || (c == Title && title) || (c == Priority && priority) || (c == Status && status)
              || (c == Type && typ) || (c == Kind && kind)
              || (c == ClosedAt && (noClosedAt || strayClosedAt)) || (c == FieldsColumn && fields)
  {
    errors := [];
    if title { errors := errors + [Title]; }
    if priority { errors := errors + [Priority]; }
    if status { errors := errors + [Status]; }
    if typ { errors := errors + [Type]; }
    if kind { errors := errors + [Kind]; }
    if noClosedAt { errors := errors + [ClosedAt]; }
    if strayClosedAt { errors := errors + [ClosedAt]; }
    if fields { errors := errors + [FieldsColumn]; }
  }
}
