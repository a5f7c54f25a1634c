/**
 Compiling a bead filter to SQL (internal/store/postgres/queries.go,
 queryListBeads): WHERE clauses with numbered placeholders beside a growing
 argument list, then LIMIT and OFFSET.
 */
module FilterSql {
  import opened Wrappers
  import opened Beads

  /** model.BeadFilter. Absent optional values are None; absent strings and lists are empty. */
  datatype Filter = Filter(
    status: seq<string>,
    typ: seq<string>,
    excludeTypes: seq<string>,
    kind: seq<string>,
    priority: Option<int>,
    priorityMin: Option<int>,
    priorityMax: Option<int>,
    assignee: string,
    labels: seq<string>,
    labelsAny: seq<string>,
    search: string,
    fields: map<string, string>,
    noOpenDeps: bool,
    ids: seq<string>,
    updatedAfter: Option<Time>,
    parentId: string,
    limit: int,
    offset: int)

  /** The tables a clause can look at besides the bead's own row. */
  datatype Db = Db(
    beads: map<string, Bead>,
    labels: set<(string, string)>,
    deps: set<Dependency>,
    contains: (string, string) -> bool)

  // --------------------------------------------------- what a filter means

  /** fields->>key, SQL's null when the key is missing or null. */
  function FieldText(b: Bead, key: string): Option<string> {
    if b.fields.Fields? && key in b.fields.entries then
      match b.fields.entries[key]
      case JNull => None
      case JString(s) => Some(s)
      case JOther(raw) => Some(raw)
    else None
  }

  predicate HasOpenDep(b: Bead, db: Db) {
    exists d :: d in db.deps && d.beadId == b.id && d.dependsOn in db.beads
                && db.beads[d.dependsOn].status in [OPEN, IN_PROGRESS, DEFERRED]
  }

  predicate TextMatch(b: Bead, db: Db, text: string) {
    db.contains(b.title, text) || db.contains(b.description, text)
  }

  /** The filter that sets nothing. */
  const ALL := Filter([], [], [], [], None, None, None, "", [], [], "", map[], false, [], None, "", 0, 0)

  /** The beads a filter describes, field by field, whatever query is built for it. */
  predicate Accepts(f: Filter, b: Bead, db: Db) {
    AcceptsRow(f, b) && AcceptsLinks(f, b, db) && AcceptsContent(f, b, db)
  }

  predicate AcceptsRow(f: Filter, b: Bead) {
    && (f.status != [] ==> b.status in f.status)
    && (f.typ != [] ==> b.typ in f.typ)
    && b.typ !in f.excludeTypes
    && (f.kind != [] ==> b.kind in f.kind)
    && (f.priority.Some? ==> b.priority == f.priority.value)
    && (f.priorityMin.Some? ==> b.priority >= f.priorityMin.value)
    && (f.priorityMax.Some? ==> b.priority <= f.priorityMax.value)
    && (f.assignee != "" ==> b.assignee == f.assignee)
  }

  predicate AcceptsLinks(f: Filter, b: Bead, db: Db) {
    && (forall l :: l in f.labels ==> (b.id, l) in db.labels)
    && (f.labelsAny != [] ==> exists l :: l in f.labelsAny && (b.id, l) in db.labels)
    && (f.ids != [] ==> b.id in f.ids)
    && (f.updatedAfter.Some? ==> b.updatedAt > f.updatedAfter.value)
    && (f.parentId != "" ==> Dependency(b.id, f.parentId, PARENT_CHILD) in db.deps)
  }

  predicate AcceptsContent(f: Filter, b: Bead, db: Db) {
    && (f.search != "" ==> TextMatch(b, db, f.search))
    && (forall k :: k in f.fields ==> FieldText(b, k) == Some(f.fields[k]))
    && (f.noOpenDeps ==> !HasOpenDep(b, db))
  }

  /** What a field reads as: nothing for a missing or null key, else its text. */
  lemma FieldTextMeans(b: Bead, key: string, v: string)
    ensures FieldText(b, key) == Some(v) <==>
            && b.fields.Fields? && key in b.fields.entries
            && (b.fields.entries[key] == JString(v) || b.fields.entries[key] == JOther(v))
  {}

  /** Everything a filter asks of a bead, spelled out on the row and the tables. */
  lemma AcceptsMeans(f: Filter, b: Bead, db: Db)
    ensures Accepts(f, b, db) <==>
            && (f.status == [] || b.status in f.status)
            && (f.typ == [] || b.typ in f.typ) && b.typ !in f.excludeTypes
            && (f.kind == [] || b.kind in f.kind)
            && (f.priority == None || f.priority == Some(b.priority))
            && (f.priorityMin.Some? ==> f.priorityMin.value <= b.priority)
            && (f.priorityMax.Some? ==> b.priority <= f.priorityMax.value)
            && (f.assignee == "" || b.assignee == f.assignee)
            && (forall l :: l in f.labels ==> (b.id, l) in db.labels)
            && (f.labelsAny == [] || exists l :: l in f.labelsAny && (b.id, l) in db.labels)
            && (f.ids == [] || b.id in f.ids)
            && (f.updatedAfter.Some? ==> f.updatedAfter.value < b.updatedAt)
            && (f.parentId == "" || Dependency(b.id, f.parentId, "parent-child") in db.deps)
            && (f.search == "" || db.contains(b.title, f.search) || db.contains(b.description, f.search))
            && (forall k :: k in f.fields ==>
                  && b.fields.Fields? && k in b.fields.entries
                  && (b.fields.entries[k] == JString(f.fields[k]) || b.fields.entries[k] == JOther(f.fields[k])))
            && (f.noOpenDeps ==>
                  forall d :: d in db.deps && d.beadId == b.id && d.dependsOn in db.beads ==>
                    db.beads[d.dependsOn].status !in ["open", "in_progress", "deferred"])
  {
    forall k | k in f.fields
      ensures FieldText(b, k) == Some(f.fields[k]) <==>
              && b.fields.Fields? && k in b.fields.entries
              && (b.fields.entries[k] == JString(f.fields[k]) || b.fields.entries[k] == JOther(f.fields[k]))
    {
      FieldTextMeans(b, k, f.fields[k]);
    }
    ContentMeans(f, b, db);
  }

  lemma ContentMeans(f: Filter, b: Bead, db: Db)
    ensures (f.search != "" ==> TextMatch(b, db, f.search)) <==>
            f.search == "" || db.contains(b.title, f.search) || db.contains(b.description, f.search)
    ensures HasOpenDep(b, db) <==>
            !forall d :: d in db.deps && d.beadId == b.id && d.dependsOn in db.beads ==>
              db.beads[d.dependsOn].status !in ["open", "in_progress", "deferred"]
  {}

  // ------------------------------------------------------ the query's meaning

  /** The text columns that IN lists compare with. */
  datatype TextColumn = Status | Type | Kind | Assignee

  /** An argument as the driver sends it. */
  datatype Value = Text(s: string) | Int(i: int) | TextArray(ss: seq<string>) | Stamp(t: Time)

  datatype Comparison = Eq | Ge | Le

  /** One WHERE clause; the numbers are its placeholders $1, $2, ... */
  datatype Clause =
    | In(col: TextColumn, ps: seq<nat>)
    | NotIn(col: TextColumn, ps: seq<nat>)
    | PriorityIs(cmp: Comparison, p: nat)
    | AssigneeIs(p: nat)
    | LabelIs(p: nat)
    | LabelAny(p: nat)
    | IdAny(p: nat)
    | UpdatedAfter(p: nat)
    | ParentIs(p: nat)
    | Search(p: nat)
    | FieldIs(kp: nat, vp: nat)
    | NoOpenDeps

  datatype Query = Query(where: seq<Clause>, args: seq<Value>, limit: Option<nat>, offset: Option<nat>)

  function ColumnOf(b: Bead, col: TextColumn): string {
    match col
    case Status => b.status
    case Type => b.typ
    case Kind => b.kind
    case Assignee => b.assignee
  }

  predicate Compare(cmp: Comparison, x: int, y: int) {
    match cmp
    case Eq => x == y
    case Ge => x >= y
    case Le => x <= y
  }

  predicate IsText(args: seq<Value>, p: nat) {
    1 <= p <= |args| && args[p - 1].Text?
  }

  predicate IsInt(args: seq<Value>, p: nat) {
    1 <= p <= |args| && args[p - 1].Int?
  }

  predicate IsArray(args: seq<Value>, p: nat) {
    1 <= p <= |args| && args[p - 1].TextArray?
  }

  predicate IsStamp(args: seq<Value>, p: nat) {
    1 <= p <= |args| && args[p - 1].Stamp?
  }

  /** Every placeholder names an argument of the type the clause compares with. */
  predicate Bound(c: Clause, args: seq<Value>) {
    match c
    case In(_, ps) => forall p :: p in ps ==> IsText(args, p)
    case NotIn(_, ps) => forall p :: p in ps ==> IsText(args, p)
    case PriorityIs(_, p) => IsInt(args, p)
    case AssigneeIs(p) => IsText(args, p)
    case LabelIs(p) => IsText(args, p)
    case LabelAny(p) => IsArray(args, p)
    case IdAny(p) => IsArray(args, p)
    case UpdatedAfter(p) => IsStamp(args, p)
    case ParentIs(p) => IsText(args, p)
    case Search(p) => IsText(args, p)
    case FieldIs(kp, vp) => IsText(args, kp) && IsText(args, vp)
    case NoOpenDeps => true
  }

  /** A clause read against the argument list, $k being argument k. */
  predicate Holds(c: Clause, args: seq<Value>, b: Bead, db: Db)
    requires Bound(c, args)
  {
    match c
    case In(col, ps) => exists p :: p in ps && ColumnOf(b, col) == args[p - 1].s
    case NotIn(col, ps) => forall p :: p in ps ==> ColumnOf(b, col) != args[p - 1].s
    case PriorityIs(cmp, p) => Compare(cmp, b.priority, args[p - 1].i)
    case AssigneeIs(p) => b.assignee == args[p - 1].s
    case LabelIs(p) => (b.id, args[p - 1].s) in db.labels
    case LabelAny(p) => exists l :: l in args[p - 1].ss && (b.id, l) in db.labels
    case IdAny(p) => b.id in args[p - 1].ss
    case UpdatedAfter(p) => b.updatedAt > args[p - 1].t
    case ParentIs(p) => Dependency(b.id, args[p - 1].s, PARENT_CHILD) in db.deps
    case Search(p) => TextMatch(b, db, args[p - 1].s)
    case FieldIs(kp, vp) => FieldText(b, args[kp - 1].s) == Some(args[vp - 1].s)
    case NoOpenDeps => !HasOpenDep(b, db)
  }

  predicate AllBound(where: seq<Clause>, args: seq<Value>) {
    forall i :: 0 <= i < |where| ==> Bound(where[i], args)
  }

  /** The WHERE clauses joined with AND; no clauses, no condition. */
  predicate Selects(where: seq<Clause>, args: seq<Value>, b: Bead, db: Db)
    requires AllBound(where, args)
  {
    forall i :: 0 <= i < |where| ==> Holds(where[i], args, b, db)
  }

  /** Later arguments do not change what a clause says. */
  lemma HoldsFrame(c: Clause, args: seq<Value>, more: seq<Value>, b: Bead, db: Db)
    requires Bound(c, args)
    ensures Bound(c, args + more)
    ensures Holds(c, args + more, b, db) == Holds(c, args, b, db)
  {
    match c
    case In(col, ps) =>
      assert forall p :: p in ps ==> (args + more)[p - 1] == args[p - 1];
    case NotIn(col, ps) =>
      assert forall p :: p in ps ==> (args + more)[p - 1] == args[p - 1];
    case _ =>
  }

  /** A further clause with its arguments is a further condition, and nothing else. */
  lemma AddClause(where: seq<Clause>, args: seq<Value>, c: Clause, more: seq<Value>)
    requires AllBound(where, args) && Bound(c, args + more)
    ensures AllBound(where + [c], args + more)
    ensures forall b, db :: Selects(where + [c], args + more, b, db)
              <==> Selects(where, args, b, db) && Holds(c, args + more, b, db)
  {
    forall i, b, db | 0 <= i < |where|
      ensures Bound(where[i], args + more)
      ensures Holds(where[i], args + more, b, db) == Holds(where[i], args, b, db)
    {
      HoldsFrame(where[i], args, more, b, db);
    }
    BoundFrame(where, args, more);
    var all := where + [c];
    assert all[|where|] == c && forall i :: 0 <= i < |where| ==> all[i] == where[i];
    forall b, db
      ensures Selects(all, args + more, b, db) <==> Selects(where, args, b, db) && Holds(c, args + more, b, db)
    {
      if Selects(all, args + more, b, db) {
        assert forall i :: 0 <= i < |where| ==> Holds(all[i], args + more, b, db);
        assert Holds(all[|where|], args + more, b, db);
      }
    }
  }

  lemma BoundFrame(where: seq<Clause>, args: seq<Value>, more: seq<Value>)
    requires AllBound(where, args)
    ensures AllBound(where, args + more)
  {
    forall i | 0 <= i < |where| ensures Bound(where[i], args + more) {
      var c := where[i];
      assert Bound(c, args);
    }
  }

  // ------------------------------------------------------------ the builder

  function Texts(vals: seq<string>): (r: seq<Value>)
    ensures |r| == |vals|
    ensures forall i :: 0 <= i < |r| ==> r[i] == Text(vals[i])
  {
    seq(|vals|, i requires 0 <= i < |vals| => Text(vals[i]))
  }

  function Upto(base: nat, n: nat): (ps: seq<nat>)
    ensures |ps| == n
    ensures forall i :: 0 <= i < n ==> ps[i] == base + i + 1
  {
    seq(n, i => base + i + 1)
  }

  /** A list of consecutive placeholders stands for the list of values bound to it. */
  lemma InList(col: TextColumn, args: seq<Value>, vals: seq<string>)
    ensures var ps, all := Upto(|args|, |vals|), args + Texts(vals);
            && Bound(In(col, ps), all) && Bound(NotIn(col, ps), all)
            && (forall b, db :: Holds(In(col, ps), all, b, db) <==> ColumnOf(b, col) in vals)
            && (forall b, db :: Holds(NotIn(col, ps), all, b, db) <==> ColumnOf(b, col) !in vals)
  {
    var ps, all := Upto(|args|, |vals|), args + Texts(vals);
    forall p | p in ps ensures IsText(all, p) && all[p - 1].s in vals {
      var i :| 0 <= i < |ps| && ps[i] == p;
      assert all[p - 1] == Text(vals[i]);
    }
    forall v | v in vals ensures exists p :: p in ps && all[p - 1].s == v {
      var i :| 0 <= i < |vals| && vals[i] == v;
      assert ps[i] in ps && all[ps[i] - 1].s == v;
    }
  }

  /** The local state of queryListBeads while it builds the statement. */
  class Builder {
    var where: seq<Clause>
    var args: seq<Value>
    var argIdx: nat

    /** Placeholder counter and argument list agree, and every clause is bound. */
    ghost predicate Valid()
      reads this
    {
      argIdx == |args| && AllBound(where, args)
    }

    /** The condition built so far. */
    ghost predicate Meaning(b: Bead, db: Db)
      reads this
    {
      AllBound(where, args) && Selects(where, args, b, db)
    }

    constructor ()
      ensures Valid() && where == [] && args == []
      ensures forall b, db :: Meaning(b, db)
    {
      where, args, argIdx := [], [], 0;
    }

    method NextArg() returns (p: nat)
      modifies this`argIdx
      ensures argIdx == old(argIdx) + 1 && p == argIdx
    {
      argIdx := argIdx + 1;
      p := argIdx;
    }

    /** The placeholders of one IN list; nothing is said about them yet. */
    method BindAll(vals: seq<string>) returns (placeholders: seq<nat>)
      requires argIdx == |args|
      modifies this`argIdx, this`args
      ensures argIdx == |args|
      ensures args == old(args) + Texts(vals)
      ensures placeholders == Upto(|old(args)|, |vals|)
    {
      placeholders := [];
      for i := 0 to |vals|
        invariant argIdx == |args|
        invariant args == old(args) + Texts(vals[..i])
        invariant placeholders == Upto(|old(args)|, i)
      {
        var p := NextArg();
        placeholders := placeholders + [p];
        args := args + [Text(vals[i])];
        assert Texts(vals[..i + 1]) == Texts(vals[..i]) + [Text(vals[i])];
      }
      assert vals[..|vals|] == vals;
    }

    method AddIn(col: TextColumn, vals: seq<string>)
      requires Valid()
      modifies this
      ensures Valid()
      ensures forall b, db ::
                Meaning(b, db) <==> old(Meaning(b, db)) && (vals != [] ==> ColumnOf(b, col) in vals)
    {
      if |vals| > 0 {
        var ps := BindAll(vals);
        where := where + [In(col, ps)];
        InList(col, old(args), vals);
        AddClause(old(where), old(args), In(col, ps), Texts(vals));
      }
    }

    method AddNotIn(col: TextColumn, vals: seq<string>)
      requires Valid()
      modifies this
      ensures Valid()
      ensures forall b, db :: Meaning(b, db) <==> old(Meaning(b, db)) && ColumnOf(b, col) !in vals
    {
      if |vals| > 0 {
        var ps := BindAll(vals);
        where := where + [NotIn(col, ps)];
        InList(col, old(args), vals);
        AddClause(old(where), old(args), NotIn(col, ps), Texts(vals));
      }
    }

    method AddPriorities(f: Filter)
      requires Valid()
      modifies this
      ensures Valid()
      ensures forall b, db :: Meaning(b, db) <==>
                old(Meaning(b, db))
                && (f.priority.Some? ==> b.priority == f.priority.value)
                && (f.priorityMin.Some? ==> b.priority >= f.priorityMin.value)
                && (f.priorityMax.Some? ==> b.priority <= f.priorityMax.value)
    {
      AddPriority(Eq, f.priority);
      AddPriority(Ge, f.priorityMin);
      AddPriority(Le, f.priorityMax);
    }

    method AddPriority(cmp: Comparison, bound: Option<int>)
      requires Valid()
      modifies this
      ensures Valid()
      ensures forall b, db :: Meaning(b, db) <==>
                old(Meaning(b, db)) && (bound.Some? ==> Compare(cmp, b.priority, bound.value))
    {
      if bound.Some? {
        var p := NextArg();
        where := where + [PriorityIs(cmp, p)];
        args := args + [Int(bound.value)];
        AddClause(old(where), old(args), PriorityIs(cmp, p), [Int(bound.value)]);
      }
    }

    method AddAssignee(assignee: string)
      requires Valid()
      modifies this
      ensures Valid()
      ensures forall b, db :: Meaning(b, db) <==>
                old(Meaning(b, db)) && (assignee != "" ==> b.assignee == assignee)
    {
      if assignee != "" {
        var p := NextArg();
        where := where + [AssigneeIs(p)];
        args := args + [Text(assignee)];
        AddClause(old(where), old(args), AssigneeIs(p), [Text(assignee)]);
      }
    }

    /** One clause per label: all of them are required. */
    method AddLabels(labels: seq<string>)
      requires Valid()
      modifies this
      ensures Valid()
      ensures forall b, db :: Meaning(b, db) <==>
                old(Meaning(b, db)) && forall l :: l in labels ==> (b.id, l) in db.labels
    {
      for i := 0 to |labels|
        invariant Valid()
        invariant forall b, db :: Meaning(b, db) <==>
                    old(Meaning(b, db)) && forall l :: l in labels[..i] ==> (b.id, l) in db.labels
      {
        ghost var where0, args0 := where, args;
        var p := NextArg();
        where := where + [LabelIs(p)];
        args := args + [Text(labels[i])];
        AddClause(where0, args0, LabelIs(p), [Text(labels[i])]);
        assert forall l :: l in labels[..i + 1] <==> l in labels[..i] || l == labels[i];
      }
      assert labels[..|labels|] == labels;
    }

    /** One array argument: any of the labels is enough. */
    method AddLabelsAny(labelsAny: seq<string>)
      requires Valid()
      modifies this
      ensures Valid()
      ensures forall b, db :: Meaning(b, db) <==>
                old(Meaning(b, db)) &&
                (labelsAny != [] ==> exists l :: l in labelsAny && (b.id, l) in db.labels)
    {
      if |labelsAny| > 0 {
        var p := NextArg();
        where := where + [LabelAny(p)];
        args := args + [TextArray(labelsAny)];
        AddClause(old(where), old(args), LabelAny(p), [TextArray(labelsAny)]);
      }
    }

    method AddIds(ids: seq<string>)
      requires Valid()
      modifies this
      ensures Valid()
      ensures forall b, db :: Meaning(b, db) <==> old(Meaning(b, db)) && (ids != [] ==> b.id in ids)
    {
      if |ids| > 0 {
        var p := NextArg();
        where := where + [IdAny(p)];
        args := args + [TextArray(ids)];
        AddClause(old(where), old(args), IdAny(p), [TextArray(ids)]);
      }
    }

    method AddUpdatedAfter(after: Option<Time>)
      requires Valid()
      modifies this
      ensures Valid()
      ensures forall b, db :: Meaning(b, db) <==>
                old(Meaning(b, db)) && (after.Some? ==> b.updatedAt > after.value)
    {
      if after.Some? {
        var p := NextArg();
        where := where + [UpdatedAfter(p)];
        args := args + [Stamp(after.value)];
        AddClause(old(where), old(args), UpdatedAfter(p), [Stamp(after.value)]);
      }
    }

    method AddParent(parentId: string)
      requires Valid()
      modifies this
      ensures Valid()
      ensures forall b, db :: Meaning(b, db) <==>
                old(Meaning(b, db)) &&
                (parentId != "" ==> Dependency(b.id, parentId, PARENT_CHILD) in db.deps)
    {
      if parentId != "" {
        var p := NextArg();
        where := where + [ParentIs(p)];
        args := args + [Text(parentId)];
        AddClause(old(where), old(args), ParentIs(p), [Text(parentId)]);
      }
    }

    method AddSearch(search: string)
      requires Valid()
      modifies this
      ensures Valid()
      ensures forall b, db :: Meaning(b, db) <==>
                old(Meaning(b, db)) && (search != "" ==> TextMatch(b, db, search))
    {
      if search != "" {
        var p := NextArg();
        where := where + [Search(p)];
        args := args + [Text(search)];
        AddClause(old(where), old(args), Search(p), [Text(search)]);
      }
    }

    /** Two placeholders per key; the keys come in whatever order the map gives them. */
    method AddFields(fields: map<string, string>)
      requires Valid()
      modifies this
      ensures Valid()
      ensures forall b, db :: Meaning(b, db) <==>
                old(Meaning(b, db)) && forall k :: k in fields ==> FieldText(b, k) == Some(fields[k])
    {
      var keys := fields.Keys;
      while keys != {}
        invariant Valid()
        invariant keys <= fields.Keys
        invariant forall b, db :: Meaning(b, db) <==>
                    old(Meaning(b, db)) && forall k :: k in fields.Keys - keys ==> FieldText(b, k) == Some(fields[k])
        decreases |keys|
      {
        var key :| key in keys;
        ghost var where0, args0 := where, args;
        var kp := NextArg();
        var vp := NextArg();
        where := where + [FieldIs(kp, vp)];
        args := args + [Text(key), Text(fields[key])];
        AddClause(where0, args0, FieldIs(kp, vp), [Text(key), Text(fields[key])]);
        assert fields.Keys - (keys - {key}) == (fields.Keys - keys) + {key};
        keys := keys - {key};
      }
    }

    method AddNoOpenDeps(noOpenDeps: bool)
      requires Valid()
      modifies this
      ensures Valid()
      ensures forall b, db :: Meaning(b, db) <==> old(Meaning(b, db)) && (noOpenDeps ==> !HasOpenDep(b, db))
    {
      if noOpenDeps {
        where := where + [NoOpenDeps];
        AddClause(old(where), old(args), NoOpenDeps, []);
        assert args + [] == args;
      }
    }
  }

  method AddRow(s: Builder, f: Filter)
    requires s.Valid()
    modifies s
    ensures s.Valid()
    ensures forall b, db :: s.Meaning(b, db) <==> old(s.Meaning(b, db)) && AcceptsRow(f, b)
  {
    s.AddIn(TextColumn.Status, f.status);
    s.AddIn(TextColumn.Type, f.typ);
    s.AddNotIn(TextColumn.Type, f.excludeTypes);
    s.AddIn(TextColumn.Kind, f.kind);
    s.AddPriorities(f);
    s.AddAssignee(f.assignee);
  }

  method AddLinks(s: Builder, f: Filter)
    requires s.Valid()
    modifies s
    ensures s.Valid()
    ensures forall b, db :: s.Meaning(b, db) <==> old(s.Meaning(b, db)) && AcceptsLinks(f, b, db)
  {
    s.AddLabels(f.labels);
    s.AddLabelsAny(f.labelsAny);
    s.AddIds(f.ids);
    s.AddUpdatedAfter(f.updatedAfter);
    s.AddParent(f.parentId);
  }

  method AddContent(s: Builder, f: Filter)
    requires s.Valid()
    modifies s
    ensures s.Valid()
    ensures forall b, db :: s.Meaning(b, db) <==> old(s.Meaning(b, db)) && AcceptsContent(f, b, db)
  {
    s.AddSearch(f.search);
    s.AddFields(f.fields);
    s.AddNoOpenDeps(f.noOpenDeps);
  }

  /**
   queryListBeads up to the finished statement. Read against its arguments the
   WHERE clause selects exactly the beads the filter describes, every placeholder
   names an argument of its own type, and the placeholders after LIMIT and OFFSET
   name the limit and the offset.
   */
  method CompileFilter(f: Filter) returns (q: Query)
    ensures AllBound(q.where, q.args)
    ensures forall b, db :: Selects(q.where, q.args, b, db) <==> Accepts(f, b, db)
    ensures q.limit.Some? <==> f.limit > 0
    ensures q.limit.Some? ==> IsInt(q.args, q.limit.value) && q.args[q.limit.value - 1].i == f.limit
    ensures q.offset.Some? <==> f.offset > 0
    ensures q.offset.Some? ==> IsInt(q.args, q.offset.value) && q.args[q.offset.value - 1].i == f.offset
  {
    var s := new Builder();
    AddRow(s, f);
    AddLinks(s, f);
    AddContent(s, f);
    q := Query(s.where, s.args, None, None);
    forall b, db ensures Selects(q.where, q.args, b, db) <==> Accepts(f, b, db) {
      assert s.Meaning(b, db) <==> Accepts(f, b, db);
    }
    if f.limit > 0 {
      var p := s.NextArg();
      MoreArgs(f, q, [Int(f.limit)]);
      q := q.(args := q.args + [Int(f.limit)], limit := Some(p));
    }
    if f.offset > 0 {
      var p := s.NextArg();
      MoreArgs(f, q, [Int(f.offset)]);
      q := q.(args := q.args + [Int(f.offset)], offset := Some(p));
    }
  }

  /** The WHERE clauses of q select what f describes. */
  ghost predicate Compiled(f: Filter, q: Query) {
    && AllBound(q.where, q.args)
    && forall b, db :: Selects(q.where, q.args, b, db) <==> Accepts(f, b, db)
  }

  lemma MoreArgs(f: Filter, q: Query, more: seq<Value>)
    requires Compiled(f, q)
    ensures Compiled(f, q.(args := q.args + more))
  {
    BoundFrame(q.where, q.args, more);
    forall b, db ensures Selects(q.where, q.args + more, b, db) <==> Selects(q.where, q.args, b, db) {
      forall i | 0 <= i < |q.where|
        ensures Holds(q.where[i], q.args + more, b, db) == Holds(q.where[i], q.args, b, db)
      {
        HoldsFrame(q.where[i], q.args, more, b, db);
      }
    }
  }

  // ------------------------------------------------------------- the page

  /** The rows of a statement, `ranked` being the table in the order of its ORDER BY. */
  function Rows(q: Query, ranked: seq<Bead>, db: Db): (rows: seq<Bead>)
    requires AllBound(q.where, q.args)
    ensures |rows| <= |ranked|
  {
    if ranked == [] then []
    else
      var n := |ranked| - 1;
      Rows(q, ranked[..n], db) + if Selects(q.where, q.args, ranked[n], db) then [ranked[n]] else []
  }

  function Skip(rows: seq<Bead>, n: int): seq<Bead> {
    if n <= 0 then rows else if n >= |rows| then [] else rows[n..]
  }

  function Take(rows: seq<Bead>, n: int): seq<Bead> {
    if n <= 0 || n >= |rows| then rows else rows[..n]
  }

  /** The accepted beads of a ranking, in its order. */
  function Accepted(f: Filter, ranked: seq<Bead>, db: Db): (r: seq<Bead>)
    ensures forall b :: b in r <==> b in ranked && Accepts(f, b, db)
  {
    if ranked == [] then []
    else
      var n := |ranked| - 1;
      assert ranked == ranked[..n] + [ranked[n]];
      Accepted(f, ranked[..n], db) + if Accepts(f, ranked[n], db) then [ranked[n]] else []
  }

  lemma AcceptedOne(f: Filter, b: Bead, db: Db)
    ensures Accepted(f, [b], db) == if Accepts(f, b, db) then [b] else []
  {
    assert [b][..0] == [];
  }

  lemma AcceptedMore(f: Filter, front: seq<Bead>, b: Bead, db: Db)
    ensures Accepted(f, front + [b], db) == Accepted(f, front, db) + Accepted(f, [b], db)
  {
    AcceptedOne(f, b, db);
    assert (front + [b])[..|front|] == front;
  }

  lemma Combine<T>(a: seq<T>, b: seq<T>, c: seq<T>)
    ensures a + b + c == a + (b + c)
  {}

  lemma AcceptedLast(f: Filter, a: seq<Bead>, front: seq<Bead>, b: Bead, db: Db)
    requires Accepted(f, a + front, db) == Accepted(f, a, db) + Accepted(f, front, db)
    ensures Accepted(f, a + (front + [b]), db) == Accepted(f, a, db) + Accepted(f, front + [b], db)
  {
    Combine(a, front, [b]);
    AcceptedMore(f, a + front, b, db);
    AcceptedMore(f, front, b, db);
    Combine(Accepted(f, a, db), Accepted(f, front, db), Accepted(f, [b], db));
  }

  /** The accepted beads keep the order and the repetitions of the ranking. */
  lemma {:induction false} AcceptedInOrder(f: Filter, a: seq<Bead>, b: seq<Bead>, db: Db)
    ensures Accepted(f, a + b, db) == Accepted(f, a, db) + Accepted(f, b, db)
  {
    if b == [] {
      assert a + b == a;
    } else {
      var front, last := b[..|b| - 1], b[|b| - 1];
      assert b == front + [last];
      AcceptedInOrder(f, a, front, db);
      AcceptedLast(f, a, front, last, db);
    }
  }

  lemma {:induction false} RowsAccepted(f: Filter, q: Query, ranked: seq<Bead>, db: Db)
    requires Compiled(f, q)
    ensures Rows(q, ranked, db) == Accepted(f, ranked, db)
  {
    if ranked != [] {
      RowsAccepted(f, q, ranked[..|ranked| - 1], db);
    }
  }

  /**
   queryListBeads: compile, run, then scan the page; the total is read off the
   window count that each returned row carries, so a page without rows has none.
   */
  method ListBeads(f: Filter, ranked: seq<Bead>, db: Db) returns (beads: seq<Bead>, total: nat)
    ensures beads == Take(Skip(Accepted(f, ranked, db), f.offset), f.limit)
    ensures total == |Accepted(f, ranked, db)| <==>
            Accepted(f, ranked, db) == [] || f.offset < |Accepted(f, ranked, db)|
    ensures total == |Accepted(f, ranked, db)| || total == 0
    ensures f.limit > 0 ==> |beads| <= f.limit
    ensures f.limit <= 0 && f.offset <= 0 ==> forall b :: b in beads <==> b in ranked && Accepts(f, b, db)
    ensures f.noOpenDeps ==>
              forall b, d :: b in beads && d in db.deps && d.beadId == b.id && d.dependsOn in db.beads ==>
                db.beads[d.dependsOn].status !in ["open", "in_progress", "deferred"]
    ensures f == ALL.(noOpenDeps := true) ==>
              forall b :: b in beads <==>
                b in ranked && forall d :: d in db.deps && d.beadId == b.id && d.dependsOn in db.beads ==>
                  db.beads[d.dependsOn].status !in ["open", "in_progress", "deferred"]
  {
    var q := CompileFilter(f);
    RowsAccepted(f, q, ranked, db);
    var matching := Rows(q, ranked, db);
    var page := matching;
    if q.offset.Some? {
      page := Skip(page, q.args[q.offset.value - 1].i);
    }
    if q.limit.Some? {
      page := Take(page, q.args[q.limit.value - 1].i);
    }
    beads, total := [], 0;
    for i := 0 to |page|
      invariant beads == page[..i]
      invariant total == if i == 0 then 0 else |matching|
    {
      total := |matching|;
      beads := beads + [page[i]];
    }
    assert page[..|page|] == page;
    PageOf(Accepted(f, ranked, db), f.offset, f.limit);
    forall b ensures b in beads ==> Accepts(f, b, db) {}
    NoOpenDepsMeans(f, db);
  }

  lemma SkipIs(rows: seq<Bead>, n: int)
    ensures var rest, start := Skip(rows, n), if n < 0 then 0 else n;
            && |rest| == (if start >= |rows| then 0 else |rows| - start)
            && (forall i :: 0 <= i < |rest| ==> rest[i] == rows[i + start])
            && (n <= 0 ==> rest == rows)
  {}

  lemma TakeIs(rows: seq<Bead>, n: int)
    ensures var page := Take(rows, n);
            && |page| == (if n <= 0 || n >= |rows| then |rows| else n)
            && (forall i :: 0 <= i < |page| ==> page[i] == rows[i])
            && (n <= 0 ==> page == rows)
  {}

  /** A page is a stretch of the rows in their order: from the offset on, as many as the limit allows. */
  lemma PageOf(rows: seq<Bead>, offset: int, limit: int)
    ensures var page, start := Take(Skip(rows, offset), limit), if offset < 0 then 0 else offset;
            && |page| == (var left := if start >= |rows| then 0 else |rows| - start;
                          if limit <= 0 || limit >= left then left else limit)
            && (forall i :: 0 <= i < |page| ==> i + start < |rows| && page[i] == rows[i + start])
            && (limit <= 0 && offset <= 0 ==> page == rows)
  {
    SkipIs(rows, offset);
    TakeIs(Skip(rows, offset), limit);
  }

  /** What the open-dependency switch asks of each bead, alone and beside other criteria. */
  lemma NoOpenDepsMeans(f: Filter, db: Db)
    ensures f.noOpenDeps ==>
              forall b, d :: Accepts(f, b, db) && d in db.deps && d.beadId == b.id && d.dependsOn in db.beads ==>
                db.beads[d.dependsOn].status !in ["open", "in_progress", "deferred"]
    ensures f == ALL.(noOpenDeps := true) ==>
              forall b :: Accepts(f, b, db) <==>
                forall d :: d in db.deps && d.beadId == b.id && d.dependsOn in db.beads ==>
                  db.beads[d.dependsOn].status !in ["open", "in_progress", "deferred"]
  {
    forall b ensures f.noOpenDeps && Accepts(f, b, db) ==> !HasOpenDep(b, db) {
      ContentMeans(f, b, db);
    }
    if f == ALL.(noOpenDeps := true) {
      forall b
        ensures Accepts(f, b, db) <==>
                forall d :: d in db.deps && d.beadId == b.id && d.dependsOn in db.beads ==>
                  db.beads[d.dependsOn].status !in ["open", "in_progress", "deferred"]
      {
        AcceptsMeans(f, b, db);
      }
    }
  }
}
