/**
 Burning as the undo of pouring, wherever the pour stopped: it carries on after no
 failing call and takes nothing back, and a forced burn of its molecule removes
 whatever it left (cmd/kd/formula_apply.go, cmd/kd/mol_burn.go).
 */
module MoleculeUndo {
  import opened Beads
  import opened BeadServer
  import opened Lifecycle
  import opened MoleculeLaws
  import opened MoleculeShape
  import opened Molecules
  import opened Store
  import opened Templates

  /** The identifiers of the first n children. */
  function KidIds(ids: seq<string>, n: nat): set<string>
    requires n < |ids|
  {
    Ids(ids, 1, n + 1)
  }

  /** `st0` with a molecule ids[0], n children, and some blocks edges between children. */
  ghost predicate Grown(st0: Store, st: Store, ids: seq<string>, n: nat) {
    && n < |ids| && DistinctUpTo(ids, n + 1)
    && BeadsGrown(st0, st, ids, n) && EdgesGrown(st0.deps, st.deps, ids, n)
    && st0.labels <= st.labels && (forall l :: l in st.labels - st0.labels ==> l.0 in Ids(ids, 0, n + 1))
    && st.gates == st0.gates
  }

  ghost predicate BeadsGrown(st0: Store, st: Store, ids: seq<string>, n: nat)
    requires n < |ids|
  {
    && st.beads.Keys == st0.beads.Keys + Ids(ids, 0, n + 1)
    && (forall k :: 0 <= k <= n ==> ids[k] !in st0.beads)
    && (forall id :: id in st0.beads ==> st.beads[id] == st0.beads[id])
    && ids[0] in st.beads && st.beads[ids[0]].typ == "molecule"
  }

  ghost predicate EdgesGrown(deps0: set<Dependency>, deps: set<Dependency>, ids: seq<string>, n: nat)
    requires n < |ids|
  {
    && deps0 <= deps && Family(ids, n) <= deps
    && (forall d :: d in deps && d !in deps0 && d !in Family(ids, n) ==>
          d.typ == BLOCKS && d.beadId in KidIds(ids, n) && d.dependsOn in KidIds(ids, n))
  }

  // --------------------------------------------------------------- pouring

  lemma MoleculeGrows(types: Types, st0: Store, id: string, in_: CreateInput, now: Time, ids: seq<string>)
    requires Linked(st0) && ids != [] && id == ids[0] && in_.typ == "molecule"
    requires Creatable(types, st0, id, in_, now)
    ensures Grown(st0, AfterCreate(types, st0, id, in_, now), ids, 0)
  {
    assert Ids(ids, 0, 1) == {ids[0]};
    assert Family(ids, 0) == {};
  }

  /** A child's request is refused, or the child and its edge are both there. */
  lemma KidGrows(types: Types, st0: Store, st: Store, r: Run, ids: seq<string>, n: nat, in_: CreateInput, now: Time)
    requires n + 1 < |ids| && Fresh(st0, ids, n + 2) && Linked(st0) && Grown(st0, st, ids, n)
    requires r == CreateKid(types, st, ids[0], ids[n + 1], in_, now)
    ensures Grown(st0, r.st, ids, if r.ok then n + 1 else n)
  {
    var d := Dependency(ids[n + 1], ids[0], PARENT_CHILD);
    assert ids[n + 1] !in st.beads;
    assert ids[n + 1] !in KidIds(ids, n);
    assert d !in st.deps;
    if Creatable(types, st, ids[n + 1], in_, now) {
      var st' := AfterCreate(types, st, ids[n + 1], in_, now);
      assert Ids(ids, 0, n + 2) == Ids(ids, 0, n + 1) + {ids[n + 1]};
      OneMoreEdge(st0.deps, st.deps, ids, n);
      LabelsGrow(st0.labels, st.labels, ids, n, in_.labels);
    }
  }

  lemma OneMoreEdge(deps0: set<Dependency>, deps: set<Dependency>, ids: seq<string>, n: nat)
    requires n + 1 < |ids| && EdgesGrown(deps0, deps, ids, n)
    ensures EdgesGrown(deps0, deps + {Dependency(ids[n + 1], ids[0], PARENT_CHILD)}, ids, n + 1)
  {
    assert Family(ids, n + 1) == Family(ids, n) + {Dependency(ids[n + 1], ids[0], PARENT_CHILD)};
    assert KidIds(ids, n + 1) == KidIds(ids, n) + {ids[n + 1]};
  }

  lemma LabelsGrow(labels0: set<(string, string)>, labels: set<(string, string)>, ids: seq<string>, n: nat,
      ls: seq<string>)
    requires n + 1 < |ids| && labels0 <= labels
    requires forall l :: l in labels - labels0 ==> l.0 in Ids(ids, 0, n + 1)
    ensures var more := labels + LabelRows(ids[n + 1], ls);
            labels0 <= more && forall l :: l in more - labels0 ==> l.0 in Ids(ids, 0, n + 2)
  {}

  /** After the creating loop, as far as it came. */
  lemma {:induction false} KidsGrow(types: Types, st0: Store, st1: Store, kids: seq<Kid>, ids: seq<string>,
      clock: nat -> Time, m: nat) returns (n: nat)
    requires m <= |kids| < |ids| && Fresh(st0, ids, m + 1) && Linked(st0) && Grown(st0, st1, ids, 0)
    ensures n <= m && Grown(st0, CreateKids(types, st1, kids, ids, clock, m).st, ids, n)
    ensures CreateKids(types, st1, kids, ids, clock, m).ok ==> n == m
  {
    if m == 0 {
      n := 0;
    } else {
      n := KidsGrow(types, st0, st1, kids, ids, clock, m - 1);
      var before, after := CreateKids(types, st1, kids, ids, clock, m - 1), CreateKids(types, st1, kids, ids, clock, m);
      if before.ok {
        KidGrows(types, st0, before.st, after, ids, m - 1, kids[m - 1].input, clock(m));
        n := if after.ok then m else m - 1;
      }
    }
  }

  lemma LinkGrows(st0: Store, st: Store, ids: seq<string>, n: nat, d: Dependency)
    requires Grown(st0, st, ids, n) && d.typ == BLOCKS && d.beadId in KidIds(ids, n) && d.dependsOn in KidIds(ids, n)
    ensures Grown(st0, Add(st, d).st, ids, n)
  {}

  lemma {:induction false} DepsGrow(st0: Store, st: Store, ids: seq<string>, n: nat, from: string, deps: seq<string>,
      idOf: map<string, string>)
    requires Grown(st0, st, ids, n) && from in KidIds(ids, n)
    requires forall s :: s in idOf ==> idOf[s] in KidIds(ids, n)
    ensures Grown(st0, LinkDeps(st, from, deps, idOf).st, ids, n)
  {
    if deps != [] {
      var m := |deps| - 1;
      DepsGrow(st0, st, ids, n, from, deps[..m], idOf);
      if deps[m] in idOf {
        LinkGrows(st0, LinkDeps(st, from, deps[..m], idOf).st, ids, n, Dependency(from, idOf[deps[m]], BLOCKS));
      }
    }
  }

  lemma {:induction false} LinksGrow(st0: Store, st: Store, ids: seq<string>, n: nat, kids: seq<Kid>,
      idOf: map<string, string>, m: nat)
    requires m <= |kids| && Grown(st0, st, ids, n)
    requires forall k :: 0 <= k < |kids| ==> kids[k].stepId in idOf
    requires forall s :: s in idOf ==> idOf[s] in KidIds(ids, n)
    ensures Grown(st0, LinkKids(st, kids, idOf, m).st, ids, n)
  {
    if m > 0 {
      LinksGrow(st0, st, ids, n, kids, idOf, m - 1);
      var before := LinkKids(st, kids, idOf, m - 1);
      DepsGrow(st0, before.st, ids, n, idOf[kids[m - 1].stepId], kids[m - 1].deps, idOf);
    }
  }

  lemma {:induction false} IdsOfKids(kids: seq<Kid>, ids: seq<string>, m: nat)
    requires m <= |kids| < |ids|
    ensures forall s :: s in IdOf(kids, ids, m) ==> IdOf(kids, ids, m)[s] in KidIds(ids, m)
  {
    if m > 0 {
      IdsOfKids(kids, ids, m - 1);
    }
  }

  /** Wherever a pour stops, once its molecule is there the store has grown by a family and nothing else. */
  lemma PourGrows(types: Types, st0: Store, plan: Plan, ids: seq<string>, clock: nat -> Time) returns (n: nat)
    requires |plan.kids| < |ids| && Linked(st0) && Fresh(st0, ids, |plan.kids| + 1) && plan.mol.typ == "molecule"
    ensures var st := Pour(types, st0, plan, ids, clock).st;
            if ids[0] in st.beads then Grown(st0, st, ids, n) else st == st0
    ensures Pour(types, st0, plan, ids, clock).ok ==> ids[0] in Pour(types, st0, plan, ids, clock).st.beads
  {
    n := 0;
    var m := |plan.kids|;
    if m > 0 && Creatable(types, st0, ids[0], plan.mol, clock(0)) {
      var st1 := AfterCreate(types, st0, ids[0], plan.mol, clock(0));
      MoleculeGrows(types, st0, ids[0], plan.mol, clock(0), ids);
      n := KidsGrow(types, st0, st1, plan.kids, ids, clock, m);
      var made := CreateKids(types, st1, plan.kids, ids, clock, m);
      if made.ok {
        IdsOfKids(plan.kids, ids, m);
        LinksGrow(st0, made.st, ids, m, plan.kids, IdOf(plan.kids, ids, m), m);
      }
    }
  }

  // --------------------------------------------------------------- burning

  lemma FamilyOfGrown(st0: Store, st: Store, ids: seq<string>, n: nat)
    requires Linked(st0) && Grown(st0, st, ids, n)
    ensures Children(st, ids[0]) == KidIds(ids, n)
    ensures Linked(st) && Burnable(st, ids[0]) && ids[0] !in Children(st, ids[0])
  {
    forall c ensures c in Children(st, ids[0]) <==> c in KidIds(ids, n) {
      var d := Dependency(c, ids[0], PARENT_CHILD);
      assert d !in st0.deps;
      assert d in st.deps <==> d in Family(ids, n);
      if c in KidIds(ids, n) {
        var k :| 1 <= k < n + 1 && ids[k] == c;
        assert d in Family(ids, n);
      }
    }
    assert forall c :: c in KidIds(ids, n) ==> c in Ids(ids, 0, n + 1);
  }

  lemma GrownIsUndone(st0: Store, st: Store, ids: seq<string>, n: nat)
    requires Linked(st0) && Grown(st0, st, ids, n)
    ensures Without(st, KidIds(ids, n) + {ids[0]}) == st0
  {
    var gone := Ids(ids, 0, n + 1);
    assert KidIds(ids, n) + {ids[0]} == gone;
    var st' := Without(st, gone);
    assert forall id :: id in gone ==> id !in st0.beads;
    assert st'.beads == st0.beads;
    assert st'.labels == st0.labels by {
      forall l ensures l in st'.labels <==> l in st0.labels {}
    }
    assert st'.deps == st0.deps by {
      forall d ensures d in st'.deps <==> d in st0.deps {
        assert forall c :: c in KidIds(ids, n) ==> c in gone;
      }
    }
    assert st'.gates == st0.gates;
  }

  /**
   Burning undoes a pour wherever the pour stopped: whatever a pour with fresh
   identifiers left of its molecule, a forced burn of it restores every table.
   */
  lemma BurnUndoesAnyPour(types: Types, st0: Store, plan: Plan, ids: seq<string>, clock: nat -> Time)
    requires |plan.kids| < |ids| && Linked(st0) && Fresh(st0, ids, |plan.kids| + 1) && plan.mol.typ == "molecule"
    ensures var st := Pour(types, st0, plan, ids, clock).st;
            && Linked(st)
            && (if ids[0] in st.beads
                then Burnable(st, ids[0]) && ids[0] !in Children(st, ids[0]) &&
                     Without(st, Children(st, ids[0]) + {ids[0]}) == st0
                else st == st0)
    ensures Pour(types, st0, plan, ids, clock).ok ==> ids[0] in Pour(types, st0, plan, ids, clock).st.beads
  {
    var st := Pour(types, st0, plan, ids, clock).st;
    var n := PourGrows(types, st0, plan, ids, clock);
    if ids[0] in st.beads {
      FamilyOfGrown(st0, st, ids, n);
      GrownIsUndone(st0, st, ids, n);
    }
  }

  /** A formula is poured, successfully or not, and its molecule burned by force. */
  method PourAndBurn(server: Server, types: Types, f: FormulaBead, opts: Options, vars: Vars, fields: Fields,
      ids: seq<string>, clock: nat -> Time) returns (ok: bool, r: BurnResult)
    requires RowsNamed(server.st) && Linked(server.st)
    requires |ids| > |ActiveOf(f, vars)| && Fresh(server.st, ids, |ActiveOf(f, vars)| + 1)
    modifies server
    ensures server.st == old(server.st)
    ensures r == Burned || r == Failed
    ensures ok ==> r == Burned
  {
    ghost var plan := PlanOf(f, opts, vars, fields);
    BurnUndoesAnyPour(types, server.st, plan, ids, clock);
    ok := Apply(server, types, f, opts, vars, fields, ids, clock);
    r := Burn(server, ids[0], false, true);
  }
}
