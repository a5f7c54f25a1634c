/**
 The roster of live agents (internal/presence/tracker.go): hook events keep an
 actor alive, sweeps mark silent actors dead and later forget them. Durations
 are in seconds, and every reading of the clock is a parameter.
 */
module Presence {
  import opened Beads

  datatype HookEvent = HookEvent(actor: string, hookType: string, toolName: string, sessionID: string, cwd: string)

  datatype Actor = Actor(
    firstSeen: Time, lastSeen: Time, lastEvent: string, toolName: string, sessionID: string, cwd: string,
    eventCount: nat, reaped: bool, reapedAt: Time)

  datatype Config = Config(deadThreshold: nat, evictAfter: nat)

  /** Actors with fewer events than this are taken to be ephemeral and forgotten sooner. */
  const FEW_EVENTS := 10
  const EPHEMERAL_EVICT := 5 * 60

  type Roster = map<string, Actor>

  function Keep(given: string, previous: string): string {
    if given != "" then given else previous
  }

  function AfterHook(m: Roster, ev: HookEvent, now: Time): Roster {
    if ev.actor == "" then m
    else
      var a := if ev.actor in m then m[ev.actor] else Actor(now, ZERO_TIME, "", "", "", "", 0, false, ZERO_TIME);
      m[ev.actor := Actor(a.firstSeen, now, ev.hookType, Keep(ev.toolName, a.toolName),
                          Keep(ev.sessionID, a.sessionID), Keep(ev.cwd, a.cwd), a.eventCount + 1,
                          false, if a.reaped then ZERO_TIME else a.reapedAt)]
  }

  function EvictThreshold(cfg: Config, a: Actor): nat {
    if a.eventCount < FEW_EVENTS then EPHEMERAL_EVICT else cfg.evictAfter
  }

  /** A sweep forgets the actor. */
  predicate Evicted(cfg: Config, a: Actor, now: Time) {
    a.reaped && a.reapedAt != ZERO_TIME && now - a.reapedAt > EvictThreshold(cfg, a)
  }

  /** A sweep finds the actor newly dead. */
  predicate Dies(cfg: Config, a: Actor, now: Time) {
    !a.reaped && now - a.lastSeen > cfg.deadThreshold
  }

  function Swept(cfg: Config, a: Actor, now: Time): Actor {
    if Dies(cfg, a, now) then a.(reaped := true, reapedAt := now) else a
  }

  function AfterSweep(cfg: Config, m: Roster, now: Time): (m': Roster)
    ensures forall k :: k in m' <==> k in m && !Evicted(cfg, m[k], now)
    ensures forall k :: k in m' ==> m'[k] == Swept(cfg, m[k], now)
  {
    map k | k in m && !Evicted(cfg, m[k], now) :: Swept(cfg, m[k], now)
  }

  /** A line of the roster. */
  datatype Entry = Entry(
    actor: string, lastSeen: Time, firstSeen: Time, lastEvent: string, toolName: string, sessionID: string, cwd: string,
    idle: int, eventCount: nat, sessionDuration: int, reaped: bool, reapedAt: Time)

  function EntryOf(name: string, a: Actor, started: Time, now: Time): Entry {
    var firstSeen := if a.firstSeen == ZERO_TIME then started else a.firstSeen;
    Entry(name, a.lastSeen, firstSeen, a.lastEvent, a.toolName, a.sessionID, a.cwd, now - a.lastSeen, a.eventCount,
          now - firstSeen, a.reaped, a.reapedAt)
  }

  predicate Stale(a: Actor, threshold: int, now: Time) {
    threshold > 0 && now - a.lastSeen > threshold
  }

  /** The actors a roster shows. */
  function Shown(m: Roster, threshold: int, now: Time): set<string> {
    set k | k in m && !Stale(m[k], threshold, now)
  }

  /** Lines for some actors, one each. */
  ghost predicate Lines(entries: seq<Entry>, m: Roster, names: set<string>, started: Time, now: Time)
    requires names <= m.Keys
  {
    && |entries| == |names|
    && (forall k :: k in names ==> EntryOf(k, m[k], started, now) in entries)
    && (forall e :: e in entries ==> e.actor in names && e == EntryOf(e.actor, m[e.actor], started, now))
  }

  predicate MostRecentFirst(entries: seq<Entry>) {
    forall i, j :: 0 <= i < j < |entries| ==> entries[i].lastSeen >= entries[j].lastSeen
  }

  /** sort.Slice by last seen, as insertion. */
  function Insert(e: Entry, es: seq<Entry>): seq<Entry> {
    if es == [] || e.lastSeen >= es[0].lastSeen then [e] + es else [es[0]] + Insert(e, es[1..])
  }

  function SortEntries(es: seq<Entry>): seq<Entry> {
    if es == [] then [] else Insert(es[0], SortEntries(es[1..]))
  }

  lemma {:induction false} InsertIs(e: Entry, es: seq<Entry>)
    ensures |Insert(e, es)| == |es| + 1 && forall x :: x in Insert(e, es) <==> x == e || x in es
    ensures MostRecentFirst(es) ==> MostRecentFirst(Insert(e, es))
  {
    if es != [] && e.lastSeen < es[0].lastSeen {
      InsertIs(e, es[1..]);
      assert es == [es[0]] + es[1..];
      if MostRecentFirst(es) {
        var rest := Insert(e, es[1..]);
        forall j | 0 <= j < |rest| ensures es[0].lastSeen >= rest[j].lastSeen {
          assert rest[j] in rest;
        }
      }
    }
  }

  /** Sorting keeps the lines and puts them in order. */
  lemma {:induction false} SortIs(es: seq<Entry>)
    ensures |SortEntries(es)| == |es| && (forall x :: x in SortEntries(es) <==> x in es)
    ensures MostRecentFirst(SortEntries(es))
  {
    if es != [] {
      SortIs(es[1..]);
      InsertIs(es[0], SortEntries(es[1..]));
      assert es == [es[0]] + es[1..];
    }
  }

  class Tracker {
    var actors: Roster
    var started: Time

    constructor (now: Time)
      ensures actors == map[] && started == now
    {
      actors, started := map[], now;
    }

    /** One event: the actor's entry is created or revived, counted and updated; nobody else's changes. */
    method RecordHookEvent(ev: HookEvent, now: Time)
      modifies this`actors
      ensures actors == AfterHook(old(actors), ev, now)
      ensures ev.actor == "" ==> actors == old(actors)
      ensures ev.actor != "" ==> ev.actor in actors && actors.Keys == old(actors).Keys + {ev.actor}
      ensures forall k :: k in old(actors) && k != ev.actor ==> actors[k] == old(actors)[k]
      ensures ev.actor != "" ==>
                var s := actors[ev.actor];
                && s.lastSeen == now && s.lastEvent == ev.hookType && !s.reaped
                && (ev.toolName != "" ==> s.toolName == ev.toolName)
                && (ev.sessionID != "" ==> s.sessionID == ev.sessionID)
                && (ev.cwd != "" ==> s.cwd == ev.cwd)
      ensures ev.actor != "" && ev.actor !in old(actors) ==>
                var s := actors[ev.actor];
                && s.firstSeen == now && s.eventCount == 1 && s.reapedAt == ZERO_TIME
                && s.toolName == ev.toolName && s.sessionID == ev.sessionID && s.cwd == ev.cwd
      ensures ev.actor != "" && ev.actor in old(actors) ==>
                var b, s := old(actors)[ev.actor], actors[ev.actor];
                && s.firstSeen == b.firstSeen && s.eventCount == b.eventCount + 1
                && (b.reaped ==> s.reapedAt == ZERO_TIME)
                && (ev.toolName == "" ==> s.toolName == b.toolName)
                && (ev.sessionID == "" ==> s.sessionID == b.sessionID)
                && (ev.cwd == "" ==> s.cwd == b.cwd)
    {
      if ev.actor == "" {
        return;
      }
      if ev.actor !in actors {
        actors := actors[ev.actor := Actor(now, ZERO_TIME, "", "", "", "", 0, false, ZERO_TIME)];
      }
      var state := actors[ev.actor];
      if state.reaped {
        state := state.(reaped := false, reapedAt := ZERO_TIME);
      }
      state := state.(lastSeen := now, lastEvent := ev.hookType, eventCount := state.eventCount + 1);
      if ev.toolName != "" {
        state := state.(toolName := ev.toolName);
      }
      if ev.sessionID != "" {
        state := state.(sessionID := ev.sessionID);
      }
      if ev.cwd != "" {
        state := state.(cwd := ev.cwd);
      }
      actors := actors[ev.actor := state];
    }

    /** Roster: a line for each actor that is not stale, the most recently active first. */
    method Roster(staleThreshold: int, now: Time) returns (entries: seq<Entry>)
      ensures Lines(entries, actors, Shown(actors, staleThreshold, now), started, now)
      ensures forall i, j :: 0 <= i < j < |entries| ==> entries[i].lastSeen >= entries[j].lastSeen
      ensures forall k :: (exists e :: e in entries && e.actor == k) <==>
                k in actors && (staleThreshold > 0 ==> now - actors[k].lastSeen <= staleThreshold)
      ensures forall e :: e in entries ==>
                var s := actors[e.actor];
                && e.lastSeen == s.lastSeen && e.idle == now - s.lastSeen && e.eventCount == s.eventCount
                && e.lastEvent == s.lastEvent && e.toolName == s.toolName
                && e.sessionID == s.sessionID && e.cwd == s.cwd
                && e.reaped == s.reaped && e.reapedAt == s.reapedAt
                && e.firstSeen == (if s.firstSeen == ZERO_TIME then started else s.firstSeen)
                && e.sessionDuration == now - e.firstSeen
    {
      entries := [];
      var todo := actors.Keys;
      ghost var done := {};
      while todo != {}
        invariant todo <= actors.Keys && done == set k | k in actors && k !in todo &&
            !Stale(actors[k], staleThreshold, now)
        invariant Lines(entries, actors, done, started, now)
        decreases |todo|
      {
        var actor :| actor in todo;
        var state := actors[actor];
        todo := todo - {actor};
        if Stale(state, staleThreshold, now) {
          continue;
        }
        OneMoreLine(entries, actors, done, started, now, actor);
        entries := entries + [EntryOf(actor, state, started, now)];
        done := done + {actor};
      }
      assert done == Shown(actors, staleThreshold, now);
      SortIs(entries);
      entries := SortEntries(entries);
      forall k ensures (exists e :: e in entries && e.actor == k) <==> k in done {
        if k in done {
          assert EntryOf(k, actors[k], started, now) in entries;
        }
      }
    }

    /** sweep: one pass over the actors; newlyDead holds the actors and sessions for OnDead. */
    method Sweep(cfg: Config, now: Time) returns (newlyDead: map<string, string>)
      modifies this`actors
      ensures actors == AfterSweep(cfg, old(actors), now)
      ensures forall k :: k in newlyDead <==>
                k in old(actors) && !old(actors)[k].reaped && now - old(actors)[k].lastSeen > cfg.deadThreshold
      ensures forall k :: k in newlyDead ==> newlyDead[k] == old(actors)[k].sessionID
      ensures forall k :: k in old(actors) ==>
                var b := old(actors)[k];
                var kept := if b.eventCount < 10 then 300 else cfg.evictAfter;
                (k !in actors <==> b.reaped && b.reapedAt != ZERO_TIME && now - b.reapedAt > kept)
      ensures actors.Keys <= old(actors).Keys
      ensures forall k :: k in actors ==>
                actors[k] == if k in newlyDead then old(actors)[k].(reaped := true, reapedAt := now) else old(actors)[k]
    {
      newlyDead := map[];
      var todo := actors.Keys;
      ghost var before := actors;
      while todo != {}
        invariant Halfway(cfg, before, now, todo, actors, newlyDead)
        decreases |todo|
      {
        var actor :| actor in todo;
        var state := actors[actor];
        Visit(cfg, before, now, todo, actors, newlyDead, actor);
        todo := todo - {actor};
        if state.reaped {
          var evictThreshold := cfg.evictAfter;
          if state.eventCount < FEW_EVENTS {
            evictThreshold := EPHEMERAL_EVICT;
          }
          if state.reapedAt != ZERO_TIME && now - state.reapedAt > evictThreshold {
            actors := actors - {actor};
          }
          continue;
        }
        var idle := now - state.lastSeen;
        if idle > cfg.deadThreshold {
          actors := actors[actor := state.(reaped := true, reapedAt := now)];
          newlyDead := newlyDead[actor := state.sessionID];
        }
      }
    }
  }

  lemma OneMoreLine(entries: seq<Entry>, m: Roster, names: set<string>, started: Time, now: Time, k: string)
    requires names <= m.Keys && k in m && k !in names && Lines(entries, m, names, started, now)
    ensures Lines(entries + [EntryOf(k, m[k], started, now)], m, names + {k}, started, now)
  {}

  /** A sweep that has still to visit the actors in todo. */
  ghost predicate Halfway(cfg: Config, before: Roster, now: Time, todo: set<string>, m: Roster,
      dead: map<string, string>) {
    && todo <= before.Keys
    && (forall k :: k in m <==> k in before && (k in todo || !Evicted(cfg, before[k], now)))
    && (forall k :: k in m ==> m[k] == if k in todo then before[k] else Swept(cfg, before[k], now))
    && (forall k :: k in dead <==> k in before && k !in todo && Dies(cfg, before[k], now))
    && (forall k :: k in dead ==> dead[k] == before[k].sessionID)
  }

  lemma Visit(cfg: Config, before: Roster, now: Time, todo: set<string>, m: Roster, dead: map<string, string>,
      a: string)
    requires Halfway(cfg, before, now, todo, m, dead) && a in todo
    ensures a in m && m[a] == before[a]
    ensures var s := m[a];
            Halfway(cfg, before, now, todo - {a},
                    if Evicted(cfg, s, now) then m - {a}
                    else if Dies(cfg, s, now) then m[a := Swept(cfg, s, now)] else m,
                    if Dies(cfg, s, now) then dead[a := s.sessionID] else dead)
  {}

  // ------------------------------------------------------------ whole runs

  /** What happens to a tracker, each at its time. */
  datatype Event = Hook(ev: HookEvent, t: Time) | Sweep(t: Time)

  function Step(cfg: Config, m: Roster, e: Event): Roster {
    match e
    case Hook(ev, t) => AfterHook(m, ev, t)
    case Sweep(t) => AfterSweep(cfg, m, t)
  }

  function Run(cfg: Config, tr: seq<Event>): Roster {
    if tr == [] then map[] else Step(cfg, Run(cfg, tr[..|tr| - 1]), tr[|tr| - 1])
  }

  /** The clock never runs backwards and is past the zero time. */
  predicate Timely(tr: seq<Event>) {
    && (forall i :: 0 <= i < |tr| ==> tr[i].t > ZERO_TIME)
    && forall i, j :: 0 <= i <= j < |tr| ==> tr[i].t <= tr[j].t
  }

  predicate HookOf(e: Event, a: string) {
    e.Hook? && e.ev.actor == a && a != ""
  }

  /** At event i the actor is reported through OnDead. */
  predicate Fires(cfg: Config, tr: seq<Event>, i: nat, a: string)
    requires i < |tr|
  {
    tr[i].Sweep? && a in Run(cfg, tr[..i]) && Dies(cfg, Run(cfg, tr[..i])[a], tr[i].t)
  }

  lemma RunStep(cfg: Config, tr: seq<Event>, i: nat)
    requires i < |tr|
    ensures Run(cfg, tr[..i + 1]) == Step(cfg, Run(cfg, tr[..i]), tr[i])
  {
    assert tr[..i + 1][..i] == tr[..i];
  }

  /** The actor's last hook event before position i was event h. */
  predicate LastHook(tr: seq<Event>, h: nat, i: nat, a: string)
    requires i <= |tr|
  {
    h < i && HookOf(tr[h], a) && forall k :: h < k < i ==> !HookOf(tr[k], a)
  }

  /** What an entry says about the past: when the actor was last heard, and why it was marked dead. */
  ghost predicate Faithful(cfg: Config, tr: seq<Event>, i: nat, a: string, s: Actor)
    requires i <= |tr|
  {
    && (exists h: nat :: LastHook(tr, h, i, a) && tr[h].t == s.lastSeen)
    && (s.reaped ==> s.reapedAt != ZERO_TIME && s.reapedAt - s.lastSeen > cfg.deadThreshold)
  }

  lemma {:induction false} EntriesFaithful(cfg: Config, tr: seq<Event>, i: nat, a: string)
    requires Timely(tr) && i <= |tr| && a in Run(cfg, tr[..i])
    ensures Faithful(cfg, tr, i, a, Run(cfg, tr[..i])[a])
  {
    if i > 0 {
      RunStep(cfg, tr, i - 1);
      if HookOf(tr[i - 1], a) {
        assert LastHook(tr, i - 1, i, a);
      } else {
        EntriesFaithful(cfg, tr, i - 1, a);
        OtherStepFaithful(cfg, tr, i - 1, a);
      }
    }
  }

  lemma OtherStepFaithful(cfg: Config, tr: seq<Event>, i: nat, a: string)
    requires Timely(tr) && i < |tr| && !HookOf(tr[i], a)
    requires a in Run(cfg, tr[..i]) && Faithful(cfg, tr, i, a, Run(cfg, tr[..i])[a])
    requires a in Step(cfg, Run(cfg, tr[..i]), tr[i])
    ensures Faithful(cfg, tr, i + 1, a, Step(cfg, Run(cfg, tr[..i]), tr[i])[a])
  {
    var s, s' := Run(cfg, tr[..i])[a], Step(cfg, Run(cfg, tr[..i]), tr[i])[a];
    var h: nat :| LastHook(tr, h, i, a) && tr[h].t == s.lastSeen;
    assert s'.lastSeen == s.lastSeen;
    assert LastHook(tr, h, i + 1, a) && tr[h].t == s'.lastSeen;
  }

  /** How many hook events of actor a the positions from c up to i hold. */
  function HooksBetween(tr: seq<Event>, c: nat, i: nat, a: string): nat
    requires i <= |tr|
  {
    if i <= c then 0 else HooksBetween(tr, c, i - 1, a) + if HookOf(tr[i - 1], a) then 1 else 0
  }

  /** The entry that actor a has after i events was created by event c and has been there since. */
  ghost predicate CreatedAt(cfg: Config, tr: seq<Event>, c: nat, i: nat, a: string)
    requires i <= |tr|
  {
    && c < i && HookOf(tr[c], a) && a !in Run(cfg, tr[..c])
    && forall k :: c < k <= i ==> a in Run(cfg, tr[..k])
  }

  /** An entry counts the hook events of its actor since the one that created it, and remembers that one's time. */
  lemma {:induction false} EntryCounts(cfg: Config, tr: seq<Event>, i: nat, a: string) returns (c: nat)
    requires i <= |tr| && a in Run(cfg, tr[..i])
    ensures CreatedAt(cfg, tr, c, i, a)
    ensures Run(cfg, tr[..i])[a].eventCount == HooksBetween(tr, c, i, a)
    ensures Run(cfg, tr[..i])[a].firstSeen == tr[c].t
  {
    var m := Run(cfg, tr[..i - 1]);
    RunStep(cfg, tr, i - 1);
    if a in m {
      c := EntryCounts(cfg, tr, i - 1, a);
      CountStep(cfg, m, tr[i - 1], a);
      CreatedStays(cfg, tr, c, i - 1, a);
    } else {
      c := i - 1;
      NewEntry(cfg, m, tr[i - 1], a);
      JustCreated(cfg, tr, c, a);
    }
  }

  lemma CreatedStays(cfg: Config, tr: seq<Event>, c: nat, i: nat, a: string)
    requires i < |tr| && CreatedAt(cfg, tr, c, i, a) && a in Run(cfg, tr[..i + 1])
    ensures CreatedAt(cfg, tr, c, i + 1, a)
  {}

  lemma JustCreated(cfg: Config, tr: seq<Event>, c: nat, a: string)
    requires c < |tr| && HookOf(tr[c], a) && a !in Run(cfg, tr[..c]) && a in Run(cfg, tr[..c + 1])
    ensures CreatedAt(cfg, tr, c, c + 1, a) && HooksBetween(tr, c, c + 1, a) == 1
  {
    assert HooksBetween(tr, c, c, a) == 0;
  }

  lemma CountStep(cfg: Config, m: Roster, e: Event, a: string)
    requires a in m && a in Step(cfg, m, e)
    ensures Step(cfg, m, e)[a].eventCount == m[a].eventCount + if HookOf(e, a) then 1 else 0
    ensures Step(cfg, m, e)[a].firstSeen == m[a].firstSeen
  {}

  lemma NewEntry(cfg: Config, m: Roster, e: Event, a: string)
    requires a !in m && a in Step(cfg, m, e)
    ensures HookOf(e, a) && Step(cfg, m, e)[a].eventCount == 1 && Step(cfg, m, e)[a].firstSeen == e.t
  {}

  /**
   Eviction safety: a sweep forgets an actor only when every hook event it ever
   sent lies further back than the dead threshold and the eviction threshold
   together, which is five minutes if it sent fewer than ten events since its
   entry was created.
   */
  lemma EvictedOnlyAfterSilence(cfg: Config, tr: seq<Event>, i: nat, a: string, j: nat) returns (c: nat)
    requires Timely(tr) && j < i < |tr|
    requires a in Run(cfg, tr[..i]) && a !in Run(cfg, tr[..i + 1])
    requires HookOf(tr[j], a)
    ensures CreatedAt(cfg, tr, c, i, a)
    ensures tr[i].Sweep?
    ensures tr[i].t - tr[j].t > cfg.deadThreshold + if HooksBetween(tr, c, i, a) < 10 then 300 else cfg.evictAfter
  {
    var s := Run(cfg, tr[..i])[a];
    c := EntryCounts(cfg, tr, i, a);
    RunStep(cfg, tr, i);
    EntriesFaithful(cfg, tr, i, a);
    var h: nat :| LastHook(tr, h, i, a) && tr[h].t == s.lastSeen;
    assert j <= h;
  }

  /** Actors that are absent or already marked dead give no notice. */
  predicate Quiet(m: Roster, a: string) {
    a in m ==> m[a].reaped
  }

  lemma {:induction false} QuietUntilHook(cfg: Config, tr: seq<Event>, i: nat, j: nat, a: string)
    requires i <= j <= |tr| && Quiet(Run(cfg, tr[..i]), a)
    requires forall k :: i <= k < j ==> !HookOf(tr[k], a)
    ensures Quiet(Run(cfg, tr[..j]), a)
    decreases j - i
  {
    if i < j {
      QuietUntilHook(cfg, tr, i, j - 1, a);
      RunStep(cfg, tr, j - 1);
      QuietStep(cfg, Run(cfg, tr[..j - 1]), tr[j - 1], a);
    }
  }

  lemma QuietStep(cfg: Config, m: Roster, e: Event, a: string)
    requires Quiet(m, a) && !HookOf(e, a)
    ensures Quiet(Step(cfg, m, e), a)
  {}

  /** OnDead is called at most once for an actor between two of its hook events. */
  lemma OneNoticePerSilence(cfg: Config, tr: seq<Event>, i: nat, j: nat, a: string)
    requires i < j < |tr| && Fires(cfg, tr, i, a) && Fires(cfg, tr, j, a)
    ensures exists k :: i < k < j && HookOf(tr[k], a)
  {
    RunStep(cfg, tr, i);
    if forall k :: i + 1 <= k < j ==> !HookOf(tr[k], a) {
      QuietUntilHook(cfg, tr, i + 1, j, a);
      assert false;
    }
  }

  /** No sweep between the hook at h and position i has found the actor silent for too long. */
  predicate NoticeStillDue(cfg: Config, tr: seq<Event>, h: nat, i: nat)
    requires h < i <= |tr|
  {
    forall k :: h < k < i && tr[k].Sweep? ==> tr[k].t - tr[h].t <= cfg.deadThreshold
  }

  /** The actor is on the roster, alive, and was last heard of at time t. */
  predicate AliveSince(m: Roster, a: string, t: Time) {
    a in m && !m[a].reaped && m[a].lastSeen == t
  }

  lemma HookHeard(cfg: Config, m: Roster, e: Event, a: string)
    requires HookOf(e, a)
    ensures AliveSince(Step(cfg, m, e), a, e.t)
  {}

  lemma OtherHookLeaves(cfg: Config, m: Roster, e: Event, a: string, t: Time)
    requires e.Hook? && !HookOf(e, a) && AliveSince(m, a, t)
    ensures AliveSince(Step(cfg, m, e), a, t)
  {}

  lemma SweepDecides(cfg: Config, m: Roster, e: Event, a: string, t: Time)
    requires e.Sweep? && AliveSince(m, a, t)
    ensures if e.t - t <= cfg.deadThreshold then AliveSince(Step(cfg, m, e), a, t) else Quiet(Step(cfg, m, e), a)
  {}

  /** One event more: what was due or had been noticed before it, and what is after it. */
  lemma NoticeStep(cfg: Config, tr: seq<Event>, h: nat, i: nat, m: Roster, a: string)
    requires h < i < |tr| && !HookOf(tr[i], a)
    requires if NoticeStillDue(cfg, tr, h, i) then AliveSince(m, a, tr[h].t) else Quiet(m, a)
    ensures var m' := Step(cfg, m, tr[i]);
            if NoticeStillDue(cfg, tr, h, i + 1) then AliveSince(m', a, tr[h].t) else Quiet(m', a)
  {
    assert NoticeStillDue(cfg, tr, h, i + 1) <==>
        NoticeStillDue(cfg, tr, h, i) && (tr[i].Sweep? ==> tr[i].t - tr[h].t <= cfg.deadThreshold);
    if !NoticeStillDue(cfg, tr, h, i) {
      QuietStep(cfg, m, tr[i], a);
    } else if tr[i].Sweep? {
      SweepDecides(cfg, m, tr[i], a, tr[h].t);
    } else {
      OtherHookLeaves(cfg, m, tr[i], a, tr[h].t);
    }
  }

  lemma {:induction false} AliveUntilNotice(cfg: Config, tr: seq<Event>, h: nat, i: nat, a: string)
    requires i <= |tr| && LastHook(tr, h, i, a)
    ensures if NoticeStillDue(cfg, tr, h, i) then AliveSince(Run(cfg, tr[..i]), a, tr[h].t)
            else Quiet(Run(cfg, tr[..i]), a)
    decreases i
  {
    var m := Run(cfg, tr[..i - 1]);
    RunStep(cfg, tr, i - 1);
    assert Run(cfg, tr[..i]) == Step(cfg, m, tr[i - 1]);
    if h < i - 1 {
      AliveUntilNotice(cfg, tr, h, i - 1, a);
      NoticeStep(cfg, tr, h, i - 1, m, a);
    } else {
      HookHeard(cfg, m, tr[h], a);
    }
  }

  /**
   When OnDead is called: at the first sweep after the actor's last hook event
   that comes later than the dead threshold, and at no other sweep.
   */
  lemma NoticeExact(cfg: Config, tr: seq<Event>, h: nat, i: nat, a: string)
    requires i < |tr| && LastHook(tr, h, i, a)
    ensures Fires(cfg, tr, i, a) <==>
            tr[i].Sweep? && tr[i].t - tr[h].t > cfg.deadThreshold && NoticeStillDue(cfg, tr, h, i)
  {
    AliveUntilNotice(cfg, tr, h, i, a);
  }

  /** Event r is the sweep that found the actor silent for too long since its last hook event h. */
  predicate NoticedAt(cfg: Config, tr: seq<Event>, h: nat, r: nat)
    requires h < r < |tr|
  {
    tr[r].Sweep? && tr[r].t - tr[h].t > cfg.deadThreshold && NoticeStillDue(cfg, tr, h, r)
  }

  /** An entry the actor may have is marked dead since time t. */
  predicate MarkedAt(m: Roster, a: string, t: Time) {
    a in m ==> m[a].reaped && m[a].reapedAt == t
  }

  lemma MarkBegins(cfg: Config, m: Roster, e: Event, a: string, t: Time)
    requires e.Sweep? && AliveSince(m, a, t) && e.t - t > cfg.deadThreshold
    ensures MarkedAt(Step(cfg, m, e), a, e.t)
  {}

  lemma MarkStays(cfg: Config, m: Roster, e: Event, a: string, t: Time)
    requires !HookOf(e, a) && MarkedAt(m, a, t)
    ensures MarkedAt(Step(cfg, m, e), a, t)
  {}

  /** From that sweep on, the entry stays as it was marked until it is forgotten. */
  lemma {:induction false} MarkedSince(cfg: Config, tr: seq<Event>, h: nat, r: nat, i: nat, a: string)
    requires h < r < i <= |tr| && LastHook(tr, h, i, a) && NoticedAt(cfg, tr, h, r)
    ensures MarkedAt(Run(cfg, tr[..i]), a, tr[r].t)
    decreases i
  {
    var m := Run(cfg, tr[..i - 1]);
    RunStep(cfg, tr, i - 1);
    if i - 1 == r {
      AliveUntilNotice(cfg, tr, h, r, a);
      MarkBegins(cfg, m, tr[r], a, tr[h].t);
    } else {
      MarkedSince(cfg, tr, h, r, i - 1, a);
      MarkStays(cfg, m, tr[i - 1], a, tr[r].t);
    }
  }

  /**
   Exactly when an actor is forgotten: marked dead at sweep r after its last hook
   event h, it goes at the first later sweep more than five minutes after r, or
   more than the configured time if it sent ten events or more.
   */
  lemma EvictedExact(cfg: Config, tr: seq<Event>, h: nat, r: nat, i: nat, a: string) returns (c: nat)
    requires Timely(tr) && h < r < i < |tr| && LastHook(tr, h, i, a) && NoticedAt(cfg, tr, h, r)
    requires a in Run(cfg, tr[..i]) && !HookOf(tr[i], a)
    ensures CreatedAt(cfg, tr, c, i, a)
    ensures a !in Run(cfg, tr[..i + 1]) <==>
            tr[i].Sweep? && tr[i].t - tr[r].t > if HooksBetween(tr, c, i, a) < 10 then 300 else cfg.evictAfter
  {
    c := EntryCounts(cfg, tr, i, a);
    MarkedSince(cfg, tr, h, r, i, a);
    RunStep(cfg, tr, i);
  }

  /** Every actor not marked dead was heard of at most `slack` before time s. */
  predicate FreshAt(m: Roster, s: Time, slack: nat) {
    forall a :: a in m && !m[a].reaped ==> s - m[a].lastSeen <= slack
  }

  lemma {:induction false} FreshStays(cfg: Config, tr: seq<Event>, i: nat, j: nat, s: Time, slack: nat)
    requires i <= j <= |tr| && FreshAt(Run(cfg, tr[..i]), s, slack)
    requires forall k :: i <= k < j ==> tr[k].t >= s
    ensures FreshAt(Run(cfg, tr[..j]), s, slack)
    decreases j - i
  {
    if i < j {
      FreshStays(cfg, tr, i, j - 1, s, slack);
      RunStep(cfg, tr, j - 1);
      FreshStep(cfg, Run(cfg, tr[..j - 1]), tr[j - 1], s, slack);
    }
  }

  lemma FreshStep(cfg: Config, m: Roster, e: Event, s: Time, slack: nat)
    requires FreshAt(m, s, slack) && e.t >= s
    ensures FreshAt(Step(cfg, m, e), s, slack)
  {}

  /**
   Timeliness: if sweeps come at most `interval` apart (at time T the tracker was
   started, or swept, no longer than that ago), then at T no actor still counted
   alive has been idle for more than the dead threshold plus the interval.
   */
  lemma DeadMarkedInTime(cfg: Config, tr: seq<Event>, start: Time, T: Time, interval: nat, a: string)
    requires Timely(tr) && (forall i :: 0 <= i < |tr| ==> start <= tr[i].t <= T)
    requires T - start <= interval || exists i :: 0 <= i < |tr| && tr[i].Sweep? && T - tr[i].t <= interval
    requires a in Run(cfg, tr) && !Run(cfg, tr)[a].reaped
    ensures T - Run(cfg, tr)[a].lastSeen <= cfg.deadThreshold + interval
  {
    assert tr[..|tr|] == tr;
    if i :| 0 <= i < |tr| && tr[i].Sweep? && T - tr[i].t <= interval {
      RunStep(cfg, tr, i);
      assert FreshAt(Run(cfg, tr[..i + 1]), tr[i].t, cfg.deadThreshold);
      FreshStays(cfg, tr, i + 1, |tr|, tr[i].t, cfg.deadThreshold);
    } else {
      assert tr[..0] == [];
      FreshStays(cfg, tr, 0, |tr|, start, 0);
    }
  }
}
