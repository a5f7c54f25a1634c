/**
 The SSE hub under concurrency (internal/server/sse.go).

 A broadcast is several atomic steps: take an id, write the ring under its lock,
 then visit the clients one by one under the read lock. A connection is several
 more: join, take a snapshot of ring slots, go through those slots one by one,
 then drain the queue. The snapshot only refers to ring slots, and replay looks
 at a slot four times without the ring's lock: it tests the topic, then reads
 the id, the topic and the data. The slot may be overwritten before, between and
 after. Every interleaving of these steps is a run of the transition system below.

 Fields named `written`, `joinAt`, `snapAt`, `readAt` and `dropped`, and the
 times in a reading and in a frame, record history; no step looks at them to
 decide what to do.
 */
module HubProtocol {
  import opened Wrappers
  import opened Topics
  import opened EventRing
  import opened SseHub

  /** How far a broadcast has come. `Fanning` holds the read lock on the client set. */
  datatype Phase = Numbered | Stored | Fanning(todo: set<nat>) | Finished

  datatype Cast = Cast(evt: SseEvent, phase: Phase)

  /** How far replay has come with the slot it is at. Time is counted in ring writes. */
  datatype Reading =
    | Untested
    | Tested(testAt: nat)
    | IdRead(testAt: nat, idAt: nat, id: nat)
    | TopicRead(testAt: nat, idAt: nat, topicAt: nat, id: nat, topic: string)

  /** A replayed event as it was written out, with its slot and the times of the four looks at it. */
  datatype Frame = Frame(evt: SseEvent, slot: nat, testAt: nat, idAt: nat, topicAt: nat, dataAt: nat)

  datatype ConnPhase =
    | Joined
    | Replaying(slots: seq<nat>, next: nat, reading: Reading)
    | Streaming(replayed: bool)

  /**
   One connection: `joinAt` is when it subscribed, `snapAt` when it took its
   snapshot, `readAt[k]` when it was done with slot k.
   */
  datatype Conn = Conn(
    topics: seq<string>,
    phase: ConnPhase,
    queue: seq<SseEvent>,
    replay: seq<Frame>,
    stream: seq<SseEvent>,
    lastId: nat,
    joinAt: nat,
    snapAt: nat,
    readAt: map<nat, nat>,
    dropped: set<nat>)

  datatype Hub = Hub(
    nextId: nat,
    ring: Ring,
    casts: map<nat, Cast>,
    clients: set<nat>,
    conns: map<nat, Conn>,
    written: seq<SseEvent>)

  datatype Step =
    | TakeId(topic: string, data: string)
    | WriteRing(id: nat)
    | BeginFanOut(id: nat)
    | Deliver(id: nat, c: nat)
    | EndFanOut(id: nat)
    | Subscribe(c: nat, topics: seq<string>)
    | Snapshot(c: nat, lastId: nat)
    | ReplayRead(c: nat)
    | EndReplay(c: nat)
    | SkipReplay(c: nat)
    | Drain(c: nat)
    | Unsubscribe(c: nat)

  /** Nobody holds the read lock, so the client set may change. */
  predicate NoFanOut(h: Hub) {
    forall id :: id in h.casts ==> !h.casts[id].phase.Fanning?
  }

  predicate Enabled(h: Hub, s: Step) {
    match s
    case TakeId(_, _) => true
    case WriteRing(id) => id in h.casts && h.casts[id].phase.Numbered? && h.ring.Sized()
    case BeginFanOut(id) => id in h.casts && h.casts[id].phase.Stored?
    case Deliver(id, c) =>
      id in h.casts && h.casts[id].phase.Fanning? && c in h.casts[id].phase.todo && c in h.conns
    case EndFanOut(id) => id in h.casts && h.casts[id].phase == Fanning({})
    case Subscribe(c, _) => c !in h.conns && NoFanOut(h)
    case Snapshot(c, _) => c in h.clients && c in h.conns && h.conns[c].phase.Joined? && h.ring.Sized()
    case ReplayRead(c) =>
      && c in h.clients && c in h.conns && h.conns[c].phase.Replaying?
      && h.conns[c].phase.next < |h.conns[c].phase.slots|
      && h.conns[c].phase.slots[h.conns[c].phase.next] < |h.ring.slots|
    case EndReplay(c) =>
      && c in h.clients && c in h.conns && h.conns[c].phase.Replaying?
      && h.conns[c].phase.next == |h.conns[c].phase.slots|
    case SkipReplay(c) => c in h.clients && c in h.conns && h.conns[c].phase.Joined?
    case Drain(c) => c in h.clients && c in h.conns && h.conns[c].phase.Streaming? && h.conns[c].queue != []
    case Unsubscribe(c) => c in h.clients && NoFanOut(h)
  }

  /** One visit of a fan-out: a non-blocking send if the topic matches. */
  function Visit(conn: Conn, e: SseEvent): Conn {
    if !MatchesAny(conn.topics, e.topic) then conn
    else if |conn.queue| < QUEUE_CAP then conn.(queue := Offer(conn.queue, e))
    else conn.(dropped := conn.dropped + {e.id})
  }

  /** Replay turns to the next slot. */
  function Done(conn: Conn, k: nat, now: nat): Conn
    requires conn.phase.Replaying?
  {
    conn.(phase := Replaying(conn.phase.slots, conn.phase.next + 1, Untested), readAt := conn.readAt[k := now])
  }

  /** One look at slot k, which holds `live` now: the topic test, or the next of the three fields. */
  function ReadOn(conn: Conn, k: nat, live: SseEvent, now: nat): Conn
    requires conn.phase.Replaying?
  {
    match conn.phase.reading
    case Untested =>
      if MatchesAny(conn.topics, live.topic) then conn.(phase := conn.phase.(reading := Tested(now)))
      else Done(conn, k, now)
    case Tested(t) => conn.(phase := conn.phase.(reading := IdRead(t, now, live.id)))
    case IdRead(t, i, id) => conn.(phase := conn.phase.(reading := TopicRead(t, i, now, id, live.topic)))
    case TopicRead(t, i, p, id, topic) =>
      Done(conn, k, now).(replay := conn.replay + [Frame(SseEvent(id, topic, live.data), k, t, i, p, now)])
  }

  function Apply(h: Hub, s: Step): Hub
    requires Enabled(h, s)
  {
    match s
    case TakeId(topic, data) =>
      var id := h.nextId + 1;
      h.(nextId := id, casts := h.casts[id := Cast(SseEvent(id, topic, data), Numbered)])
    case WriteRing(id) =>
      var e := h.casts[id].evt;
      h.(ring := Put(h.ring, e),
         casts := h.casts[id := h.casts[id].(phase := Stored)],
         written := h.written + [e])
    case BeginFanOut(id) =>
      h.(casts := h.casts[id := h.casts[id].(phase := Fanning(h.clients))])
    case Deliver(id, c) =>
      var todo := h.casts[id].phase.todo - {c};
      h.(casts := h.casts[id := h.casts[id].(phase := Fanning(todo))],
         conns := h.conns[c := Visit(h.conns[c], h.casts[id].evt)])
    case EndFanOut(id) =>
      h.(casts := h.casts[id := h.casts[id].(phase := Finished)])
    case Subscribe(c, topics) =>
      var n := |h.written|;
      h.(clients := h.clients + {c},
         conns := h.conns[c := Conn(topics, Joined, [], [], [], 0, n, n, map[], {})])
    case Snapshot(c, lastId) =>
      h.(conns := h.conns[c := h.conns[c].(phase := Replaying(SlotsFrom(h.ring, lastId, 0), 0, Untested),
                                           lastId := lastId, snapAt := |h.written|)])
    case ReplayRead(c) =>
      var k := h.conns[c].phase.slots[h.conns[c].phase.next];
      h.(conns := h.conns[c := ReadOn(h.conns[c], k, h.ring.slots[k], |h.written|)])
    case EndReplay(c) =>
      h.(conns := h.conns[c := h.conns[c].(phase := Streaming(true))])
    case SkipReplay(c) =>
      h.(conns := h.conns[c := h.conns[c].(phase := Streaming(false))])
    case Drain(c) =>
      var conn := h.conns[c];
      h.(conns := h.conns[c := conn.(queue := conn.queue[1..], stream := conn.stream + [conn.queue[0]])])
    case Unsubscribe(c) =>
      h.(clients := h.clients - {c})
  }

  predicate Init(h: Hub) {
    && h.nextId == 0 && h.casts == map[] && h.clients == {} && h.conns == map[] && h.written == []
    && h.ring.Sized() && h.ring.pos == 0 && h.ring.len == 0
  }

  /** h is reached from an initial hub by the steps of a run. */
  ghost predicate Reached(h0: Hub, run: seq<Step>, h: Hub)
    decreases |run|
  {
    if run == [] then h0 == h
    else
      var last := |run| - 1;
      exists m :: Reached(h0, run[..last], m) && Enabled(m, run[last]) && h == Apply(m, run[last])
  }

  // ---------------------------------------------------------------- invariants

  /** What was sent down a connection's queue, in order, delivered or not. */
  function Sent(conn: Conn): seq<SseEvent> {
    conn.stream + conn.queue
  }

  /** The ring is the window of the write log; each event is written at most once. */
  ghost predicate RingInv(h: Hub) {
    && Holds(h.ring, h.written)
    && (forall i, j :: 0 <= i < j < |h.written| ==> h.written[i].id != h.written[j].id)
    && (forall j :: 0 <= j < |h.written| ==>
          && h.written[j].id in h.casts
          && h.casts[h.written[j].id].evt == h.written[j]
          && !h.casts[h.written[j].id].phase.Numbered?)
  }

  /** Broadcasts carry their id; past the ring write they are in the log. */
  ghost predicate CastInv(h: Hub) {
    && h.clients <= h.conns.Keys
    && (forall id :: 1 <= id <= h.nextId ==> id in h.casts)
    && (forall id :: id in h.casts ==>
          && 1 <= id <= h.nextId
          && h.casts[id].evt.id == id
          && (!h.casts[id].phase.Numbered? ==> h.casts[id].evt in h.written)
          && (h.casts[id].phase.Fanning? ==> h.casts[id].phase.todo <= h.clients))
  }

  /** The broadcast of e has not come past client c yet. */
  predicate StillDue(h: Hub, c: nat, id: nat) {
    id in h.casts &&
    match h.casts[id].phase
    case Numbered => true
    case Stored => true
    case Fanning(todo) => c in todo
    case Finished => false
  }

  /** Events written after c joined reach its queue or are dropped, once they come past. */
  ghost predicate FanInv(h: Hub, c: nat, conn: Conn) {
    forall j :: 0 <= j < |h.written| && conn.joinAt <= j && MatchesAny(conn.topics, h.written[j].topic) ==>
      StillDue(h, c, h.written[j].id) || h.written[j] in Sent(conn) || h.written[j].id in conn.dropped
  }

  /** What is sent was broadcast, matches, came past already, and is sent once. */
  ghost predicate SentInv(h: Hub, c: nat, conn: Conn) {
    && |conn.queue| <= QUEUE_CAP
    && (forall e :: e in Sent(conn) ==>
          && e in h.written
          && MatchesAny(conn.topics, e.topic)
          && (c in h.clients ==> !StillDue(h, c, e.id)))
    && Distinct(Sent(conn))
  }

  predicate Started(conn: Conn) {
    conn.phase.Replaying? || conn.phase == Streaming(true)
  }

  /** After `now` ring writes the slot of write j has been used again. */
  predicate Overwritten(j: nat, N: nat, now: nat) {
    j + N < now
  }

  /** The slot of write j was read while it still held write j. */
  predicate ReadInTime(conn: Conn, j: nat, N: nat)
    requires N > 0
  {
    j % N in conn.readAt && !Overwritten(j, N, conn.readAt[j % N])
  }

  /** The event that slot k held after t ring writes. */
  function HeldAt(written: seq<SseEvent>, N: nat, k: nat, t: nat): SseEvent
    requires k < N && k < t <= |written|
  {
    written[LastWrite(N, k, t)]
  }

  /** What replay has of slot k is what it held at the times of the looks taken so far. */
  ghost predicate ReadingInv(h: Hub, conn: Conn, k: nat, r: Reading)
    requires k < |h.ring.slots| && k < conn.snapAt <= |h.written|
  {
    var N, n := |h.ring.slots|, |h.written|;
    && (!r.Untested? ==>
          conn.snapAt <= r.testAt <= n && MatchesAny(conn.topics, HeldAt(h.written, N, k, r.testAt).topic))
    && (r.IdRead? || r.TopicRead? ==>
          r.testAt <= r.idAt <= n && r.id == HeldAt(h.written, N, k, r.idAt).id)
    && (r.TopicRead? ==>
          r.idAt <= r.topicAt <= n && r.topic == HeldAt(h.written, N, k, r.topicAt).topic)
  }

  /** A frame tells what its slot held, each field at the time it was read. */
  ghost predicate FrameInv(h: Hub, conn: Conn, f: Frame)
    requires conn.snapAt <= |h.written|
  {
    && f.slot < |h.ring.slots| && f.slot < conn.snapAt
    && ReadingInv(h, conn, f.slot, TopicRead(f.testAt, f.idAt, f.topicAt, f.evt.id, f.evt.topic))
    && f.topicAt <= f.dataAt <= |h.written|
    && f.evt.data == HeldAt(h.written, |h.ring.slots|, f.slot, f.dataAt).data
    && f.slot in conn.readAt && conn.readAt[f.slot] == f.dataAt
  }

  /** Slots of the snapshot that have been handled are those recorded in readAt. */
  ghost predicate SlotsInv(h: Hub, conn: Conn) {
    && conn.joinAt <= conn.snapAt <= |h.written|
    && (!Started(conn) ==> conn.readAt == map[] && conn.replay == [])
    && (forall k :: k in conn.readAt ==> conn.snapAt <= conn.readAt[k] <= |h.written|)
    && (conn.phase.Replaying? ==>
          var slots, next := conn.phase.slots, conn.phase.next;
          && next <= |slots|
          && Distinct(slots)
          && (forall i :: 0 <= i < |slots| ==> slots[i] < |h.ring.slots| && slots[i] < conn.snapAt)
          && (forall i :: 0 <= i < |slots| ==> (slots[i] in conn.readAt <==> i < next)))
  }

  predicate Replayed(conn: Conn, e: SseEvent) {
    exists i :: 0 <= i < |conn.replay| && conn.replay[i].evt == e
  }

  /** Every wanted event of the snapshot is listed, and is written out if its slot was read in time. */
  ghost predicate ReplayInv(h: Hub, conn: Conn)
    requires |h.ring.slots| > 0
  {
    var N := |h.ring.slots|;
    && (Started(conn) ==>
          forall j :: 0 <= j < conn.snapAt && j < |h.written| && !Overwritten(j, N, conn.snapAt)
                      && h.written[j].id > conn.lastId ==>
            j % N in conn.readAt || (conn.phase.Replaying? && j % N in conn.phase.slots))
    && (forall j :: 0 <= j < conn.snapAt && j < |h.written| && ReadInTime(conn, j, N)
                    && MatchesAny(conn.topics, h.written[j].topic) ==>
          Replayed(conn, h.written[j]))
  }

  /** Replay is faithful to the slots, look by look, and writes no slot twice. */
  ghost predicate FramesInv(h: Hub, conn: Conn)
    requires conn.snapAt <= |h.written|
  {
    && (forall f :: f in conn.replay ==> FrameInv(h, conn, f))
    && (forall a, b :: 0 <= a < b < |conn.replay| ==> conn.replay[a].slot != conn.replay[b].slot)
    && (conn.phase.Replaying? && conn.phase.next < |conn.phase.slots| ==>
          var k := conn.phase.slots[conn.phase.next];
          k < |h.ring.slots| && k < conn.snapAt && ReadingInv(h, conn, k, conn.phase.reading))
    && (conn.phase.Replaying? && conn.phase.next >= |conn.phase.slots| ==> conn.phase.reading.Untested?)
  }

  ghost predicate ConnInv(h: Hub, c: nat)
    requires c in h.conns && |h.ring.slots| > 0
  {
    var conn := h.conns[c];
    && (c in h.clients ==> FanInv(h, c, conn))
    && SentInv(h, c, conn)
    && SlotsInv(h, conn)
    && ReplayInv(h, conn)
    && FramesInv(h, conn)
  }

  ghost predicate Inv(h: Hub) {
    && RingInv(h)
    && CastInv(h)
    && forall c :: c in h.conns ==> ConnInv(h, c)
  }

  lemma InitInv(h: Hub)
    requires Init(h)
    ensures Inv(h)
  {
    ModUnique(0, |h.ring.slots|, 0, 0);
  }

  /** A connection that a step leaves alone keeps its invariant. */
  lemma ConnCarried(h: Hub, h': Hub, d: nat)
    requires |h.ring.slots| > 0 && d in h.conns && ConnInv(h, d)
    requires d in h'.conns && h'.conns[d] == h.conns[d] && h'.written == h.written && h'.ring == h.ring
    requires d in h'.clients ==> d in h.clients && forall i :: StillDue(h', d, i) == StillDue(h, d, i)
    ensures ConnInv(h', d)
  {}

  // ------------------------------------------------- steps of a broadcast

  lemma KeepTakeId(h: Hub, topic: string, data: string)
    requires Inv(h)
    ensures Inv(Apply(h, TakeId(topic, data)))
  {
    var h' := Apply(h, TakeId(topic, data));
    assert h'.nextId !in h.casts;
    assert CastInv(h');
    forall c | c in h'.conns ensures ConnInv(h', c) {
      TakeIdConn(h, h', c);
    }
  }

  /** A new number concerns no connection yet. */
  lemma TakeIdConn(h: Hub, h': Hub, c: nat)
    requires RingInv(h) && c in h.conns && ConnInv(h, c)
    requires h' == h.(nextId := h'.nextId, casts := h'.casts)
    requires forall id :: id in h.casts ==> id in h'.casts && h'.casts[id] == h.casts[id]
    ensures ConnInv(h', c)
  {
    var conn := h.conns[c];
    assert forall id :: id in h.casts ==> StillDue(h', c, id) == StillDue(h, c, id);
    SameReplay(h, h', conn, conn);
  }

  lemma KeepWriteRing(h: Hub, id: nat)
    requires Inv(h) && Enabled(h, WriteRing(id))
    ensures Inv(Apply(h, WriteRing(id)))
  {
    var h' := Apply(h, WriteRing(id));
    var e := h.casts[id].evt;
    PutHolds(h.ring, h.written, e);
    forall c | c in h'.conns ensures ConnInv(h', c) {
      WriteRingConn(h, id, c);
    }
  }

  lemma WriteRingConn(h: Hub, id: nat, c: nat)
    requires Inv(h) && Enabled(h, WriteRing(id)) && c in h.conns
    ensures ConnInv(Apply(h, WriteRing(id)), c)
  {
    var h' := Apply(h, WriteRing(id));
    var conn := h.conns[c];
    assert ConnInv(h, c);
    assert forall i :: StillDue(h', c, i) == StillDue(h, c, i);
    LogGrows(h, h', conn);
  }

  /** What replay has read so far stays true as the log grows. */
  lemma LogGrows(h: Hub, h': Hub, conn: Conn)
    requires |h'.ring.slots| == |h.ring.slots| && h.written <= h'.written
    requires conn.snapAt <= |h.written| && FramesInv(h, conn)
    ensures FramesInv(h', conn)
  {
    forall f | f in conn.replay ensures FrameInv(h', conn, f) {
      assert FrameInv(h, conn, f);
    }
  }

  lemma KeepBeginFanOut(h: Hub, id: nat)
    requires Inv(h) && Enabled(h, BeginFanOut(id))
    ensures Inv(Apply(h, BeginFanOut(id)))
  {
    var h' := Apply(h, BeginFanOut(id));
    forall c | c in h'.conns ensures ConnInv(h', c) {
      assert ConnInv(h, c);
      assert c in h.clients ==> forall i :: StillDue(h', c, i) == StillDue(h, c, i);
      ConnCarried(h, h', c);
    }
  }

  lemma KeepEndFanOut(h: Hub, id: nat)
    requires Inv(h) && Enabled(h, EndFanOut(id))
    ensures Inv(Apply(h, EndFanOut(id)))
  {
    var h' := Apply(h, EndFanOut(id));
    forall c | c in h'.conns ensures ConnInv(h', c) {
      assert ConnInv(h, c);
      assert forall i :: StillDue(h', c, i) == StillDue(h, c, i);
      ConnCarried(h, h', c);
    }
  }

  lemma KeepDeliver(h: Hub, id: nat, c: nat)
    requires Inv(h) && Enabled(h, Deliver(id, c))
    ensures Inv(Apply(h, Deliver(id, c)))
  {
    var h' := Apply(h, Deliver(id, c));
    DeliverShared(h, id, c);
    forall d | d in h'.conns ensures ConnInv(h', d) {
      if d == c {
        DeliverTarget(h, id, c);
      } else {
        DeliverOther(h, id, c, d);
      }
    }
  }

  lemma DeliverShared(h: Hub, id: nat, c: nat)
    requires Inv(h) && Enabled(h, Deliver(id, c))
    ensures RingInv(Apply(h, Deliver(id, c))) && CastInv(Apply(h, Deliver(id, c)))
  {}

  lemma DeliverOther(h: Hub, id: nat, c: nat, d: nat)
    requires Inv(h) && Enabled(h, Deliver(id, c)) && d in h.conns && d != c
    ensures ConnInv(Apply(h, Deliver(id, c)), d)
  {
    var h' := Apply(h, Deliver(id, c));
    assert ConnInv(h, d);
    assert forall i :: StillDue(h', d, i) == StillDue(h, d, i);
    ConnCarried(h, h', d);
  }

  lemma DeliverTarget(h: Hub, id: nat, c: nat)
    requires Inv(h) && Enabled(h, Deliver(id, c))
    ensures ConnInv(Apply(h, Deliver(id, c)), c)
  {
    var h' := Apply(h, Deliver(id, c));
    var conn, conn' := h.conns[c], h'.conns[c];
    var e := h.casts[id].evt;
    assert ConnInv(h, c);
    VisitSent(conn, e);
    DeliverSent(h, id, c);
    DeliverFan(h, id, c);
    QueueOnly(h, h', conn, conn');
    assert c in h'.clients ==> FanInv(h', c, conn');
  }

  /** Replay does not look at the queue. */
  lemma QueueOnly(h: Hub, h': Hub, conn: Conn, conn': Conn)
    requires |h.ring.slots| > 0 && h'.ring == h.ring && h'.written == h.written
    requires conn' == conn.(queue := conn'.queue, dropped := conn'.dropped)
    requires SlotsInv(h, conn) && ReplayInv(h, conn) && FramesInv(h, conn)
    ensures SlotsInv(h', conn') && ReplayInv(h', conn') && FramesInv(h', conn')
  {
    SameReplay(h, h', conn, conn');
  }

  /** The replay laws look at the log, the topics and the record of the replay only. */
  lemma SameReplay(h: Hub, h': Hub, conn: Conn, conn': Conn)
    requires |h.ring.slots| > 0 && h'.ring == h.ring && h'.written == h.written && conn.snapAt <= |h.written|
    requires conn' == conn.(queue := conn'.queue, dropped := conn'.dropped, stream := conn'.stream)
    requires ReplayInv(h, conn) && FramesInv(h, conn)
    ensures ReplayInv(h', conn') && FramesInv(h', conn')
  {
    forall j | 0 <= j < |h.written| && Replayed(conn, h.written[j]) ensures Replayed(conn', h.written[j]) {
      var i :| 0 <= i < |conn.replay| && conn.replay[i].evt == h.written[j];
      assert conn'.replay[i].evt == h.written[j];
    }
    forall f | f in conn'.replay ensures FrameInv(h', conn', f) {
      assert FrameInv(h, conn, f);
    }
  }

  lemma VisitSent(conn: Conn, e: SseEvent)
    ensures var conn' := Visit(conn, e);
            && conn' == conn.(queue := conn'.queue, dropped := conn'.dropped)
            && (if !MatchesAny(conn.topics, e.topic) then conn' == conn
                else if |conn.queue| < QUEUE_CAP then
                  Sent(conn') == Sent(conn) + [e] && conn'.dropped == conn.dropped
                else Sent(conn') == Sent(conn) && conn'.dropped == conn.dropped + {e.id})
  {
    assert conn.stream + (conn.queue + [e]) == (conn.stream + conn.queue) + [e];
  }

  lemma DeliverSent(h: Hub, id: nat, c: nat)
    requires Inv(h) && Enabled(h, Deliver(id, c))
    ensures SentInv(Apply(h, Deliver(id, c)), c, Apply(h, Deliver(id, c)).conns[c])
  {
    var h' := Apply(h, Deliver(id, c));
    var conn := h.conns[c];
    var e := h.casts[id].evt;
    assert ConnInv(h, c);
    VisitSent(conn, e);
    assert StillDue(h, c, id) && !StillDue(h', c, id);
    assert forall i :: i != id ==> StillDue(h', c, i) == StillDue(h, c, i);
    assert e !in Sent(conn);
  }

  lemma DeliverFan(h: Hub, id: nat, c: nat)
    requires Inv(h) && Enabled(h, Deliver(id, c))
    ensures FanInv(Apply(h, Deliver(id, c)), c, Apply(h, Deliver(id, c)).conns[c])
  {
    var h' := Apply(h, Deliver(id, c));
    var conn := h.conns[c];
    var e := h.casts[id].evt;
    assert ConnInv(h, c);
    VisitSent(conn, e);
    assert forall i :: i != id ==> StillDue(h', c, i) == StillDue(h, c, i);
    assert forall j :: 0 <= j < |h.written| && h.written[j].id == id ==> h.written[j] == e;
  }

  // ------------------------------------------------ steps of a connection

  lemma KeepSubscribe(h: Hub, c: nat, topics: seq<string>)
    requires Inv(h) && Enabled(h, Subscribe(c, topics))
    ensures Inv(Apply(h, Subscribe(c, topics)))
  {
    var h' := Apply(h, Subscribe(c, topics));
    forall d | d in h'.conns ensures ConnInv(h', d) {
      if d != c {
        assert ConnInv(h, d);
        assert forall i :: StillDue(h', d, i) == StillDue(h, d, i);
        ConnCarried(h, h', d);
      } else {
        FreshConn(h', c);
      }
    }
  }

  /** A connection that has just joined. */
  lemma FreshConn(h: Hub, c: nat)
    requires c in h.conns && |h.ring.slots| > 0
    requires var n := |h.written|; h.conns[c] == Conn(h.conns[c].topics, Joined, [], [], [], 0, n, n, map[], {})
    ensures ConnInv(h, c)
  {
    assert Sent(h.conns[c]) == [];
  }

  lemma KeepUnsubscribe(h: Hub, c: nat)
    requires Inv(h) && Enabled(h, Unsubscribe(c))
    ensures Inv(Apply(h, Unsubscribe(c)))
  {
    var h' := Apply(h, Unsubscribe(c));
    forall d | d in h'.conns ensures ConnInv(h', d) {
      assert ConnInv(h, d);
      assert forall i :: StillDue(h', d, i) == StillDue(h, d, i);
      ConnCarried(h, h', d);
    }
  }

  /** Steps of connection c that leave the hub's shared state alone. */
  lemma KeepOthers(h: Hub, h': Hub, c: nat)
    requires Inv(h) && c in h.conns && c in h'.conns
    requires h' == h.(conns := h.conns[c := h'.conns[c]])
    requires ConnInv(h', c)
    ensures Inv(h')
  {
    forall d | d in h'.conns && d != c ensures ConnInv(h', d) {
      assert ConnInv(h, d);
      assert forall i :: StillDue(h', d, i) == StillDue(h, d, i);
      ConnCarried(h, h', d);
    }
  }

  lemma KeepSnapshot(h: Hub, c: nat, lastId: nat)
    requires Inv(h) && Enabled(h, Snapshot(c, lastId))
    ensures Inv(Apply(h, Snapshot(c, lastId)))
  {
    var h' := Apply(h, Snapshot(c, lastId));
    var conn' := h'.conns[c];
    assert ConnInv(h, c);
    assert forall i :: StillDue(h', c, i) == StillDue(h, c, i);
    assert Sent(conn') == Sent(h.conns[c]);
    SnapshotSlots(h, lastId);
    assert SlotsInv(h', conn');
    SnapshotReplay(h, c, lastId);
    KeepOthers(h, h', c);
  }

  lemma SnapshotSlots(h: Hub, lastId: nat)
    requires RingInv(h)
    ensures var slots := SlotsFrom(h.ring, lastId, 0);
            && Distinct(slots)
            && forall i :: 0 <= i < |slots| ==> slots[i] < |h.ring.slots| && slots[i] < |h.written|
  {
    var slots := SlotsFrom(h.ring, lastId, 0);
    SlotsFromDistinct(h.ring, h.written, lastId, 0);
    forall i | 0 <= i < |slots| ensures slots[i] < |h.ring.slots| && slots[i] < |h.written| {
      assert slots[i] in slots;
      var j := SlotsFromSound(h.ring, h.written, lastId, 0, slots[i]);
      if j < |h.ring.slots| {
        ModUnique(j, |h.ring.slots|, 0, j);
      }
    }
  }

  lemma SnapshotReplay(h: Hub, c: nat, lastId: nat)
    requires Inv(h) && Enabled(h, Snapshot(c, lastId))
    ensures ReplayInv(Apply(h, Snapshot(c, lastId)), Apply(h, Snapshot(c, lastId)).conns[c])
  {
    var conn', N := Apply(h, Snapshot(c, lastId)).conns[c], |h.ring.slots|;
    assert conn'.readAt == map[] by { assert ConnInv(h, c); }
    forall j | 0 <= j < |h.written| && !Overwritten(j, N, |h.written|) && h.written[j].id > lastId
      ensures j % N in SlotsFrom(h.ring, lastId, 0)
    {
      SlotsFromComplete(h.ring, h.written, lastId, 0, j);
    }
  }

  lemma KeepEndReplay(h: Hub, c: nat)
    requires Inv(h) && Enabled(h, EndReplay(c))
    ensures Inv(Apply(h, EndReplay(c)))
  {
    var h', conn := Apply(h, EndReplay(c)), h.conns[c];
    assert ConnInv(h, c);
    assert forall i :: StillDue(h', c, i) == StillDue(h, c, i);
    assert Sent(h'.conns[c]) == Sent(conn);
    EndReplayConn(h, h', conn, h'.conns[c]);
    KeepOthers(h, h', c);
  }

  lemma EndReplayConn(h: Hub, h': Hub, conn: Conn, conn': Conn)
    requires |h.ring.slots| > 0 && h'.ring == h.ring && h'.written == h.written
    requires conn.phase.Replaying? && conn.phase.next == |conn.phase.slots|
    requires conn' == conn.(phase := Streaming(true))
    requires SlotsInv(h, conn) && ReplayInv(h, conn) && FramesInv(h, conn)
    ensures SlotsInv(h', conn') && ReplayInv(h', conn') && FramesInv(h', conn')
  {
    var N := |h.ring.slots|;
    assert forall k :: k in conn.phase.slots ==> k in conn.readAt;
    forall j | 0 <= j < conn'.snapAt && j < |h.written| && ReadInTime(conn', j, N)
               && MatchesAny(conn'.topics, h.written[j].topic)
      ensures Replayed(conn', h.written[j])
    {
      assert ReadInTime(conn, j, N);
      var i :| 0 <= i < |conn.replay| && conn.replay[i].evt == h.written[j];
      assert conn'.replay[i].evt == h.written[j];
    }
    forall f | f in conn'.replay ensures FrameInv(h', conn', f) {
      assert FrameInv(h, conn, f);
    }
  }

  lemma KeepSkipReplay(h: Hub, c: nat)
    requires Inv(h) && Enabled(h, SkipReplay(c))
    ensures Inv(Apply(h, SkipReplay(c)))
  {
    var h' := Apply(h, SkipReplay(c));
    assert ConnInv(h, c);
    assert forall i :: StillDue(h', c, i) == StillDue(h, c, i);
    assert Sent(h'.conns[c]) == Sent(h.conns[c]);
    KeepOthers(h, h', c);
  }

  lemma KeepDrain(h: Hub, c: nat)
    requires Inv(h) && Enabled(h, Drain(c))
    ensures Inv(Apply(h, Drain(c)))
  {
    var h' := Apply(h, Drain(c));
    var conn := h.conns[c];
    assert ConnInv(h, c);
    assert conn.queue == [conn.queue[0]] + conn.queue[1..];
    assert Sent(h'.conns[c]) == Sent(conn);
    assert forall i :: StillDue(h', c, i) == StillDue(h, c, i);
    DrainOnly(h, h', conn, h'.conns[c]);
    KeepOthers(h, h', c);
  }

  lemma DrainOnly(h: Hub, h': Hub, conn: Conn, conn': Conn)
    requires |h.ring.slots| > 0 && h'.ring == h.ring && h'.written == h.written
    requires conn' == conn.(queue := conn'.queue, stream := conn'.stream)
    requires SlotsInv(h, conn) && ReplayInv(h, conn) && FramesInv(h, conn)
    ensures SlotsInv(h', conn') && ReplayInv(h', conn') && FramesInv(h', conn')
  {
    SameReplay(h, h', conn, conn');
  }

  /** What slot k holds now is what it held after all the writes made so far. */
  lemma LiveIsLast(h: Hub, k: nat)
    requires RingInv(h) && k < |h.ring.slots| && k < |h.written|
    ensures h.ring.slots[k] == HeldAt(h.written, |h.ring.slots|, k, |h.written|)
  {
    SlotHoldsLast(h.ring, h.written, k);
  }

  /** Replay is at slot k. */
  predicate AtSlot(conn: Conn, k: nat) {
    && conn.phase.Replaying?
    && conn.phase.next < |conn.phase.slots|
    && k == conn.phase.slots[conn.phase.next]
  }

  lemma KeepReplayRead(h: Hub, c: nat)
    requires Inv(h) && Enabled(h, ReplayRead(c))
    ensures Inv(Apply(h, ReplayRead(c)))
  {
    var h', conn := Apply(h, ReplayRead(c)), h.conns[c];
    var k := conn.phase.slots[conn.phase.next];
    var live := h.ring.slots[k];
    assert ConnInv(h, c);
    assert h' == h.(conns := h.conns[c := ReadOn(conn, k, live, |h.written|)]);
    ReadConn(h, h', c, k, live);
    KeepOthers(h, h', c);
  }

  lemma ReadConn(h: Hub, h': Hub, c: nat, k: nat, live: SseEvent)
    requires RingInv(h) && c in h.conns && ConnInv(h, c) && AtSlot(h.conns[c], k)
    requires k < |h.ring.slots| && live == h.ring.slots[k]
    requires h' == h.(conns := h.conns[c := ReadOn(h.conns[c], k, live, |h.written|)])
    ensures ConnInv(h', c)
  {
    var conn, conn' := h.conns[c], h'.conns[c];
    ReadLeavesQueue(conn, k, live, |h.written|);
    ReadKeepsSlots(h, h', conn, k, live);
    ReadKeepsReplay(h, h', conn, k, live);
    if conn.phase.reading.TopicRead? {
      LastReadKeepsFrames(h, h', conn, k, live);
    } else {
      ReadKeepsFrames(h, h', conn, k, live);
    }
    assert forall i :: StillDue(h', c, i) == StillDue(h, c, i);
  }

  lemma ReadLeavesQueue(conn: Conn, k: nat, live: SseEvent, now: nat)
    requires conn.phase.Replaying?
    ensures var conn' := ReadOn(conn, k, live, now);
            && conn' == conn.(phase := conn'.phase, replay := conn'.replay, readAt := conn'.readAt)
            && Started(conn') && Sent(conn') == Sent(conn)
            && (conn.phase.reading.TopicRead? || conn'.replay == conn.replay)
  {}

  lemma ReadKeepsSlots(h: Hub, h': Hub, conn: Conn, k: nat, live: SseEvent)
    requires SlotsInv(h, conn) && AtSlot(conn, k)
    requires h'.ring == h.ring && h'.written == h.written
    ensures SlotsInv(h', ReadOn(conn, k, live, |h.written|))
  {}

  lemma ReadKeepsReplay(h: Hub, h': Hub, conn: Conn, k: nat, live: SseEvent)
    requires RingInv(h) && SlotsInv(h, conn) && ReplayInv(h, conn) && FramesInv(h, conn) && AtSlot(conn, k)
    requires h'.ring == h.ring && h'.written == h.written && live == h.ring.slots[k]
    ensures ReplayInv(h', ReadOn(conn, k, live, |h.written|))
  {
    var conn', N := ReadOn(conn, k, live, |h.written|), |h.ring.slots|;
    forall j | 0 <= j < conn'.snapAt && j < |h.written| && ReadInTime(conn', j, N)
               && MatchesAny(conn'.topics, h.written[j].topic)
      ensures Replayed(conn', h.written[j])
    {
      if j % N == k {
        ReadInTimeIsReplayed(h, conn, k, j);
      } else {
        assert ReadInTime(conn, j, N);
        StaysReplayed(conn, k, live, |h.written|, h.written[j]);
      }
    }
  }

  lemma StaysReplayed(conn: Conn, k: nat, live: SseEvent, now: nat, e: SseEvent)
    requires conn.phase.Replaying? && Replayed(conn, e)
    ensures Replayed(ReadOn(conn, k, live, now), e)
  {
    var i :| 0 <= i < |conn.replay| && conn.replay[i].evt == e;
    assert ReadOn(conn, k, live, now).replay[i].evt == e;
  }

  /** A slot that still holds a matching write at the last look held it at all four. */
  lemma ReadInTimeIsReplayed(h: Hub, conn: Conn, k: nat, j: nat)
    requires RingInv(h) && SlotsInv(h, conn) && FramesInv(h, conn) && AtSlot(conn, k)
    requires j < conn.snapAt && j % |h.ring.slots| == k && MatchesAny(conn.topics, h.written[j].topic)
    requires ReadInTime(ReadOn(conn, k, h.ring.slots[k], |h.written|), j, |h.ring.slots|)
    ensures Replayed(ReadOn(conn, k, h.ring.slots[k], |h.written|), h.written[j])
  {
    var N, r := |h.ring.slots|, conn.phase.reading;
    LiveIsLast(h, k);
    LastWriteIs(N, k, |h.written|, j);
    if r.TopicRead? {
      LastWriteIs(N, k, r.idAt, j);
      LastWriteIs(N, k, r.topicAt, j);
      assert ReadOn(conn, k, h.ring.slots[k], |h.written|).replay[|conn.replay|].evt == h.written[j];
    }
  }

  lemma ReadKeepsFrames(h: Hub, h': Hub, conn: Conn, k: nat, live: SseEvent)
    requires RingInv(h) && SlotsInv(h, conn) && FramesInv(h, conn) && AtSlot(conn, k)
    requires h'.ring == h.ring && h'.written == h.written && live == h.ring.slots[k]
    requires !conn.phase.reading.TopicRead?
    ensures FramesInv(h', ReadOn(conn, k, live, |h.written|))
  {
    var conn' := ReadOn(conn, k, live, |h.written|);
    LiveIsLast(h, k);
    forall f | f in conn'.replay ensures FrameInv(h', conn', f) {
      assert FrameInv(h, conn, f);
    }
  }

  lemma LastReadKeepsFrames(h: Hub, h': Hub, conn: Conn, k: nat, live: SseEvent)
    requires RingInv(h) && SlotsInv(h, conn) && FramesInv(h, conn) && AtSlot(conn, k)
    requires h'.ring == h.ring && h'.written == h.written && live == h.ring.slots[k]
    requires conn.phase.reading.TopicRead?
    ensures FramesInv(h', ReadOn(conn, k, live, |h.written|))
  {
    var conn' := ReadOn(conn, k, live, |h.written|);
    assert k !in conn.readAt;
    FrameIsNew(h, h', conn, k, live);
    forall f | f in conn.replay ensures FrameInv(h', conn', f) && f.slot != k {
      FrameStays(h, h', conn, conn', k, f);
    }
    OneMoreFrame(h', conn, conn', conn'.replay[|conn.replay|]);
  }

  /** The last look completes a frame of what the slot held at the four looks. */
  lemma FrameIsNew(h: Hub, h': Hub, conn: Conn, k: nat, live: SseEvent)
    requires RingInv(h) && conn.phase.Replaying? && conn.phase.reading.TopicRead?
    requires k < |h.ring.slots| && k < conn.snapAt <= |h.written| && ReadingInv(h, conn, k, conn.phase.reading)
    requires h'.ring == h.ring && h'.written == h.written && live == h.ring.slots[k]
    ensures var conn' := ReadOn(conn, k, live, |h.written|); FrameInv(h', conn', conn'.replay[|conn.replay|])
  {
    LiveIsLast(h, k);
  }

  lemma OneMoreFrame(h: Hub, conn: Conn, conn': Conn, f: Frame)
    requires conn.phase.Replaying? && conn'.phase == Replaying(conn.phase.slots, conn.phase.next + 1, Untested)
    requires conn.phase.next < |conn.phase.slots| && conn'.snapAt <= |h.written|
    requires forall i :: 0 <= i < |conn.phase.slots| ==>
               conn.phase.slots[i] < |h.ring.slots| && conn.phase.slots[i] < conn'.snapAt
    requires conn'.replay == conn.replay + [f] && FrameInv(h, conn', f)
    requires forall g :: g in conn.replay ==> FrameInv(h, conn', g) && g.slot != f.slot
    requires forall a, b :: 0 <= a < b < |conn.replay| ==> conn.replay[a].slot != conn.replay[b].slot
    ensures FramesInv(h, conn')
  {}

  lemma FrameStays(h: Hub, h': Hub, conn: Conn, conn': Conn, k: nat, f: Frame)
    requires conn.snapAt <= |h.written| && FrameInv(h, conn, f) && k !in conn.readAt
    requires h'.ring == h.ring && h'.written == h.written && conn'.snapAt == conn.snapAt && conn'.topics == conn.topics
    requires conn'.readAt == conn.readAt[k := |h.written|]
    ensures FrameInv(h', conn', f) && f.slot != k
  {}

  // ------------------------------------------------------------ whole runs

  lemma StepKeepsInv(h: Hub, s: Step)
    requires Inv(h) && Enabled(h, s)
    ensures Inv(Apply(h, s))
  {
    match s
    case TakeId(topic, data) => KeepTakeId(h, topic, data);
    case WriteRing(id) => KeepWriteRing(h, id);
    case BeginFanOut(id) => KeepBeginFanOut(h, id);
    case Deliver(id, c) => KeepDeliver(h, id, c);
    case EndFanOut(id) => KeepEndFanOut(h, id);
    case Subscribe(c, topics) => KeepSubscribe(h, c, topics);
    case Snapshot(c, lastId) => KeepSnapshot(h, c, lastId);
    case ReplayRead(c) => KeepReplayRead(h, c);
    case EndReplay(c) => KeepEndReplay(h, c);
    case SkipReplay(c) => KeepSkipReplay(h, c);
    case Drain(c) => KeepDrain(h, c);
    case Unsubscribe(c) => KeepUnsubscribe(h, c);
  }

  lemma {:induction false} RunKeepsInv(h0: Hub, run: seq<Step>, h: Hub)
    requires Init(h0) && Reached(h0, run, h)
    ensures Inv(h)
    decreases |run|
  {
    if run == [] {
      InitInv(h0);
    } else {
      var last := |run| - 1;
      var m :| Reached(h0, run[..last], m) && Enabled(m, run[last]) && h == Apply(m, run[last]);
      RunKeepsInv(h0, run[..last], m);
      StepKeepsInv(m, run[last]);
    }
  }
}
