/**
 What holds over whole runs of the SSE hub (internal/server/sse.go): what a
 connection is sent, what it can miss and when, and where replay's unlocked looks
 at the ring let something else through.
 */
module HubRuns {
  import opened EventRing
  import opened HubProtocol
  import opened Topics
  import opened Wrappers

  /** Replay was done with the slot of write j only after the slot had been used again, or never listed it. */
  predicate LostToReplay(conn: Conn, j: nat, N: nat)
    requires N > 0
  {
    || Overwritten(j, N, conn.snapAt)
    || (j % N in conn.readAt && Overwritten(j, N, conn.readAt[j % N]))
  }

  /** What can have become of event e at a connection that has replayed. */
  ghost predicate Accounted(h: Hub, conn: Conn, e: SseEvent) {
    var N := |h.ring.slots|;
    || Replayed(conn, e)
    || (N > 0 && exists j :: 0 <= j < |h.written| && h.written[j] == e && LostToReplay(conn, j, N))
    || e in Sent(conn)
    || e.id in conn.dropped
  }

  /**
   No gap on reconnect. In every reachable hub, for a connection that has
   replayed from lastId and is still subscribed, every matching event with a
   larger id whose broadcast has finished was replayed, or lost its slot before
   replay's last look at it, or went down the queue, or was dropped at a full queue.
   */
  lemma NoGapOnReconnect(h0: Hub, run: seq<Step>, h: Hub, c: nat, id: nat)
    requires Init(h0) && Reached(h0, run, h)
    requires c in h.clients && c in h.conns && h.conns[c].phase == Streaming(true)
    requires id in h.casts && h.casts[id].phase.Finished?
    requires id > h.conns[c].lastId && MatchesAny(h.conns[c].topics, h.casts[id].evt.topic)
    ensures Accounted(h, h.conns[c], h.casts[id].evt)
  {
    RunKeepsInv(h0, run, h);
    var conn, e, N := h.conns[c], h.casts[id].evt, |h.ring.slots|;
    assert ConnInv(h, c);
    var j :| 0 <= j < |h.written| && h.written[j] == e;
    assert !StillDue(h, c, id);
    if j < conn.joinAt && !LostToReplay(conn, j, N) {
      assert j < conn.snapAt;
      assert j % N in conn.readAt;
      assert ReadInTime(conn, j, N);
    }
  }

  /**
   Between joining and leaving nothing passes a connection by: a matching event
   written to the ring after it joined, whose broadcast has finished, was put in
   its queue or dropped at a full queue, whatever the connection was doing.
   */
  lemma NoGapAfterJoin(h0: Hub, run: seq<Step>, h: Hub, c: nat, j: nat)
    requires Init(h0) && Reached(h0, run, h)
    requires c in h.clients && c in h.conns
    requires h.conns[c].joinAt <= j < |h.written| && h.written[j].id in h.casts
    requires h.casts[h.written[j].id].phase.Finished?
    requires MatchesAny(h.conns[c].topics, h.written[j].topic)
    ensures h.written[j] in Sent(h.conns[c]) || h.written[j].id in h.conns[c].dropped
  {
    RunKeepsInv(h0, run, h);
    assert ConnInv(h, c);
  }

  /**
   Nothing is made up and nothing is sent twice down the queue: what a connection
   is sent was broadcast and matches its filters, each event at most once, and the
   queue never exceeds its capacity.
   */
  lemma OnlyBroadcastsOnce(h0: Hub, run: seq<Step>, h: Hub, c: nat)
    requires Init(h0) && Reached(h0, run, h) && c in h.conns
    ensures var conn := h.conns[c];
            && |conn.queue| <= SseHub.QUEUE_CAP
            && Distinct(Sent(conn))
            && forall e :: e in Sent(conn) ==>
                 MatchesAny(conn.topics, e.topic) && e.id in h.casts && h.casts[e.id].evt == e
  {
    RunKeepsInv(h0, run, h);
    assert ConnInv(h, c);
  }

  /** One step takes nothing back: what a connection was sent stays in front of what it is sent next. */
  lemma StepKeepsOrder(h: Hub, s: Step, c: nat)
    requires Enabled(h, s) && c in h.conns
    ensures var h' := Apply(h, s);
            && c in h'.conns && h'.conns[c].topics == h.conns[c].topics
            && h.conns[c].stream <= h'.conns[c].stream && Sent(h.conns[c]) <= Sent(h'.conns[c])
  {
    var conn := h.conns[c];
    if s.Drain? && s.c == c {
      assert conn.stream + [conn.queue[0]] + conn.queue[1..] == conn.stream + conn.queue;
    }
    if s.Deliver? && s.c == c {
      var e := h.casts[s.id].evt;
      assert conn.stream + (conn.queue + [e]) == Sent(conn) + [e];
    }
  }

  /** Over any run a queue is first in, first out: what is sent earlier is received earlier. */
  lemma {:induction false} ReceivedInOrder(h: Hub, run: seq<Step>, h': Hub, c: nat)
    requires Reached(h, run, h') && c in h.conns
    ensures c in h'.conns && h'.conns[c].topics == h.conns[c].topics
    ensures h.conns[c].stream <= h'.conns[c].stream && Sent(h.conns[c]) <= Sent(h'.conns[c])
    decreases |run|
  {
    if run != [] {
      var last := |run| - 1;
      var m :| Reached(h, run[..last], m) && Enabled(m, run[last]) && h' == Apply(m, run[last]);
      ReceivedInOrder(h, run[..last], m, c);
      StepKeepsOrder(m, run[last], c);
    }
  }

  // ------------------------------------------- what replay writes out

  /** The events a frame's slot held when its id, its topic and its data were read. */
  ghost predicate ReadFrom(h: Hub, f: Frame, i: nat, p: nat, d: nat) {
    var N := |h.ring.slots|;
    && f.slot < N && f.slot < f.idAt && f.slot < f.topicAt && f.slot < f.dataAt
    && i == LastWrite(N, f.slot, f.idAt) && p == LastWrite(N, f.slot, f.topicAt) && d == LastWrite(N, f.slot, f.dataAt)
    && i < |h.written| && p < |h.written| && d < |h.written|
  }

  /**
   A replayed frame takes its id, topic and data from broadcasts, though not
   always from one: from what the slot held at each look. No id is written twice.
   */
  lemma FrameOrigins(h0: Hub, run: seq<Step>, h: Hub, c: nat, a: nat) returns (i: nat, p: nat, d: nat)
    requires Init(h0) && Reached(h0, run, h) && c in h.conns && a < |h.conns[c].replay|
    ensures var f := h.conns[c].replay[a];
            && ReadFrom(h, f, i, p, d) && i <= p <= d
            && f.evt == SseEvent(h.written[i].id, h.written[p].topic, h.written[d].data)
            && f.evt.id in h.casts
    ensures forall b :: 0 <= b < |h.conns[c].replay| && b != a ==>
              h.conns[c].replay[b].evt.id != h.conns[c].replay[a].evt.id
  {
    RunKeepsInv(h0, run, h);
    FramesHold(h, c);
    var conn := h.conns[c];
    i, p, d := FrameReads(h, conn, a);
    forall b | 0 <= b < |conn.replay| && b != a ensures conn.replay[b].evt.id != conn.replay[a].evt.id {
      FrameIdsDiffer(h, conn, a, b);
    }
  }

  lemma FrameIdsDiffer(h: Hub, conn: Conn, a: nat, b: nat)
    requires RingInv(h) && conn.snapAt <= |h.written| && FramesInv(h, conn)
    requires a < |conn.replay| && b < |conn.replay| && a != b
    ensures conn.replay[a].evt.id != conn.replay[b].evt.id
  {
    var i := IdSource(h, conn, a);
    var j := IdSource(h, conn, b);
    SlotsDiffer(h, conn, a, b);
    WritesDiffer(h, i, j);
  }

  lemma SlotsDiffer(h: Hub, conn: Conn, a: nat, b: nat)
    requires conn.snapAt <= |h.written| && FramesInv(h, conn) && a < |conn.replay| && b < |conn.replay| && a != b
    ensures conn.replay[a].slot != conn.replay[b].slot
  {}

  lemma WritesDiffer(h: Hub, i: nat, j: nat)
    requires RingInv(h) && i < |h.written| && j < |h.written| && i != j
    ensures h.written[i].id != h.written[j].id
  {}

  lemma IdSource(h: Hub, conn: Conn, a: nat) returns (i: nat)
    requires a < |conn.replay| && conn.snapAt <= |h.written| && FrameInv(h, conn, conn.replay[a])
    ensures |h.ring.slots| > 0 && i % |h.ring.slots| == conn.replay[a].slot
    ensures i < |h.written| && conn.replay[a].evt.id == h.written[i].id
  {
    var f := conn.replay[a];
    i := LastWrite(|h.ring.slots|, f.slot, f.idAt);
  }

  lemma LaterLook(N: nat, k: nat, s: nat, t: nat)
    requires k < N && k < s <= t
    ensures LastWrite(N, k, s) <= LastWrite(N, k, t)
  {}

  lemma FrameReads(h: Hub, conn: Conn, a: nat) returns (i: nat, p: nat, d: nat)
    requires a < |conn.replay| && conn.snapAt <= |h.written| && FrameInv(h, conn, conn.replay[a])
    ensures var f := conn.replay[a];
            && ReadFrom(h, f, i, p, d) && i <= p <= d && i % |h.ring.slots| == f.slot
            && f.evt == SseEvent(h.written[i].id, h.written[p].topic, h.written[d].data)
  {
    var f, N := conn.replay[a], |h.ring.slots|;
    i, p, d := LastWrite(N, f.slot, f.idAt), LastWrite(N, f.slot, f.topicAt), LastWrite(N, f.slot, f.dataAt);
    LaterLook(N, f.slot, f.idAt, f.topicAt);
    LaterLook(N, f.slot, f.topicAt, f.dataAt);
  }

  lemma FramesHold(h: Hub, c: nat)
    requires Inv(h) && c in h.conns
    ensures RingInv(h) && h.conns[c].snapAt <= |h.written| && FramesInv(h, h.conns[c])
  {
    assert ConnInv(h, c);
  }

  /** What the slot held at the later looks agrees, where read, with the event whose id was read. */
  predicate Undisturbed(written: seq<SseEvent>, topics: seq<string>, i: nat, p: nat, d: nat)
    requires i < |written| && p < |written| && d < |written|
  {
    && written[p].topic == written[i].topic
    && written[d].data == written[i].data
    && MatchesAny(topics, written[i].topic)
  }

  /**
   Exactly when a replayed frame is a broadcast event that the connection asked
   for: no differing event took the slot between replay's looks at it.
   */
  lemma FrameIsBroadcastIff(h0: Hub, run: seq<Step>, h: Hub, c: nat, a: nat, i: nat, p: nat, d: nat)
    requires Init(h0) && Reached(h0, run, h) && c in h.conns && a < |h.conns[c].replay|
    requires ReadFrom(h, h.conns[c].replay[a], i, p, d)
    ensures var conn := h.conns[c];
            var e := conn.replay[a].evt;
            e in h.written && MatchesAny(conn.topics, e.topic) <==> Undisturbed(h.written, conn.topics, i, p, d)
  {
    RunKeepsInv(h0, run, h);
    FramesHold(h, c);
    var _, _, _ := FrameReads(h, h.conns[c], a);
    var e := h.conns[c].replay[a].evt;
    assert forall j :: 0 <= j < |h.written| && h.written[j] == e ==> j == i;
  }

  /** A slot not used again between the test and the last look gives the event tested, whole. */
  lemma UntouchedFrame(h0: Hub, run: seq<Step>, h: Hub, c: nat, a: nat)
    requires Init(h0) && Reached(h0, run, h) && c in h.conns && a < |h.conns[c].replay|
    ensures var conn, N := h.conns[c], |h.ring.slots|;
            var f := conn.replay[a];
            && f.slot < N && f.slot < f.testAt
            && (!Overwritten(LastWrite(N, f.slot, f.testAt), N, f.dataAt) ==>
                  f.evt in h.written && MatchesAny(conn.topics, f.evt.topic))
  {
    RunKeepsInv(h0, run, h);
    assert ConnInv(h, c);
    var f, N := h.conns[c].replay[a], |h.ring.slots|;
    assert FrameInv(h, h.conns[c], f);
    var j := LastWrite(N, f.slot, f.testAt);
    if !Overwritten(j, N, f.dataAt) {
      LastWriteIs(N, f.slot, f.idAt, j);
      LastWriteIs(N, f.slot, f.topicAt, j);
      LastWriteIs(N, f.slot, f.dataAt, j);
    }
  }

  // ------------------------------------------------- along a run

  lemma {:induction false} Deterministic(h0: Hub, run: seq<Step>, a: Hub, b: Hub)
    requires Reached(h0, run, a) && Reached(h0, run, b)
    ensures a == b
    decreases |run|
  {
    if run != [] {
      var last := |run| - 1;
      var m :| Reached(h0, run[..last], m) && Enabled(m, run[last]) && a == Apply(m, run[last]);
      var n :| Reached(h0, run[..last], n) && Enabled(n, run[last]) && b == Apply(n, run[last]);
      Deterministic(h0, run[..last], m, n);
    }
  }

  lemma Extend(h0: Hub, run: seq<Step>, m: Hub, s: Step)
    requires Reached(h0, run, m) && Enabled(m, s)
    ensures Reached(h0, run + [s], Apply(m, s))
  {
    assert (run + [s])[..|run|] == run;
  }

  /** h comes after m: logs, broadcasts and what connection c was sent only grow. */
  ghost predicate Later(m: Hub, h: Hub, c: nat) {
    && m.written <= h.written
    && (forall id :: id in m.casts ==> id in h.casts && h.casts[id].evt == m.casts[id].evt)
    && c in m.conns && c in h.conns
    && h.conns[c].topics == m.conns[c].topics
    && h.conns[c].joinAt == m.conns[c].joinAt
    && Sent(m.conns[c]) <= Sent(h.conns[c])
    && m.conns[c].dropped <= h.conns[c].dropped
  }

  /** Only a visit by a broadcast puts anything in a connection's queue or drops anything. */
  lemma OnlyVisitsSend(m: Hub, s: Step, c: nat)
    requires Enabled(m, s) && c in m.conns
    ensures c in Apply(m, s).conns
    ensures !(s.Deliver? && s.c == c) ==>
              Sent(Apply(m, s).conns[c]) == Sent(m.conns[c]) && Apply(m, s).conns[c].dropped == m.conns[c].dropped
  {
    if s == Drain(c) {
      var conn := m.conns[c];
      assert conn.queue == [conn.queue[0]] + conn.queue[1..];
    }
  }

  lemma StepLater(m: Hub, s: Step, c: nat)
    requires CastInv(m) && Enabled(m, s) && c in m.conns
    ensures Later(m, Apply(m, s), c)
  {
    OnlyVisitsSend(m, s, c);
    if s.Deliver? {
      VisitSent(m.conns[s.c], m.casts[s.id].evt);
    }
  }

  lemma LaterTrans(a: Hub, b: Hub, h: Hub, c: nat)
    requires Later(a, b, c) && Later(b, h, c)
    ensures Later(a, h, c)
  {}

  /** Event e is the last one sent to connection c so far, and c is subscribed. */
  ghost predicate JustSent(h: Hub, c: nat, e: SseEvent) {
    && c in h.clients && c in h.conns && Sent(h.conns[c]) != []
    && Sent(h.conns[c])[|Sent(h.conns[c])| - 1] == e
  }

  /** What is newly sent is the broadcast whose visit this step is. */
  lemma SentBy(m: Hub, s: Step, c: nat, e: SseEvent)
    requires CastInv(m) && Enabled(m, s) && c in Apply(m, s).conns && e in Sent(Apply(m, s).conns[c])
    requires c in m.conns ==> e !in Sent(m.conns[c])
    ensures JustSent(Apply(m, s), c, e)
  {
    if c in m.conns {
      OnlyVisitsSend(m, s, c);
      VisitSent(m.conns[c], if s.Deliver? then m.casts[s.id].evt else e);
    }
  }

  /** What one step does to connection c, for the laws about whole runs. */
  ghost predicate StepLaws(m: Hub, h: Hub, c: nat) {
    && (c in m.conns ==> Later(m, h, c))
    && (c in m.conns && c !in m.clients ==> c !in h.clients && h.conns[c] == m.conns[c])
    && (c in h.conns ==>
          forall e :: e in Sent(h.conns[c]) && (c in m.conns ==> e !in Sent(m.conns[c])) ==> JustSent(h, c, e))
  }

  lemma StepObeys(m: Hub, s: Step, c: nat)
    requires CastInv(m) && Enabled(m, s)
    ensures StepLaws(m, Apply(m, s), c)
  {
    var h := Apply(m, s);
    if c in m.conns {
      StepLater(m, s, c);
    }
    if c in h.conns {
      forall e | e in Sent(h.conns[c]) && (c in m.conns ==> e !in Sent(m.conns[c])) ensures JustSent(h, c, e) {
        SentBy(m, s, c, e);
      }
    }
  }

  /** The hub before the last step of a run. */
  lemma Before(h0: Hub, run: seq<Step>, h: Hub, c: nat) returns (m: Hub)
    requires Init(h0) && Reached(h0, run, h) && run != []
    ensures Reached(h0, run[..|run| - 1], m) && StepLaws(m, h, c)
  {
    var last := |run| - 1;
    m :| Reached(h0, run[..last], m) && Enabled(m, run[last]) && h == Apply(m, run[last]);
    RunKeepsInv(h0, run[..last], m);
    StepObeys(m, run[last], c);
  }

  /** Every event sent was, at some moment of the run, the last one sent so far. */
  lemma {:induction false} WhenSent(h0: Hub, run: seq<Step>, h: Hub, c: nat, e: SseEvent)
      returns (i: nat, m: Hub)
    requires Init(h0) && Reached(h0, run, h) && c in h.conns && e in Sent(h.conns[c])
    ensures i <= |run| && Reached(h0, run[..i], m) && Later(m, h, c) && JustSent(m, c, e)
    decreases |run|
  {
    var last := |run| - 1;
    var b := Before(h0, run, h, c);
    if c in b.conns && e in Sent(b.conns[c]) {
      i, m := WhenSent(h0, run[..last], b, c, e);
      assert run[..last][..i] == run[..i];
      LaterTrans(m, b, h, c);
    } else {
      i, m := |run|, h;
      assert run[..i] == run;
    }
  }

  /** Step s is the visit of broadcast id to connection c, matching, with the queue full. */
  predicate FullVisit(m: Hub, s: Step, c: nat, id: nat) {
    && s == Deliver(id, c) && Enabled(m, s)
    && |m.conns[c].queue| == 64
    && MatchesAny(m.conns[c].topics, m.casts[id].evt.topic)
  }

  lemma DroppedBy(m: Hub, s: Step, c: nat, id: nat)
    requires Inv(m) && Enabled(m, s) && c in Apply(m, s).conns && id in Apply(m, s).conns[c].dropped
    ensures (c in m.conns && id in m.conns[c].dropped) || FullVisit(m, s, c, id)
  {
    if c in m.conns {
      assert ConnInv(m, c);
      OnlyVisitsSend(m, s, c);
      VisitSent(m.conns[c], if s.Deliver? then m.casts[s.id].evt else SseEvent(id, "", ""));
    }
  }

  lemma BeforeDrop(h0: Hub, run: seq<Step>, h: Hub, c: nat, id: nat) returns (m: Hub)
    requires Init(h0) && Reached(h0, run, h) && run != [] && c in h.conns && id in h.conns[c].dropped
    ensures Reached(h0, run[..|run| - 1], m)
    ensures (c in m.conns && id in m.conns[c].dropped) || FullVisit(m, run[|run| - 1], c, id)
  {
    var last := |run| - 1;
    m :| Reached(h0, run[..last], m) && Enabled(m, run[last]) && h == Apply(m, run[last]);
    RunKeepsInv(h0, run[..last], m);
    DroppedBy(m, run[last], c, id);
  }

  /**
   An event is recorded as dropped at a connection only where the run has its
   broadcast visit that connection, matching, with the queue full.
   */
  lemma {:induction false} DropsOnlyWhenFull(h0: Hub, run: seq<Step>, h: Hub, c: nat, id: nat)
      returns (i: nat, m: Hub)
    requires Init(h0) && Reached(h0, run, h) && c in h.conns && id in h.conns[c].dropped
    ensures i < |run| && Reached(h0, run[..i], m) && FullVisit(m, run[i], c, id)
    decreases |run|
  {
    i := |run| - 1;
    m := BeforeDrop(h0, run, h, c, id);
    if c in m.conns && id in m.conns[c].dropped {
      var last := i;
      i, m := DropsOnlyWhenFull(h0, run[..last], m, c, id);
      assert run[..last][..i] == run[..i];
    }
  }

  lemma BeforeGone(h0: Hub, run: seq<Step>, h: Hub, c: nat) returns (m: Hub)
    requires Init(h0) && Reached(h0, run, h) && run != []
    ensures Reached(h0, run[..|run| - 1], m)
    ensures c in m.conns && c !in m.clients ==> c in h.conns && c !in h.clients && h.conns[c] == m.conns[c]
  {
    m := Before(h0, run, h, c);
  }

  /** Once a connection has left the hub, no step of the rest of the run touches it. */
  lemma {:induction false} NothingAfterLeaving(h0: Hub, run: seq<Step>, h: Hub, i: nat, m: Hub, c: nat)
    requires Init(h0) && Reached(h0, run, h) && i <= |run| && Reached(h0, run[..i], m)
    requires c in m.conns && c !in m.clients
    ensures c in h.conns && c !in h.clients && h.conns[c] == m.conns[c]
    decreases |run|
  {
    if i == |run| {
      assert run[..i] == run;
      Deterministic(h0, run, h, m);
    } else {
      var last := |run| - 1;
      var b := BeforeGone(h0, run, h, c);
      assert run[..last][..i] == run[..i];
      NothingAfterLeaving(h0, run[..last], b, i, m, c);
    }
  }

  // ------------------------------------------ what a connection misses

  /** What is recorded as dropped came past, and was not sent. */
  ghost predicate DropInv(h: Hub, c: nat) {
    c in h.conns ==>
      forall id :: id in h.conns[c].dropped ==>
        && id in h.casts && h.casts[id].evt in h.written
        && (c in h.clients ==> !StillDue(h, c, id))
        && h.casts[id].evt !in Sent(h.conns[c])
  }

  /** A broadcast that has come past a connection never becomes due again. */
  lemma DueOnlyEnds(m: Hub, s: Step, c: nat, id: nat)
    requires CastInv(m) && Enabled(m, s) && id in m.casts && !StillDue(m, c, id)
    ensures id in Apply(m, s).casts && Apply(m, s).casts[id].evt == m.casts[id].evt && !StillDue(Apply(m, s), c, id)
  {}

  lemma StepKeepsDrops(m: Hub, s: Step, c: nat)
    requires CastInv(m) && Enabled(m, s) && DropInv(m, c)
    requires c in m.conns ==> SentInv(m, c, m.conns[c])
    ensures DropInv(Apply(m, s), c)
  {
    if s.Deliver? && s.c == c {
      VisitKeepsDrops(m, s.id, c);
    } else if c in m.conns {
      OnlyVisitsSend(m, s, c);
      forall id | id in m.conns[c].dropped
        ensures id in Apply(m, s).casts && Apply(m, s).casts[id].evt in Apply(m, s).written
        ensures Apply(m, s).casts[id].evt == m.casts[id].evt
        ensures c in Apply(m, s).clients ==> !StillDue(Apply(m, s), c, id)
      {
        StepLater(m, s, c);
        if c in Apply(m, s).clients {
          DueOnlyEnds(m, s, c, id);
        }
      }
    }
  }

  lemma VisitKeepsDrops(m: Hub, id: nat, c: nat)
    requires CastInv(m) && Enabled(m, Deliver(id, c)) && DropInv(m, c) && SentInv(m, c, m.conns[c])
    ensures DropInv(Apply(m, Deliver(id, c)), c)
  {
    var h, e := Apply(m, Deliver(id, c)), m.casts[id].evt;
    VisitSent(m.conns[c], e);
    assert c in m.clients && StillDue(m, c, id) && !StillDue(h, c, id);
    assert e in m.written && e !in Sent(m.conns[c]);
    forall k | k in h.conns[c].dropped
      ensures k in h.casts && h.casts[k].evt in h.written && !StillDue(h, c, k) && h.casts[k].evt !in Sent(h.conns[c])
    {
      if k in m.conns[c].dropped {
        DueOnlyEnds(m, Deliver(id, c), c, k);
        assert k != id;
      }
    }
  }

  lemma {:induction false} RunKeepsDrops(h0: Hub, run: seq<Step>, h: Hub, c: nat)
    requires Init(h0) && Reached(h0, run, h)
    ensures DropInv(h, c)
    decreases |run|
  {
    if run != [] {
      var last := |run| - 1;
      var m :| Reached(h0, run[..last], m) && Enabled(m, run[last]) && h == Apply(m, run[last]);
      RunKeepsDrops(h0, run[..last], m, c);
      RunKeepsInv(h0, run[..last], m);
      SentHolds(m, c);
      StepKeepsDrops(m, run[last], c);
    }
  }

  lemma SentHolds(h: Hub, c: nat)
    requires Inv(h)
    ensures CastInv(h) && (c in h.conns ==> SentInv(h, c, h.conns[c]))
  {
    if c in h.conns {
      assert ConnInv(h, c);
    }
  }

  /** Step s takes connection c out of the hub. */
  predicate Leaves(m: Hub, s: Step, c: nat) {
    s == Unsubscribe(c) && Enabled(m, s)
  }

  lemma LeftBy(m: Hub, s: Step, c: nat)
    requires Enabled(m, s) && c in m.clients && c !in Apply(m, s).clients
    ensures Leaves(m, s, c) && Apply(m, s).conns == m.conns
  {}

  lemma BeforeLeft(h0: Hub, run: seq<Step>, h: Hub, c: nat) returns (m: Hub)
    requires Init(h0) && Reached(h0, run, h) && run != [] && c in h.conns && c !in h.clients
    ensures Reached(h0, run[..|run| - 1], m) && StepLaws(m, h, c) && c in m.conns
    ensures c in m.clients ==> Leaves(m, run[|run| - 1], c) && h.conns[c] == m.conns[c]
  {
    var last := |run| - 1;
    m :| Reached(h0, run[..last], m) && Enabled(m, run[last]) && h == Apply(m, run[last]);
    RunKeepsInv(h0, run[..last], m);
    StepObeys(m, run[last], c);
    if c in m.clients {
      LeftBy(m, run[last], c);
    }
  }

  /** A connection that is gone left at some step of the run, as it was then. */
  lemma {:induction false} WhenLeft(h0: Hub, run: seq<Step>, h: Hub, c: nat) returns (i: nat, m: Hub)
    requires Init(h0) && Reached(h0, run, h) && c in h.conns && c !in h.clients
    ensures i < |run| && Reached(h0, run[..i], m) && Leaves(m, run[i], c) && c in m.clients
    ensures Later(m, h, c) && h.conns[c] == m.conns[c]
    decreases |run|
  {
    var last := |run| - 1;
    var b := BeforeLeft(h0, run, h, c);
    if c in b.clients {
      i, m := last, b;
    } else {
      i, m := WhenLeft(h0, run[..last], b, c);
      assert run[..last][..i] == run[..i];
      LaterTrans(m, b, h, c);
    }
  }

  /** The connection left before the broadcast of this number, if there was one yet, had come past it. */
  ghost predicate LeftBefore(h0: Hub, run: seq<Step>, c: nat, id: nat) {
    exists i, m :: 0 <= i < |run| && Reached(h0, run[..i], m) && Leaves(m, run[i], c) &&
        (id in m.casts ==> StillDue(m, c, id))
  }

  /** What an event written after connection c joined is waiting for, or can have missed. */
  ghost predicate NotReceived(h0: Hub, run: seq<Step>, h: Hub, c: nat, e: SseEvent)
    requires c in h.conns
  {
    || e in h.conns[c].queue
    || (c in h.clients && StillDue(h, c, e.id))
    || LeftBefore(h0, run, c, e.id)
  }

  /**
   Exactly which events a connection misses. A matching event written since it
   joined has neither been received nor dropped at a full queue if and only if it
   still waits in the queue, or its broadcast is still to come past, or the
   connection left before it came past.
   */
  lemma MissedIff(h0: Hub, run: seq<Step>, h: Hub, c: nat, j: nat)
    requires Init(h0) && Reached(h0, run, h) && c in h.conns
    requires h.conns[c].joinAt <= j < |h.written| && MatchesAny(h.conns[c].topics, h.written[j].topic)
    ensures var e, conn := h.written[j], h.conns[c];
            e !in conn.stream && e.id !in conn.dropped <==> NotReceived(h0, run, h, c, e)
  {
    if h.written[j] !in h.conns[c].stream && h.written[j].id !in h.conns[c].dropped {
      MissedHow(h0, run, h, c, j);
    } else {
      ReceivedOrDropped(h0, run, h, c, j);
    }
  }

  lemma ReceivedOrDropped(h0: Hub, run: seq<Step>, h: Hub, c: nat, j: nat)
    requires Init(h0) && Reached(h0, run, h) && c in h.conns && j < |h.written|
    requires h.written[j] in h.conns[c].stream || h.written[j].id in h.conns[c].dropped
    ensures !NotReceived(h0, run, h, c, h.written[j])
  {
    var e := h.written[j];
    if e in h.conns[c].queue || (c in h.clients && StillDue(h, c, e.id)) {
      NotYetReceived(h0, run, h, c, j);
    }
    NotLeftBefore(h0, run, h, c, e);
  }

  lemma NotLeftBefore(h0: Hub, run: seq<Step>, h: Hub, c: nat, e: SseEvent)
    requires Init(h0) && Reached(h0, run, h) && c in h.conns && e in h.written
    requires e in h.conns[c].stream || e.id in h.conns[c].dropped
    ensures !LeftBefore(h0, run, c, e.id)
  {
    forall i, m | 0 <= i < |run| && Reached(h0, run[..i], m) && Leaves(m, run[i], c)
      ensures e.id in m.casts && !StillDue(m, c, e.id)
    {
      if e.id in m.casts ==> StillDue(m, c, e.id) {
        GoneTooSoon(h0, run, h, c, i, m, e);
      }
    }
  }

  lemma MissedHow(h0: Hub, run: seq<Step>, h: Hub, c: nat, j: nat)
    requires Init(h0) && Reached(h0, run, h) && c in h.conns
    requires h.conns[c].joinAt <= j < |h.written| && MatchesAny(h.conns[c].topics, h.written[j].topic)
    requires h.written[j] !in h.conns[c].stream && h.written[j].id !in h.conns[c].dropped
    ensures NotReceived(h0, run, h, c, h.written[j])
  {
    RunKeepsInv(h0, run, h);
    if c in h.clients {
      assert ConnInv(h, c);
    } else {
      var i, m := WhenLeft(h0, run, h, c);
      RunKeepsInv(h0, run[..i], m);
      DueWhenLeft(m, h, c, j);
    }
  }

  lemma DueWhenLeft(m: Hub, h: Hub, c: nat, j: nat)
    requires Inv(m) && RingInv(h) && Later(m, h, c) && c in m.clients && h.conns[c] == m.conns[c]
    requires h.conns[c].joinAt <= j < |h.written| && MatchesAny(h.conns[c].topics, h.written[j].topic)
    requires h.written[j] !in h.conns[c].stream && h.written[j].id !in h.conns[c].dropped
    ensures h.written[j] in h.conns[c].queue || (h.written[j].id in m.casts ==> StillDue(m, c, h.written[j].id))
  {
    assert ConnInv(m, c);
    LoggedAtItsPlace(m.written, h, j);
    assert h.written[j].id in m.casts ==> m.casts[h.written[j].id].evt == h.written[j];
  }

  lemma NotYetReceived(h0: Hub, run: seq<Step>, h: Hub, c: nat, j: nat)
    requires Init(h0) && Reached(h0, run, h) && c in h.conns && j < |h.written|
    requires h.written[j] in h.conns[c].queue || (c in h.clients && StillDue(h, c, h.written[j].id))
    ensures h.written[j] !in h.conns[c].stream && h.written[j].id !in h.conns[c].dropped
  {
    RunKeepsInv(h0, run, h);
    RunKeepsDrops(h0, run, h, c);
    SentHolds(h, c);
    StillToCome(h, c, h.written[j]);
  }

  lemma StillToCome(h: Hub, c: nat, e: SseEvent)
    requires c in h.conns && SentInv(h, c, h.conns[c]) && DropInv(h, c)
    requires e.id in h.casts && h.casts[e.id].evt == e
    requires e in h.conns[c].queue || (c in h.clients && StillDue(h, c, e.id))
    ensures e !in h.conns[c].stream && e.id !in h.conns[c].dropped
  {
    var conn := h.conns[c];
    assert forall x :: x in conn.stream || x in conn.queue ==> x in Sent(conn);
    if e in conn.queue {
      QueuedIsNotReceived(conn, e);
    }
  }

  lemma QueuedIsNotReceived(conn: Conn, e: SseEvent)
    requires Distinct(Sent(conn)) && e in conn.queue
    ensures e !in conn.stream
  {
    var k :| 0 <= k < |conn.queue| && conn.queue[k] == e;
    forall i | 0 <= i < |conn.stream| ensures conn.stream[i] != e {
      assert Sent(conn)[i] == conn.stream[i] && Sent(conn)[|conn.stream| + k] == e;
    }
  }

  lemma GoneTooSoon(h0: Hub, run: seq<Step>, h: Hub, c: nat, i: nat, m: Hub, e: SseEvent)
    requires Init(h0) && Reached(h0, run, h) && c in h.conns && e in h.written
    requires i < |run| && Reached(h0, run[..i], m) && Leaves(m, run[i], c)
    requires e.id in m.casts ==> StillDue(m, c, e.id)
    ensures e !in h.conns[c].stream && e.id !in h.conns[c].dropped
  {
    var m' := Apply(m, run[i]);
    Extend(h0, run[..i], m, run[i]);
    assert run[..i] + [run[i]] == run[..i + 1];
    RunKeepsInv(h0, run[..i], m);
    RunKeepsDrops(h0, run[..i], m, c);
    SentHolds(m, c);
    NothingAfterLeaving(h0, run, h, i + 1, m', c);
    assert h.conns[c] == m.conns[c];
    assert forall x :: x in m.conns[c].stream ==> x in Sent(m.conns[c]);
  }

  // --------------------------------------------- two connections in a row

  /** At this moment broadcast `late` had come past connection c and the earlier-numbered one had not. */
  ghost predicate Overtaken(m: Hub, c: nat, id: nat, late: nat) {
    && c in m.clients && c in m.conns
    && id < late && StillDue(m, c, id)
    && exists e :: e in Sent(m.conns[c]) && e.id == late
  }

  /** At some moment of the run it was overtaken that way. */
  ghost predicate OnceOvertaken(h0: Hub, run: seq<Step>, c: nat, id: nat, late: nat) {
    exists i, m :: 0 <= i <= |run| && Reached(h0, run[..i], m) && Overtaken(m, c, id, late)
  }

  /**
   No loss across a reconnect but one kind. A client was connected as c1, received
   an event, and is connected again as c2 with the same filters, having replayed
   from that event's id. Every matching event written since c1 joined whose
   broadcast has finished was received at c1, or dropped there, or has a larger id
   and is accounted for at c2, or is one that c1 missed, as MissedIff says, because
   the received event had overtaken it.
   */
  lemma NoLossAcrossConnections(h0: Hub, run: seq<Step>, h: Hub, c1: nat, c2: nat, k: nat, j: nat)
    requires Init(h0) && Reached(h0, run, h)
    requires c1 in h.conns && k < |h.conns[c1].stream|
    requires c2 in h.clients && c2 in h.conns && h.conns[c2].phase == Streaming(true)
    requires h.conns[c2].topics == h.conns[c1].topics && h.conns[c2].lastId == h.conns[c1].stream[k].id
    requires h.conns[c1].joinAt <= j < |h.written| && MatchesAny(h.conns[c1].topics, h.written[j].topic)
    requires h.written[j].id in h.casts && h.casts[h.written[j].id].phase.Finished?
    ensures var e, lastId := h.written[j], h.conns[c2].lastId;
            || e in h.conns[c1].stream
            || e.id in h.conns[c1].dropped
            || (e.id > lastId && Accounted(h, h.conns[c2], e))
            || (e.id < lastId && (e in h.conns[c1].queue || LeftBefore(h0, run, c1, e.id)) &&
                OnceOvertaken(h0, run, c1, e.id, lastId))
  {
    var e, seen := h.written[j], h.conns[c1].stream[k];
    SeenIsWritten(h0, run, h, c1, k, j);
    if e.id > seen.id {
      NoGapOnReconnect(h0, run, h, c2, e.id);
    } else {
      if e.id < seen.id && e !in h.conns[c1].stream && e.id !in h.conns[c1].dropped {
        var i, m := Overtaking(h0, run, h, c1, k, j);
        MissedIff(h0, run, h, c1, j);
      }
    }
  }

  lemma SeenIsWritten(h0: Hub, run: seq<Step>, h: Hub, c: nat, k: nat, j: nat)
    requires Init(h0) && Reached(h0, run, h)
    requires c in h.conns && k < |h.conns[c].stream| && j < |h.written|
    ensures h.written[j].id in h.casts && h.casts[h.written[j].id].evt == h.written[j]
    ensures h.written[j].id == h.conns[c].stream[k].id ==> h.written[j] in h.conns[c].stream
  {
    RunKeepsInv(h0, run, h);
    assert ConnInv(h, c);
    var seen := h.conns[c].stream[k];
    assert seen in Sent(h.conns[c]);
    var i :| 0 <= i < |h.written| && h.written[i] == seen;
  }

  /** An event not received, with a smaller number than one received, was overtaken by it. */
  lemma Overtaking(h0: Hub, run: seq<Step>, h: Hub, c: nat, k: nat, j: nat) returns (i: nat, m: Hub)
    requires Init(h0) && Reached(h0, run, h)
    requires c in h.conns && k < |h.conns[c].stream|
    requires h.conns[c].joinAt <= j < |h.written| && MatchesAny(h.conns[c].topics, h.written[j].topic)
    requires h.written[j].id < h.conns[c].stream[k].id
    requires h.written[j] !in h.conns[c].stream && h.written[j].id !in h.conns[c].dropped
    ensures i <= |run| && Reached(h0, run[..i], m) && Overtaken(m, c, h.written[j].id, h.conns[c].stream[k].id)
  {
    RunKeepsInv(h0, run, h);
    var e, seen := h.written[j], h.conns[c].stream[k];
    assert seen in Sent(h.conns[c]);
    i, m := WhenSent(h0, run, h, c, seen);
    RunKeepsInv(h0, run[..i], m);
    NotSentBefore(m, h, c, k, e);
    StillOnItsWay(m, h, c, j, seen);
    assert seen in Sent(m.conns[c]);
  }

  /** What was sent before an event that has been received has been received too. */
  lemma NotSentBefore(m: Hub, h: Hub, c: nat, k: nat, e: SseEvent)
    requires Inv(h) && Later(m, h, c) && k < |h.conns[c].stream| && e !in h.conns[c].stream
    requires JustSent(m, c, h.conns[c].stream[k])
    ensures e !in Sent(m.conns[c])
  {
    assert ConnInv(h, c);
    var before, sent, stream := Sent(m.conns[c]), Sent(h.conns[c]), h.conns[c].stream;
    assert sent[k] == stream[k] && sent[|before| - 1] == before[|before| - 1];
    assert |before| - 1 == k;
    forall i | 0 <= i < |before| ensures before[i] in stream {
      assert before[i] == sent[i] == stream[i];
    }
  }

  /** An event neither sent nor dropped yet, of a broadcast already numbered, is still due. */
  lemma StillOnItsWay(m: Hub, h: Hub, c: nat, j: nat, seen: SseEvent)
    requires Inv(m) && Inv(h) && Later(m, h, c) && JustSent(m, c, seen)
    requires h.conns[c].joinAt <= j < |h.written| && MatchesAny(h.conns[c].topics, h.written[j].topic)
    requires 1 <= h.written[j].id < seen.id
    requires h.written[j] !in Sent(m.conns[c]) && h.written[j].id !in m.conns[c].dropped
    ensures StillDue(m, c, h.written[j].id)
  {
    assert ConnInv(m, c);
    var e := h.written[j];
    assert seen in Sent(m.conns[c]) && seen in m.written && seen.id <= m.nextId;
    assert e.id in m.casts && m.casts[e.id].evt == e;
    LoggedAtItsPlace(m.written, h, j);
  }

  lemma LoggedAtItsPlace(earlier: seq<SseEvent>, h: Hub, j: nat)
    requires RingInv(h) && earlier <= h.written && j < |h.written|
    ensures h.written[j] in earlier <==> j < |earlier|
    ensures j < |earlier| ==> earlier[j] == h.written[j]
  {
    if h.written[j] in earlier {
      var i :| 0 <= i < |earlier| && earlier[i] == h.written[j];
      assert i == j;
    }
  }
}
