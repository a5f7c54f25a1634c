/**
 Schedules of the SSE hub (internal/server/sse.go) in which a promise one might
 expect of it fails: replay writes out an event that matches no filter, or a
 mixture of two events, and a reconnecting client misses an event for good.
 */
module HubSchedules {
  import opened EventRing
  import opened HubProtocol
  import opened HubRuns
  import opened Strings
  import opened Topics

  /** Replay of connection c has tested slot k and is about to read its id. */
  predicate AboutToRead(h: Hub, c: nat, k: nat) {
    && c in h.clients && c in h.conns && AtSlot(h.conns[c], k)
    && k < |h.ring.slots| && h.conns[c].phase.reading.Tested?
  }

  /** One look of replay, as a step of a run. */
  lemma Look(h0: Hub, run: seq<Step>, h: Hub, c: nat, k: nat) returns (h': Hub)
    requires Reached(h0, run, h) && c in h.clients && c in h.conns && AtSlot(h.conns[c], k)
    requires k < |h.ring.slots|
    ensures Reached(h0, run + [ReplayRead(c)], h')
    ensures h' == h.(conns := h.conns[c := ReadOn(h.conns[c], k, h.ring.slots[k], |h.written|)])
  {
    Extend(h0, run, h, ReplayRead(c));
    h' := Apply(h, ReplayRead(c));
  }

  /** A ring write, as a step of a run. */
  lemma Write(h0: Hub, run: seq<Step>, h: Hub, id: nat) returns (h': Hub)
    requires Init(h0) && Reached(h0, run, h) && id in h.casts && h.casts[id].phase.Numbered?
    ensures Reached(h0, run + [WriteRing(id)], h') && h.ring.Sized()
    ensures h' == h.(ring := Put(h.ring, h.casts[id].evt),
                     casts := h.casts[id := Cast(h.casts[id].evt, Stored)],
                     written := h.written + [h.casts[id].evt])
    ensures h.casts[id].evt.id == id
  {
    RunKeepsInv(h0, run, h);
    Extend(h0, run, h, WriteRing(id));
    h' := Apply(h, WriteRing(id));
  }

  /** Taking a number, as a step of a run. */
  lemma Number(h0: Hub, run: seq<Step>, h: Hub, topic: string, data: string) returns (h': Hub)
    requires Reached(h0, run, h)
    ensures Reached(h0, run + [TakeId(topic, data)], h')
    ensures var id := h.nextId + 1;
            h' == h.(nextId := id, casts := h.casts[id := Cast(SseEvent(id, topic, data), Numbered)])
  {
    Extend(h0, run, h, TakeId(topic, data));
    h' := Apply(h, TakeId(topic, data));
  }

  lemma Join(h0: Hub, run: seq<Step>, h: Hub, c: nat, topics: seq<string>) returns (h': Hub)
    requires Reached(h0, run, h) && c !in h.conns && NoFanOut(h)
    ensures Reached(h0, run + [Subscribe(c, topics)], h')
    ensures var n := |h.written|;
            h' == h.(clients := h.clients + {c},
                     conns := h.conns[c := Conn(topics, Joined, [], [], [], 0, n, n, map[], {})])
  {
    Extend(h0, run, h, Subscribe(c, topics));
    h' := Apply(h, Subscribe(c, topics));
  }

  lemma Resume(h0: Hub, run: seq<Step>, h: Hub, c: nat, lastId: nat) returns (h': Hub)
    requires Reached(h0, run, h) && c in h.clients && c in h.conns && h.conns[c].phase.Joined? && h.ring.Sized()
    ensures Reached(h0, run + [Snapshot(c, lastId)], h')
    ensures h' == h.(conns := h.conns[c := h.conns[c].(phase := Replaying(SlotsFrom(h.ring, lastId, 0), 0, Untested),
                                                       lastId := lastId, snapAt := |h.written|)])
  {
    Extend(h0, run, h, Snapshot(c, lastId));
    h' := Apply(h, Snapshot(c, lastId));
  }

  /**
   Between the test and the reads of a slot any broadcast that is about to write
   to it can take the place of the event tested, whatever its topic: the client
   is sent that broadcast.
   */
  lemma UntestedFrame(h0: Hub, run: seq<Step>, h: Hub, c: nat, k: nat, id: nat) returns (run': seq<Step>, h': Hub)
    requires Init(h0) && Reached(h0, run, h)
    requires AboutToRead(h, c, k) && k == h.ring.pos
    requires id in h.casts && h.casts[id].phase.Numbered?
    ensures Reached(h0, run', h') && c in h'.conns && h'.conns[c].topics == h.conns[c].topics
    ensures var n := |h.conns[c].replay|; |h'.conns[c].replay| == n + 1 && h'.conns[c].replay[n].evt == h.casts[id].evt
  {
    var a := Write(h0, run, h, id);
    var r := run + [WriteRing(id)];
    var b := Look(h0, r, a, c, k);
    var d := Look(h0, r + [ReplayRead(c)], b, c, k);
    h' := Look(h0, r + [ReplayRead(c)] + [ReplayRead(c)], d, c, k);
    run' := r + [ReplayRead(c)] + [ReplayRead(c)] + [ReplayRead(c)];
  }

  /** Between the reads themselves it gives the client the new topic and data under the old id. */
  lemma MixedFrame(h0: Hub, run: seq<Step>, h: Hub, c: nat, k: nat, id: nat) returns (run': seq<Step>, h': Hub)
    requires Init(h0) && Reached(h0, run, h)
    requires AboutToRead(h, c, k) && k == h.ring.pos
    requires id in h.casts && h.casts[id].phase.Numbered?
    ensures Reached(h0, run', h') && c in h'.conns && h'.conns[c].topics == h.conns[c].topics
    ensures var n, e := |h.conns[c].replay|, h.casts[id].evt;
            && |h'.conns[c].replay| == n + 1
            && h'.conns[c].replay[n].evt == SseEvent(h.ring.slots[k].id, e.topic, e.data)
    ensures forall i :: i in h.casts ==> i in h'.casts && h'.casts[i].evt == h.casts[i].evt
  {
    var a := Look(h0, run, h, c, k);
    var r := run + [ReplayRead(c)];
    var b := Write(h0, r, a, id);
    var d := Look(h0, r + [WriteRing(id)], b, c, k);
    h' := Look(h0, r + [WriteRing(id)] + [ReplayRead(c)], d, c, k);
    run' := r + [WriteRing(id)] + [ReplayRead(c)] + [ReplayRead(c)];
  }

  // ---------------------------------------------------- the full ring

  /** n broadcasts under topic "a" have been written and nobody is connected. */
  predicate FilledTo(h: Hub, N: nat, n: nat) {
    && h.nextId == n && |h.written| == n && |h.ring.slots| == N
    && h.clients == {} && h.conns == map[]
    && (forall id :: id in h.casts ==> h.casts[id].phase.Stored?)
    && (forall j :: 0 <= j < n ==> h.written[j] == SseEvent(j + 1, "a", ""))
  }

  lemma {:induction false} Fill(h0: Hub, n: nat) returns (run: seq<Step>, h: Hub)
    requires Init(h0)
    ensures Reached(h0, run, h) && FilledTo(h, |h0.ring.slots|, n)
  {
    if n == 0 {
      run, h := [], h0;
    } else {
      var r, m := Fill(h0, n - 1);
      var a := Number(h0, r, m, "a", "");
      h := Write(h0, r + [TakeId("a", "")], a, n);
      run := r + [TakeId("a", "")] + [WriteRing(n)];
    }
  }

  /**
   For every capacity: the ring is full of broadcasts under "a", a client asking
   for "a" only has tested the oldest slot, and a broadcast under "b" is about to
   write to that slot.
   */
  lemma Collision(h0: Hub) returns (run: seq<Step>, h: Hub)
    requires Init(h0)
    ensures Reached(h0, run, h) && AboutToRead(h, 0, h.ring.pos)
    ensures h.conns[0].topics == ["a"] && h.conns[0].replay == [] && h.ring.slots[h.ring.pos].id == 1
    ensures 1 in h.casts && h.casts[1].evt == SseEvent(1, "a", "")
    ensures var id := |h0.ring.slots| + 1; id in h.casts && h.casts[id] == Cast(SseEvent(id, "b", ""), Numbered)
  {
    var r, m := Fill(h0, |h0.ring.slots|);
    var r', d := Reconnected(h0, r, m);
    h := Look(h0, r', d, 0, 0);
    run := r' + [ReplayRead(0)];
    OneLetter("a", "a");
  }

  lemma Reconnected(h0: Hub, r: seq<Step>, m: Hub) returns (run: seq<Step>, h: Hub)
    requires Init(h0) && Reached(h0, r, m) && FilledTo(m, |h0.ring.slots|, |h0.ring.slots|)
    ensures Reached(h0, run, h)
    ensures |h.ring.slots| > 0 && h.ring.pos == 0 && h.ring.slots[0] == SseEvent(1, "a", "")
    ensures 0 in h.clients && 0 in h.conns && AtSlot(h.conns[0], 0) && h.conns[0].phase.reading.Untested?
    ensures h.conns[0].topics == ["a"] && h.conns[0].replay == []
    ensures 1 in h.casts && h.casts[1].evt == SseEvent(1, "a", "")
    ensures var id := |h0.ring.slots| + 1; id in h.casts && h.casts[id] == Cast(SseEvent(id, "b", ""), Numbered)
  {
    FullRing(h0, r, m);
    var a := Number(h0, r, m, "b", "");
    var r1, r2 := r + [TakeId("b", "")], r + [TakeId("b", "")] + [Subscribe(0, ["a"])];
    var b := Join(h0, r1, a, 0, ["a"]);
    h := Resume(h0, r2, b, 0, 0);
    run := r2 + [Snapshot(0, 0)];
  }

  lemma FullRing(h0: Hub, r: seq<Step>, m: Hub)
    requires Init(h0) && Reached(h0, r, m) && FilledTo(m, |h0.ring.slots|, |h0.ring.slots|)
    ensures m.ring.Sized() && m.ring.pos == 0
    ensures var slots := SlotsFrom(m.ring, 0, 0); |slots| > 0 && slots[0] == 0
    ensures m.ring.slots[0] == SseEvent(1, "a", "")
    ensures 1 in m.casts && m.casts[1].evt == SseEvent(1, "a", "")
  {
    var N := |h0.ring.slots|;
    RunKeepsInv(h0, r, m);
    ModUnique(N, N, 1, 0);
    ModUnique(0, N, 0, 0);
    SlotOfWrite(m.ring, m.written, 0);
    assert m.ring.slots[0 % N] == m.written[0];
  }

  lemma OneLetter(pattern: string, topic: string)
    requires |pattern| == 1 && pattern[0] != '*' && pattern[0] != '>' && pattern[0] != '.'
    ensures MatchesAny([pattern], topic) <==> pattern == topic
  {
    assert Split(pattern[1..], '.') == [""];
    assert [pattern[0]] + "" == pattern;
    assert Split(pattern, '.') == [pattern];
    LiteralMatchesOnlyItself(pattern, topic);
    if Matches(pattern, topic) {
      assert Matches([pattern][0], topic);
    }
  }

  /** Whatever the capacity, a client can be replayed an event that none of its filters matches. */
  lemma ReplayIgnoresFilter(h0: Hub) returns (run: seq<Step>, h: Hub)
    requires Init(h0)
    ensures Reached(h0, run, h) && 0 in h.conns && |h.conns[0].replay| == 1
    ensures !MatchesAny(h.conns[0].topics, h.conns[0].replay[0].evt.topic)
  {
    var r, m := Collision(h0);
    run, h := UntestedFrame(h0, r, m, 0, m.ring.pos, |h0.ring.slots| + 1);
    OneLetter("a", "b");
  }

  /** Whatever the capacity, a client can be replayed an event that was never broadcast. */
  lemma ReplayMixesEvents(h0: Hub) returns (run: seq<Step>, h: Hub)
    requires Init(h0)
    ensures Reached(h0, run, h) && 0 in h.conns && |h.conns[0].replay| == 1
    ensures var e := h.conns[0].replay[0].evt; e.id in h.casts && h.casts[e.id].evt != e
  {
    var r, m := Collision(h0);
    run, h := MixedFrame(h0, r, m, 0, m.ring.pos, |h0.ring.slots| + 1);
  }

  // ------------------------------------------- an event lost on reconnect

  lemma Begin(h0: Hub, run: seq<Step>, h: Hub, id: nat) returns (h': Hub)
    requires Reached(h0, run, h) && id in h.casts && h.casts[id].phase.Stored?
    ensures Reached(h0, run + [BeginFanOut(id)], h')
    ensures h' == h.(casts := h.casts[id := Cast(h.casts[id].evt, Fanning(h.clients))])
  {
    Extend(h0, run, h, BeginFanOut(id));
    h' := Apply(h, BeginFanOut(id));
  }

  lemma Come(h0: Hub, run: seq<Step>, h: Hub, id: nat, c: nat) returns (h': Hub)
    requires Reached(h0, run, h) && id in h.casts && h.casts[id].phase == Fanning({c}) && c in h.conns
    ensures Reached(h0, run + [Deliver(id, c)], h')
    ensures h' == h.(casts := h.casts[id := Cast(h.casts[id].evt, Fanning({}))],
                     conns := h.conns[c := Visit(h.conns[c], h.casts[id].evt)])
  {
    Extend(h0, run, h, Deliver(id, c));
    h' := Apply(h, Deliver(id, c));
    assert {c} - {c} == {};
  }

  lemma End(h0: Hub, run: seq<Step>, h: Hub, id: nat) returns (h': Hub)
    requires Reached(h0, run, h) && id in h.casts && h.casts[id].phase == Fanning({})
    ensures Reached(h0, run + [EndFanOut(id)], h')
    ensures h' == h.(casts := h.casts[id := Cast(h.casts[id].evt, Finished)])
  {
    Extend(h0, run, h, EndFanOut(id));
    h' := Apply(h, EndFanOut(id));
  }

  lemma StartStream(h0: Hub, run: seq<Step>, h: Hub, c: nat) returns (h': Hub)
    requires Reached(h0, run, h) && c in h.clients && c in h.conns && h.conns[c].phase.Joined?
    ensures Reached(h0, run + [SkipReplay(c)], h')
    ensures h' == h.(conns := h.conns[c := h.conns[c].(phase := Streaming(false))])
  {
    Extend(h0, run, h, SkipReplay(c));
    h' := Apply(h, SkipReplay(c));
  }

  lemma Receive(h0: Hub, run: seq<Step>, h: Hub, c: nat, e: SseEvent) returns (h': Hub)
    requires Reached(h0, run, h) && c in h.clients && c in h.conns
    requires h.conns[c].phase.Streaming? && h.conns[c].queue == [e]
    ensures Reached(h0, run + [Drain(c)], h')
    ensures h' == h.(conns := h.conns[c := h.conns[c].(queue := [], stream := h.conns[c].stream + [e])])
  {
    Extend(h0, run, h, Drain(c));
    h' := Apply(h, Drain(c));
    assert [e][1..] == [] && [e][0] == e;
  }

  lemma Leave(h0: Hub, run: seq<Step>, h: Hub, c: nat) returns (h': Hub)
    requires Reached(h0, run, h) && c in h.clients && NoFanOut(h)
    ensures Reached(h0, run + [Unsubscribe(c)], h') && h' == h.(clients := h.clients - {c})
  {
    Extend(h0, run, h, Unsubscribe(c));
    h' := Apply(h, Unsubscribe(c));
  }

  /** The client receives what is queued and disconnects. */
  lemma ReceiveAndLeave(h0: Hub, run: seq<Step>, h: Hub, c: nat, e: SseEvent) returns (run': seq<Step>, h': Hub)
    requires Reached(h0, run, h) && c in h.clients && c in h.conns && NoFanOut(h)
    requires h.conns[c].phase.Joined? && h.conns[c].queue == [e]
    ensures Reached(h0, run', h')
    ensures h' == h.(clients := h.clients - {c},
                     conns := h.conns[c := h.conns[c].(phase := Streaming(false), queue := [],
                                                       stream := h.conns[c].stream + [e])])
  {
    var a := StartStream(h0, run, h, c);
    var b := Receive(h0, run + [SkipReplay(c)], a, c, e);
    SetTwice(h.conns, c, a.conns[c], b.conns[c]);
    h' := Leave(h0, run + [SkipReplay(c)] + [Drain(c)], b, c);
    run' := run + [SkipReplay(c)] + [Drain(c)] + [Unsubscribe(c)];
  }

  lemma SetTwice<K, V>(m: map<K, V>, k: K, v: V, w: V)
    ensures m[k := v][k := w] == m[k := w]
  {}

  lemma Finish(h0: Hub, run: seq<Step>, h: Hub, c: nat) returns (h': Hub)
    requires Reached(h0, run, h) && c in h.clients && c in h.conns
    requires h.conns[c].phase.Replaying? && h.conns[c].phase.slots == [] && h.conns[c].phase.next == 0
    ensures Reached(h0, run + [EndReplay(c)], h')
    ensures h' == h.(conns := h.conns[c := h.conns[c].(phase := Streaming(true))])
  {
    Extend(h0, run, h, EndReplay(c));
    h' := Apply(h, EndReplay(c));
  }

  /** Replay that finds nothing newer goes straight over to streaming. */
  lemma ResumeWithNothing(h0: Hub, run: seq<Step>, h: Hub, c: nat, lastId: nat) returns (run': seq<Step>, h': Hub)
    requires Reached(h0, run, h) && c in h.clients && c in h.conns && h.conns[c].phase.Joined?
    requires Holds(h.ring, h.written) && forall e :: e in h.written ==> e.id <= lastId
    ensures Reached(h0, run', h')
    ensures h' == h.(conns := h.conns[c := h.conns[c].(phase := Streaming(true),
                                                       lastId := lastId, snapAt := |h.written|)])
  {
    NothingNewer(h.ring, h.written, lastId, 0);
    var a := Resume(h0, run, h, c, lastId);
    h' := Finish(h0, run + [Snapshot(c, lastId)], a, c);
    SetTwice(h.conns, c, a.conns[c], h'.conns[c]);
    run' := run + [Snapshot(c, lastId)] + [EndReplay(c)];
  }

  lemma {:induction false} NothingNewer(r: Ring, written: seq<SseEvent>, lastId: nat, i: nat)
    requires Holds(r, written) && i <= r.len && forall e :: e in written ==> e.id <= lastId
    ensures SlotsFrom(r, lastId, i) == []
    decreases r.len - i
  {
    if i < r.len {
      NothingNewer(r, written, lastId, i + 1);
      SlotOfWrite(r, written, i);
      assert r.slots[SlotAt(r, i)] == written[|written| - r.len + i];
    }
  }

  /** Two broadcasts have their numbers when client 1 joins. */
  lemma TwoNumbered(h0: Hub) returns (run: seq<Step>, h: Hub)
    requires Init(h0)
    ensures Reached(h0, run, h) && h.clients == {1} && h.written == []
    ensures h.casts == map[1 := Cast(SseEvent(1, "a", ""), Numbered), 2 := Cast(SseEvent(2, "a", ""), Numbered)]
    ensures h.conns == map[1 := Conn([], Joined, [], [], [], 0, 0, 0, map[], {})]
  {
    var s := TakeId("a", "");
    var a := Number(h0, [], h0, "a", "");
    var b := Number(h0, [] + [s], a, "a", "");
    h := Join(h0, [] + [s] + [s], b, 1, []);
    run := [] + [s] + [s] + [Subscribe(1, [])];
  }

  /** Broadcast 2 is written, comes past client 1 and is received; broadcast 1 has only its number. */
  lemma SecondFirst(h0: Hub) returns (run: seq<Step>, h: Hub)
    requires Init(h0)
    ensures Reached(h0, run, h) && h.clients == {} && h.conns.Keys == {1}
    ensures h.casts == map[1 := Cast(SseEvent(1, "a", ""), Numbered), 2 := Cast(SseEvent(2, "a", ""), Finished)]
    ensures h.written == [SseEvent(2, "a", "")]
    ensures var conn := h.conns[1];
            conn.topics == [] && conn.joinAt == 0 && conn.stream == h.written && conn.queue == [] && conn.dropped == {}
  {
    var r, a := TwoNumbered(h0);
    var r1, b := WriteAndVisit(h0, r, a, 2, 1);
    run, h := ReceiveAndLeave(h0, r1, b, 1, SseEvent(2, "a", ""));
  }

  /** A broadcast is carried out while c is the only client. */
  lemma WriteAndVisit(h0: Hub, run: seq<Step>, h: Hub, id: nat, c: nat) returns (run': seq<Step>, h': Hub)
    requires Init(h0) && Reached(h0, run, h) && id in h.casts && h.casts[id].phase.Numbered?
    requires h.clients == {c} && c in h.conns && h.conns[c].topics == [] && h.conns[c].queue == []
    ensures Reached(h0, run', h')
    ensures h' == h.(ring := h'.ring,
                     casts := h.casts[id := Cast(h.casts[id].evt, Finished)],
                     written := h.written + [h.casts[id].evt],
                     conns := h.conns[c := h.conns[c].(queue := [h.casts[id].evt])])
  {
    var a := Write(h0, run, h, id);
    var b := Begin(h0, run + [WriteRing(id)], a, id);
    var r := run + [WriteRing(id)] + [BeginFanOut(id)];
    var d := Come(h0, r, b, id, c);
    h' := End(h0, r + [Deliver(id, c)], d, id);
    var e := h.casts[id].evt;
    SetTwice(h.casts, id, Cast(e, Stored), Cast(e, Fanning({c})));
    SetTwice(h.casts, id, Cast(e, Fanning({c})), Cast(e, Fanning({})));
    SetTwice(h.casts, id, Cast(e, Fanning({})), Cast(e, Finished));
    assert Visit(h.conns[c], e) == h.conns[c].(queue := [e]);
    run' := r + [Deliver(id, c)] + [EndFanOut(id)];
  }

  /** A broadcast is carried out while nobody is connected. */
  lemma WriteUnseen(h0: Hub, run: seq<Step>, h: Hub, id: nat) returns (run': seq<Step>, h': Hub)
    requires Init(h0) && Reached(h0, run, h) && id in h.casts && h.casts[id].phase.Numbered? && h.clients == {}
    ensures Reached(h0, run', h')
    ensures h' == h.(ring := h'.ring,
                     casts := h.casts[id := Cast(h.casts[id].evt, Finished)],
                     written := h.written + [h.casts[id].evt])
  {
    var a := Write(h0, run, h, id);
    var b := Begin(h0, run + [WriteRing(id)], a, id);
    h' := End(h0, run + [WriteRing(id)] + [BeginFanOut(id)], b, id);
    run' := run + [WriteRing(id)] + [BeginFanOut(id)] + [EndFanOut(id)];
  }

  lemma RingHolds(h0: Hub, run: seq<Step>, h: Hub)
    requires Init(h0) && Reached(h0, run, h)
    ensures Holds(h.ring, h.written)
  {
    RunKeepsInv(h0, run, h);
  }

  /**
   The last case of NoLossAcrossConnections is a loss: a client that received
   broadcast 2, left, and came back with id 2 never gets broadcast 1, which was
   numbered first, written after it had joined, and finished before it came back.
   */
  lemma OvertakenIsLost(h0: Hub) returns (run: seq<Step>, h: Hub)
    requires Init(h0)
    ensures Reached(h0, run, h) && 1 in h.conns && 2 in h.conns && 2 in h.clients
    ensures h.conns[1].topics == h.conns[2].topics == [] && h.conns[2].phase == Streaming(true)
    ensures |h.conns[1].stream| == 1 && h.conns[2].lastId == h.conns[1].stream[0].id
    ensures |h.written| == 2 && h.conns[1].joinAt <= 1 && h.written[1].id == 1
    ensures 1 in h.casts && h.casts[1] == Cast(h.written[1], Finished)
    ensures var e := h.written[1];
            && e !in h.conns[1].stream && e.id !in h.conns[1].dropped
            && !Replayed(h.conns[2], e) && e !in Sent(h.conns[2]) && e.id !in h.conns[2].dropped
  {
    var r, a := SecondFirst(h0);
    var r1, b := WriteUnseen(h0, r, a, 1);
    var d := Join(h0, r1, b, 2, []);
    RingHolds(h0, r1 + [Subscribe(2, [])], d);
    run, h := ResumeWithNothing(h0, r1 + [Subscribe(2, [])], d, 2, 2);
  }
}
