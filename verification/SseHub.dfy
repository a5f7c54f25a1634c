/**
 The SSE hub as an object (internal/server/sse.go): a ring buffer written in
 place, a set of clients with bounded queues, and calls that do not overlap.
 HubProtocol studies the same steps when calls do overlap.
 */
module SseHub {
  import opened EventRing
  import opened Topics

  /** Capacity of a client's queue. */
  const QUEUE_CAP := 64

  /** A non-blocking send: the event is dropped when the queue is full. */
  function Offer(queue: seq<SseEvent>, e: SseEvent): (q: seq<SseEvent>)
    ensures |queue| <= QUEUE_CAP ==> |q| <= QUEUE_CAP
  {
    if |queue| < QUEUE_CAP then queue + [e] else queue
  }

  /**
   What a reconnecting client may still be sent out of a log whose ids count up
   from 1, when only the last `len` entries are buffered.
   */
  function Tail(log: seq<SseEvent>, len: nat, lastId: nat): seq<SseEvent>
    requires len <= |log|
  {
    if lastId >= |log| then [] else log[if lastId < |log| - len then |log| - len else lastId..]
  }

  /** That is as many of the last events as came after the id and are still buffered. */
  lemma TailIs(log: seq<SseEvent>, len: nat, lastId: nat)
    requires len <= |log|
    ensures var n := if lastId >= |log| then 0 else if |log| - lastId > len then len else |log| - lastId;
            |Tail(log, len, lastId)| == n && Tail(log, len, lastId) == log[|log| - n..]
  {}

  /** The entries from `first` on that come after lastId and before `end`. */
  function Between(log: seq<SseEvent>, first: nat, lastId: nat, end: nat): seq<SseEvent>
    requires first <= end <= |log|
  {
    if lastId >= end then [] else log[if lastId < first then first else lastId..end]
  }

  lemma BetweenStep(log: seq<SseEvent>, first: nat, lastId: nat, end: nat)
    requires first <= end < |log|
    ensures Between(log, first, lastId, end + 1)
            == Between(log, first, lastId, end) + if end + 1 > lastId then [log[end]] else []
  {}

  lemma BetweenIsTail(log: seq<SseEvent>, len: nat, lastId: nat)
    requires len <= |log|
    ensures Between(log, |log| - len, lastId, |log|) == Tail(log, len, lastId)
  {}

  lemma TailIds(log: seq<SseEvent>, len: nat, lastId: nat)
    requires len <= |log| && forall i :: 0 <= i < |log| ==> log[i].id == i + 1
    ensures var result := Tail(log, len, lastId);
            forall i :: 0 <= i < |result| ==> result[i].id == |log| - |result| + i + 1
  {}

  class Client {
    const topics: seq<string>
    var ch: seq<SseEvent>

    constructor (topics: seq<string>)
      ensures this.topics == topics && ch == []
    {
      this.topics := topics;
      ch := [];
    }
  }

  class Hub {
    var clients: set<Client>
    var nextID: nat
    const ring: array<SseEvent>
    var ringPos: nat
    var ringLen: nat

    /** Every event ever broadcast, in order. */
    ghost var log: seq<SseEvent>

    function View(): Ring
      reads this, ring
    {
      Ring(ring[..], ringPos, ringLen)
    }

    /** The ring refines the log, and ids count the log's entries. */
    ghost predicate Valid()
      reads this, ring
    {
      && Holds(View(), log)
      && nextID == |log|
      && forall i :: 0 <= i < |log| ==> log[i].id == i + 1
    }

    constructor (capacity: nat, zero: SseEvent)
      requires capacity > 0
      ensures Valid() && log == [] && clients == {} && ring.Length == capacity && fresh(ring)
    {
      ring := new SseEvent[capacity](_ => zero);
      ringPos, ringLen, nextID := 0, 0, 0;
      clients, log := {}, [];
      new;
      EventRing.ModUnique(0, capacity, 0, 0);
    }

    method Broadcast(topic: string, payload: string)
      requires Valid()
      modifies this`nextID, this`ringPos, this`ringLen, this`log, ring, clients
      ensures Valid()
      ensures log == old(log) + [SseEvent(old(nextID) + 1, topic, payload)]
      ensures View() == Put(old(View()), SseEvent(old(nextID) + 1, topic, payload))
      ensures forall c :: c in clients ==>
                c.ch == if MatchesAny(c.topics, topic)
                        then Offer(old(c.ch), SseEvent(old(nextID) + 1, topic, payload))
                        else old(c.ch)
      ensures forall c :: c in clients ==>
                var e := SseEvent(|old(log)| + 1, topic, payload);
                c.ch == if (c.topics == [] || exists t :: t in c.topics && Matches(t, topic)) && |old(c.ch)| < 64
                        then old(c.ch) + [e] else old(c.ch)
    {
      nextID := nextID + 1;
      var evt := SseEvent(nextID, topic, payload);
      PutHolds(View(), log, evt);

      ring[ringPos] := evt;
      ringPos := (ringPos + 1) % ring.Length;
      if ringLen < ring.Length {
        ringLen := ringLen + 1;
      }
      log := log + [evt];
      assert View() == Put(old(View()), evt);

      FanOut(evt);
    }

    /** The loop over the clients; the order in which they are visited is open. */
    method FanOut(evt: SseEvent)
      modifies clients
      ensures forall c :: c in clients ==>
                c.ch == if MatchesAny(c.topics, evt.topic) then Offer(old(c.ch), evt) else old(c.ch)
    {
      var todo := clients;
      while todo != {}
        invariant todo <= clients
        invariant forall c :: c in todo ==> c.ch == old(c.ch)
        invariant forall c :: c in clients - todo ==>
                    c.ch == if MatchesAny(c.topics, evt.topic) then Offer(old(c.ch), evt) else old(c.ch)
        decreases |todo|
      {
        var c :| c in todo;
        var m := MatchesTopic(c.topics, evt.topic);
        if m && |c.ch| < QUEUE_CAP {
          c.ch := c.ch + [evt];
        }
        todo := todo - {c};
      }
    }

    method Subscribe(topics: seq<string>) returns (c: Client)
      requires Valid()
      modifies this`clients
      ensures Valid()
      ensures fresh(c) && c.topics == topics && c.ch == []
      ensures clients == old(clients) + {c}
    {
      c := new Client(topics);
      clients := clients + {c};
    }

    method Unsubscribe(c: Client)
      requires Valid()
      modifies this`clients
      ensures Valid()
      ensures clients == old(clients) - {c}
    {
      clients := clients - {c};
    }

    /**
     Replay after reconnecting. Ids that fell out of the buffer are silently
     skipped: nothing tells the caller that the id was too old.
     */
    method EventsSince(lastID: nat) returns (result: seq<SseEvent>)
      requires Valid()
      ensures result == Tail(log, ringLen, lastID)
      ensures forall i :: 0 <= i < |result| ==> result[i].id == |log| - |result| + i + 1
    {
      result := [];
      TailIds(log, ringLen, lastID);
      if ringLen == 0 {
        return;
      }
      BetweenIsTail(log, ringLen, lastID);
      ghost var first := |log| - ringLen;
      for i := 0 to ringLen
        invariant result == Between(log, first, lastID, first + i)
      {
        result := OneMore(result, i, lastID);
      }
    }

    /** One turn of that loop. */
    method OneMore(before: seq<SseEvent>, i: nat, lastID: nat) returns (result: seq<SseEvent>)
      requires Valid() && i < ringLen
      requires ringLen <= |log| && before == Between(log, |log| - ringLen, lastID, |log| - ringLen + i)
      ensures result == Between(log, |log| - ringLen, lastID, |log| - ringLen + i + 1)
    {
      result := before;
      var evt := Buffered(i);
      BetweenStep(log, |log| - ringLen, lastID, |log| - ringLen + i);
      if evt.id > lastID {
        result := result + [evt];
      }
    }

    /** The i-th oldest event of the buffer. */
    method Buffered(i: nat) returns (evt: SseEvent)
      requires Valid() && i < ringLen
      ensures ringLen <= |log| && evt == log[|log| - ringLen + i] && evt.id == |log| - ringLen + i + 1
    {
      var start := ringPos - ringLen;
      var idx := if start < 0 then start + ring.Length + i else start + i;
      idx := idx % ring.Length;
      SlotOfWrite(View(), log, i);
      evt := ring[idx];
    }
  }

  /**
   Replay is gapless exactly while the client's last id is not older than the
   buffer: it then misses nothing, and otherwise it misses the events in between.
   */
  lemma ReplayGapless(log: seq<SseEvent>, capacity: nat, lastId: nat)
    requires lastId <= |log|
    ensures var len := if |log| < capacity then |log| else capacity;
            Tail(log, len, lastId) == log[lastId..] <==> lastId + capacity >= |log|
  {
    var len := if |log| < capacity then |log| else capacity;
    if lastId < |log| - len {
      assert |Tail(log, len, lastId)| == len && |log[lastId..]| > len;
    }
  }
}
