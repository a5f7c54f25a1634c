/**
 The ring buffer of recent server-sent events (internal/server/sse.go), as a
 value. The hub's in-memory buffer and the interleaving model of the hub both
 use these definitions. The capacity is the number of slots; the server uses 1000.
 */
module EventRing {
  import opened Wrappers

  datatype SseEvent = SseEvent(id: nat, topic: string, data: string)

  /** `pos` is the next slot to write, `len` the number of slots in use. */
  datatype Ring = Ring(slots: seq<SseEvent>, pos: nat, len: nat) {
    predicate Sized() {
      pos < |slots| && len <= |slots|
    }
  }

  /** One write: the oldest event gives way once all slots are in use. */
  function Put(r: Ring, e: SseEvent): (r': Ring)
    requires r.Sized()
    ensures r'.Sized() && |r'.slots| == |r.slots|
  {
    Ring(r.slots[r.pos := e],
         (r.pos + 1) % |r.slots|,
         if r.len < |r.slots| then r.len + 1 else r.len)
  }

  /** The slot holding the i-th oldest event. */
  function SlotAt(r: Ring, i: nat): (k: nat)
    requires r.Sized() && i < r.len
    ensures k < |r.slots|
  {
    var start := r.pos - r.len;
    (if start < 0 then start + |r.slots| + i else start + i) % |r.slots|
  }

  /** The slots, oldest first and from the i-th oldest on, whose event has an id above lastId. */
  function SlotsFrom(r: Ring, lastId: nat, i: nat): (ks: seq<nat>)
    requires r.Sized() && i <= r.len
    ensures forall k :: k in ks ==> k < |r.slots| && r.slots[k].id > lastId
    decreases r.len - i
  {
    if i == r.len then []
    else (if r.slots[SlotAt(r, i)].id > lastId then [SlotAt(r, i)] else []) + SlotsFrom(r, lastId, i + 1)
  }

  /**
   The ring is what a log of all writes looks like through a window of
   |slots| entries: write j went to slot j modulo the capacity.
   */
  ghost predicate Holds(r: Ring, written: seq<SseEvent>) {
    && r.Sized()
    && r.len == (if |written| < |r.slots| then |written| else |r.slots|)
    && r.pos == |written| % |r.slots|
    && forall j :: |written| - r.len <= j < |written| ==> r.slots[j % |r.slots|] == written[j]
  }

  /** Two multiples of n at different factors are at least n apart. */
  lemma MulApart(n: nat, a: int, b: int)
    ensures a < b ==> n * a + n <= n * b
  {
    if a < b {
      assert n * b == n * a + n * (b - a);
      MulGrows(n, b - a);
    }
  }

  lemma {:induction false} MulGrows(n: nat, d: nat)
    requires d >= 1
    ensures n * d >= n
  {
    if d > 1 {
      MulGrows(n, d - 1);
      assert n * d == n * (d - 1) + n;
    }
  }

  /** Quotient and remainder are determined by their equation. */
  lemma ModUnique(m: nat, n: nat, q: int, r: nat)
    requires r < n && m == n * q + r
    ensures m % n == r
  {
    var p := m / n;
    assert m == n * p + m % n;
    MulApart(n, p, q);
    MulApart(n, q, p);
  }

  /** Numbers less than n apart have different remainders. */
  lemma ModWindow(a: nat, b: nat, n: nat)
    requires 0 < n && a < b < a + n
    ensures a % n != b % n
  {
    var p, q := a / n, b / n;
    assert a == n * p + a % n && b == n * q + b % n;
    MulApart(n, p, q);
    MulApart(n, q, p);
  }

  lemma ModNext(m: nat, n: nat)
    requires 0 < n
    ensures (m % n + 1) % n == (m + 1) % n
  {
    var q, r := m / n, m % n;
    assert m == n * q + r;
    if r + 1 < n {
      ModUnique(m + 1, n, q, r + 1);
    } else {
      assert n * (q + 1) == n * q + n;
      ModUnique(m + 1, n, q + 1, 0);
    }
  }

  /** Writing to the ring extends the log it stands for. */
  lemma PutHolds(r: Ring, written: seq<SseEvent>, e: SseEvent)
    requires Holds(r, written)
    ensures Holds(Put(r, e), written + [e])
  {
    var n, N := |written|, |r.slots|;
    var r' := Put(r, e);
    ModNext(n, N);
    forall j | n + 1 - r'.len <= j < n + 1 ensures r'.slots[j % N] == (written + [e])[j] {
      if j < n {
        ModWindow(j, n, N);
      }
    }
  }

  /** The i-th oldest event is write number |written| - len + i. */
  lemma SlotOfWrite(r: Ring, written: seq<SseEvent>, i: nat)
    requires Holds(r, written) && i < r.len
    ensures SlotAt(r, i) == (|written| - r.len + i) % |r.slots|
  {
    var n, N := |written|, |r.slots|;
    var start := r.pos - r.len;
    var s: nat := if start < 0 then start + N else start;
    if n < N {
      ModUnique(n, N, 0, n);
    } else {
      assert s == n % N;
      ShiftedMod(n, N, i);
    }
  }

  lemma ShiftedMod(n: nat, N: nat, i: nat)
    requires 0 < N <= n
    ensures (n % N + i) % N == (n - N + i) % N
  {
    var p, q, t := n / N, (n % N + i) / N, (n % N + i) % N;
    assert n == N * p + n % N && n % N + i == N * q + t;
    assert N * (p - 1 + q) == N * p - N + N * q;
    ModUnique(n - N + i, N, p - 1 + q, t);
  }

  /** Every buffered write with a larger id is listed. */
  lemma {:induction false} SlotsFromComplete(r: Ring, written: seq<SseEvent>, lastId: nat, i: nat, j: nat)
    requires Holds(r, written) && i <= r.len
    requires |written| - r.len + i <= j < |written| && written[j].id > lastId
    ensures j % |r.slots| in SlotsFrom(r, lastId, i)
    decreases r.len - i
  {
    SlotOfWrite(r, written, i);
    if j > |written| - r.len + i {
      SlotsFromComplete(r, written, lastId, i + 1, j);
    }
  }

  /** What is listed is a buffered write. */
  lemma {:induction false} SlotsFromSound(r: Ring, written: seq<SseEvent>, lastId: nat, i: nat, k: nat)
      returns (j: nat)
    requires Holds(r, written) && i <= r.len
    requires k in SlotsFrom(r, lastId, i)
    ensures |written| - r.len + i <= j < |written| && j % |r.slots| == k && written[j].id > lastId
    decreases r.len - i
  {
    SlotOfWrite(r, written, i);
    if k in SlotsFrom(r, lastId, i + 1) {
      j := SlotsFromSound(r, written, lastId, i + 1, k);
    } else {
      j := |written| - r.len + i;
    }
  }

  // ------------------------------------------------ what a slot held, and when

  /** The number of the last of the first t writes that went to slot k. */
  function LastWrite(N: nat, k: nat, t: nat): (j: nat)
    requires k < N && k < t
    ensures k <= j < t && j % N == k && forall i :: j < i < t ==> i % N != k
  {
    if (t - 1) % N == k then t - 1 else LastWrite(N, k, t - 1)
  }

  /** A write stays in its slot until N more have been made. */
  lemma LastWriteIs(N: nat, k: nat, t: nat, j: nat)
    requires k < N && k <= j < t <= j + N && j % N == k
    ensures LastWrite(N, k, t) == j
  {
    var i := LastWrite(N, k, t);
    if j < i {
      ModWindow(j, i, N);
    }
  }

  /** The next write to the slot comes N writes later. */
  lemma LastWriteHolds(N: nat, k: nat, t: nat)
    requires k < N && k < t
    ensures t <= LastWrite(N, k, t) + N
  {
    var j := LastWrite(N, k, t);
    NextTurn(j, N);
    assert (j + N) % N == k;
  }

  lemma NextTurn(j: nat, N: nat)
    requires 0 < N
    ensures (j + N) % N == j % N
  {
    assert j == N * (j / N) + j % N;
    assert N * (j / N + 1) == N * (j / N) + N;
    ModUnique(j + N, N, j / N + 1, j % N);
  }

  /** A slot in use holds its last write. */
  lemma SlotHoldsLast(r: Ring, written: seq<SseEvent>, k: nat)
    requires Holds(r, written) && k < |r.slots| && k < |written|
    ensures r.slots[k] == written[LastWrite(|r.slots|, k, |written|)]
  {
    LastWriteHolds(|r.slots|, k, |written|);
  }

  lemma DistinctCons<T>(x: T, s: seq<T>)
    requires x !in s && Distinct(s)
    ensures Distinct([x] + s)
  {
    forall a, b | 0 <= a < b < |s| + 1 ensures ([x] + s)[a] != ([x] + s)[b] {
      assert ([x] + s)[b] == s[b - 1];
    }
  }

  /** No slot is listed twice. */
  lemma {:induction false} SlotsFromDistinct(r: Ring, written: seq<SseEvent>, lastId: nat, i: nat)
    requires Holds(r, written) && i <= r.len
    ensures Distinct(SlotsFrom(r, lastId, i))
    decreases r.len - i
  {
    if i < r.len {
      SlotsFromDistinct(r, written, lastId, i + 1);
      HeadNotInRest(r, written, lastId, i);
      DistinctCons(SlotAt(r, i), SlotsFrom(r, lastId, i + 1));
      assert [] + SlotsFrom(r, lastId, i + 1) == SlotsFrom(r, lastId, i + 1);
    }
  }

  lemma HeadNotInRest(r: Ring, written: seq<SseEvent>, lastId: nat, i: nat)
    requires Holds(r, written) && i < r.len
    ensures SlotAt(r, i) !in SlotsFrom(r, lastId, i + 1)
  {
    SlotOfWrite(r, written, i);
    if SlotAt(r, i) in SlotsFrom(r, lastId, i + 1) {
      var j := SlotsFromSound(r, written, lastId, i + 1, SlotAt(r, i));
      ModWindow(|written| - r.len + i, j, |r.slots|);
    }
  }
}
