/** The event queue: a header (head, tail, capacity) and a byte region of fixed-width
    event slots, used as a ring buffer that drops its oldest entry when full. */
module Queue {
  import opened Borsh
  import opened Errors
  import opened State

  const HEADER_SIZE: nat := 24

  /** The slot width the source computes: the encoded length of a sample `FundingUpdate`. */
  function SerializedSize(): (r: nat)
    ensures r == FUNDING_UPDATE_SIZE
  {
    |EncodeEvent(FundingUpdate(DefaultKey, 0))|
  }

  /** The slot width the model uses: the largest encoding of any event variant. */
  const SLOT_SIZE: nat := MAX_EVENT_SIZE

  class EventQueueHeader {
    var head: U64
    var tail: U64
    var capacity: U64

    constructor (head: U64, tail: U64, capacity: U64)
      ensures this.head == head && this.tail == tail && this.capacity == capacity
    {
      this.head := head;
      this.tail := tail;
      this.capacity := capacity;
    }

    /** Empties the queue and sets its capacity. */
    method Init(capacity: U64)
      modifies this
      ensures head == 0 && tail == 0 && this.capacity == capacity
    {
      head := 0;
      tail := 0;
      this.capacity := capacity;
    }
  }

  // ----- header layout -----

  function EncodeHeader(head: U64, tail: U64, capacity: U64): (r: seq<Byte>)
    ensures |r| == HEADER_SIZE
  {
    EncodeU64(head) + EncodeU64(tail) + EncodeU64(capacity)
  }

  function DecodeHeader(s: seq<Byte>): Option<(U64, U64, U64)>
  {
    if |s| != HEADER_SIZE then None
    else Some((DecodeU64(s[0..8]), DecodeU64(s[8..16]), DecodeU64(s[16..24])))
  }

  lemma HeaderSlices(s: seq<Byte>)
    requires |s| == HEADER_SIZE
    ensures s == s[0..8] + s[8..16] + s[16..24]
  {
  }

  lemma HeaderRoundTrip(head: U64, tail: U64, capacity: U64)
    ensures DecodeHeader(EncodeHeader(head, tail, capacity)) == Some((head, tail, capacity))
  {
    var e := EncodeHeader(head, tail, capacity);
    assert e[0..8] == EncodeU64(head) && e[8..16] == EncodeU64(tail) && e[16..24] == EncodeU64(capacity);
    U64RoundTrip(head);
    U64RoundTrip(tail);
    U64RoundTrip(capacity);
  }

  /** Any 24 bytes decode as a header, so a fallback for a header that fails to decode is never taken. */
  lemma HeaderAlwaysDecodes(s: seq<Byte>)
    requires |s| == HEADER_SIZE
    ensures DecodeHeader(s).Some?
    ensures var h := DecodeHeader(s).value; EncodeHeader(h.0, h.1, h.2) == s
  {
    var h := DecodeHeader(s).value;
    assert EncodeU64(h.0) == s[0..8] by { U64Canonical(s[0..8]); }
    assert EncodeU64(h.1) == s[8..16] by { U64Canonical(s[8..16]); }
    assert EncodeU64(h.2) == s[16..24] by { U64Canonical(s[16..24]); }
    HeaderSlices(s);
  }

  // ----- counters -----

  /** `a.wrapping_add(b)`. */
  function WrappingAdd(a: U64, b: U64): (r: U64)
    ensures r == (a + b) % U64_LIMIT
  {
    if a + b < U64_LIMIT then a + b else a + b - U64_LIMIT
  }

  /** `a.wrapping_sub(b)`. */
  function WrappingSub(a: U64, b: U64): (r: U64)
    ensures r == (a - b) % U64_LIMIT
  {
    if a >= b then a - b else a - b + U64_LIMIT
  }

  /** Number of retained entries, `tail.wrapping_sub(head)`. */
  function Occupancy(head: U64, tail: U64): U64
  {
    WrappingSub(tail, head)
  }

  /** The counters after one successful push: tail advances, and head follows when the queue overflowed. */
  function Advance(head: U64, tail: U64, capacity: U64): (U64, U64)
  {
    var t := WrappingAdd(tail, 1);
    if WrappingSub(t, head) > capacity then (WrappingAdd(head, 1), t) else (head, t)
  }

  // ----- buffer writes -----

  /** `bytes` written over `buf` starting at `offset`. */
  function WriteAt(buf: seq<Byte>, offset: nat, bytes: seq<Byte>): (r: seq<Byte>)
    requires offset + |bytes| <= |buf|
  {
    buf[..offset] + bytes + buf[offset + |bytes|..]
  }

  /** Writing changes exactly the written range. */
  lemma WriteAtFrame(buf: seq<Byte>, offset: nat, bytes: seq<Byte>)
    requires offset + |bytes| <= |buf|
    ensures |WriteAt(buf, offset, bytes)| == |buf|
    ensures WriteAt(buf, offset, bytes)[offset..offset + |bytes|] == bytes
    ensures forall k :: 0 <= k < |buf| && !(offset <= k < offset + |bytes|) ==> WriteAt(buf, offset, bytes)[k] == buf[k]
  {
    var r := WriteAt(buf, offset, bytes);
    assert r[offset..offset + |bytes|] == bytes;
  }

  lemma WriteAtIndex(buf: seq<Byte>, offset: nat, bytes: seq<Byte>, j: nat)
    requires offset + |bytes| <= |buf| && j < |buf|
    ensures WriteAt(buf, offset, bytes)[j] == if offset <= j < offset + |bytes| then bytes[j - offset] else buf[j]
  {
  }

  /** Byte offset of the slot that `tail` designates. */
  function SlotOffset(tail: U64, capacity: U64, slotSize: nat): nat
    requires capacity > 0
  {
    (tail % capacity) * slotSize
  }

  datatype Pushed = Pushed(result: Result<()>, head: U64, tail: U64, buf: seq<Byte>)

  /** `push_event` on a slot width `slotSize`: the slot is `tail % capacity`, at byte offset
      slot * slotSize, computed in 64-bit `usize` arithmetic; the event's encoding is written
      into the slot until the slot is full, and an encoding longer than the slot makes the
      write fail. */
  function Push(head: U64, tail: U64, capacity: U64, buf: seq<Byte>, e: Event, slotSize: nat): (p: Pushed)
    ensures |p.buf| == |buf|
  {
    if capacity == 0 then Pushed(Err(Panic(DivideByZero)), head, tail, buf)
    else
      var offset := SlotOffset(tail, capacity, slotSize);
      if offset + slotSize >= U64_LIMIT then Pushed(Err(Panic(ArithmeticOverflow)), head, tail, buf)
      else if offset + slotSize > |buf| then Pushed(Err(Panic(IndexOutOfBounds)), head, tail, buf)
      else
        var bytes := EncodeEvent(e);
        if |bytes| > slotSize then Pushed(Err(BorshIoError), head, tail, WriteAt(buf, offset, bytes[..slotSize]))
        else
          var next := Advance(head, tail, capacity);
          Pushed(Ok(()), next.0, next.1, WriteAt(buf, offset, bytes))
  }

  /** `push_event`, writing into `buf` in place and advancing the header's counters. */
  method PushEvent(header: EventQueueHeader, buf: array<Byte>, e: Event, slotSize: nat) returns (r: Result<()>)
    modifies header, buf
    ensures var p := Push(old(header.head), old(header.tail), old(header.capacity), old(buf[..]), e, slotSize);
      r == p.result && header.head == p.head && header.tail == p.tail && buf[..] == p.buf
    ensures header.capacity == old(header.capacity)
  {
    if header.capacity == 0 {
      return Err(Panic(DivideByZero));
    }
    var offset := SlotOffset(header.tail, header.capacity, slotSize);
    if offset + slotSize >= U64_LIMIT {
      return Err(Panic(ArithmeticOverflow));
    }
    if offset + slotSize > buf.Length {
      return Err(Panic(IndexOutOfBounds));
    }
    var bytes := EncodeEvent(e);
    var n := Min(|bytes|, slotSize);
    ghost var before := buf[..];
    forall k | 0 <= k < n {
      buf[offset + k] := bytes[k];
    }
    assert buf[..] == WriteAt(before, offset, bytes[..n]) by {
      forall j | 0 <= j < buf.Length
        ensures buf[j] == WriteAt(before, offset, bytes[..n])[j]
      {
        WriteAtIndex(before, offset, bytes[..n], j);
      }
    }
    if |bytes| > slotSize {
      return Err(BorshIoError);
    }
    assert bytes[..n] == bytes;
    header.tail := WrappingAdd(header.tail, 1);
    if WrappingSub(header.tail, header.head) > header.capacity {
      header.head := WrappingAdd(header.head, 1);
    }
    return Ok(());
  }

  // ----- properties of one push -----

  /** A push fails on a zero capacity, on a slot end that does not fit in a `usize`, and on a
      slot that extends past the buffer, and then changes nothing. */
  lemma PushRejects(head: U64, tail: U64, capacity: U64, buf: seq<Byte>, e: Event, slotSize: nat)
    ensures capacity == 0 ==> Push(head, tail, capacity, buf, e, slotSize) == Pushed(Err(Panic(DivideByZero)), head, tail, buf)
    ensures capacity > 0 && SlotOffset(tail, capacity, slotSize) + slotSize >= U64_LIMIT ==>
      Push(head, tail, capacity, buf, e, slotSize) == Pushed(Err(Panic(ArithmeticOverflow)), head, tail, buf)
    ensures capacity > 0 && |buf| < SlotOffset(tail, capacity, slotSize) + slotSize < U64_LIMIT ==>
      Push(head, tail, capacity, buf, e, slotSize) == Pushed(Err(Panic(IndexOutOfBounds)), head, tail, buf)
  {
  }

  /** A successful push advances tail by one with wrapping, advances head exactly when the
      queue then holds more than `capacity` entries, and writes the event's encoding into
      its slot and nowhere else, from where it decodes back to the event. */
  lemma PushWritesSlot(head: U64, tail: U64, capacity: U64, buf: seq<Byte>, e: Event, slotSize: nat)
    requires Push(head, tail, capacity, buf, e, slotSize).result.Ok?
    ensures capacity > 0
    ensures var p := Push(head, tail, capacity, buf, e, slotSize);
      var offset := SlotOffset(tail, capacity, slotSize);
      var n := |EncodeEvent(e)|;
      && p.tail == (tail + 1) % U64_LIMIT
      && (p.head == if Occupancy(head, p.tail) > capacity then (head + 1) % U64_LIMIT else head)
      && offset + slotSize <= |buf| && offset + slotSize < U64_LIMIT && n <= slotSize
      && p.buf[offset..offset + n] == EncodeEvent(e)
      && DecodeEvent(p.buf[offset..offset + n]) == Some(e)
      && forall k :: 0 <= k < |buf| && !(offset <= k < offset + n) ==> p.buf[k] == buf[k]
  {
    var offset := SlotOffset(tail, capacity, slotSize);
    WriteAtFrame(buf, offset, EncodeEvent(e));
    EventRoundTrip(e);
  }

  /** When at most `capacity` entries were retained before a successful push, the same holds after it. */
  lemma PushKeepsOccupancyBound(head: U64, tail: U64, capacity: U64, buf: seq<Byte>, e: Event, slotSize: nat)
    requires Occupancy(head, tail) <= capacity
    requires Push(head, tail, capacity, buf, e, slotSize).result.Ok?
    ensures var p := Push(head, tail, capacity, buf, e, slotSize); Occupancy(p.head, p.tail) <= capacity
  {
    AdvanceKeepsBound(head, tail, capacity);
  }

  lemma AdvanceKeepsBound(head: U64, tail: U64, capacity: U64)
    requires Occupancy(head, tail) <= capacity
    ensures var (h, t) := Advance(head, tail, capacity); Occupancy(h, t) <= capacity
  {
    var (h, t) := Advance(head, tail, capacity);
    var o := Occupancy(head, tail);
    if o + 1 < U64_LIMIT {
      assert WrappingSub(t, head) == o + 1;
      if o + 1 > capacity {
        assert Occupancy(h, t) == o;
      }
    } else {
      assert WrappingSub(t, head) == 0;
    }
  }

  // ----- the slot width -----

  /** As written, a `Trade` never fits the sample-sized slot: whenever a push reaches the
      write, it fails and leaves the counters unchanged. */
  lemma TradeOverflowsSourceSlot(head: U64, tail: U64, capacity: U64, buf: seq<Byte>, e: Event)
    requires e.Trade?
    requires capacity > 0 && SlotOffset(tail, capacity, SerializedSize()) + SerializedSize() <= |buf| < U64_LIMIT
    ensures |EncodeEvent(e)| == TRADE_SIZE > SerializedSize()
    ensures var p := Push(head, tail, capacity, buf, e, SerializedSize());
      p.result == Err(BorshIoError) && p.head == head && p.tail == tail
  {
  }

  /** With the maximum-size slot every event fits, so a push into a slot inside a buffer that
      a `usize` can index succeeds. */
  lemma EveryEventFitsSlot(head: U64, tail: U64, capacity: U64, buf: seq<Byte>, e: Event)
    requires capacity > 0 && SlotOffset(tail, capacity, SLOT_SIZE) + SLOT_SIZE <= |buf| < U64_LIMIT
    ensures |EncodeEvent(e)| <= SLOT_SIZE
    ensures Push(head, tail, capacity, buf, e, SLOT_SIZE).result.Ok?
  {
    EventSizes(e);
  }

  // ----- many pushes -----

  /** The counters after `n` successful pushes. */
  function AdvanceN(head: U64, tail: U64, capacity: U64, n: nat): (U64, U64)
    decreases n
  {
    if n == 0 then (head, tail)
    else
      var next := Advance(head, tail, capacity);
      AdvanceN(next.0, next.1, capacity, n - 1)
  }

  lemma ModShift(a: U64, b: nat)
    ensures ((a + 1) % U64_LIMIT + b) % U64_LIMIT == (a + 1 + b) % U64_LIMIT
  {
    if a + 1 == U64_LIMIT {
      assert (U64_LIMIT + b) % U64_LIMIT == b % U64_LIMIT;
    }
  }

  /** After `n` pushes, tail has counted every push, modulo 2^64. */
  lemma {:induction false} AdvanceNTail(head: U64, tail: U64, capacity: U64, n: nat)
    ensures AdvanceN(head, tail, capacity, n).1 == (tail + n) % U64_LIMIT
    decreases n
  {
    if n > 0 {
      var next := Advance(head, tail, capacity);
      AdvanceNTail(next.0, next.1, capacity, n - 1);
      ModShift(tail, n - 1);
    }
  }

  /** One push below `U64_LIMIT - 1` entries: the occupancy grows by one, unless the queue was
      full, in which case head advances and the occupancy stays at `capacity`. */
  lemma AdvanceStep(head: U64, tail: U64, capacity: U64)
    requires capacity < U64_LIMIT - 1
    requires Occupancy(head, tail) <= capacity
    ensures var next := Advance(head, tail, capacity);
      var o := Occupancy(head, tail);
      if o == capacity then next.0 == (head + 1) % U64_LIMIT && Occupancy(next.0, next.1) == o
      else next.0 == head && Occupancy(next.0, next.1) == o + 1
  {
    var o := Occupancy(head, tail);
    var t := WrappingAdd(tail, 1);
    assert WrappingSub(t, head) == o + 1;
  }

  /** After `n` pushes the queue holds `min(o + n, capacity)` entries and head has skipped the dropped ones. */
  lemma {:induction false} AdvanceNHead(head: U64, tail: U64, capacity: U64, n: nat)
    requires capacity < U64_LIMIT - 1
    requires Occupancy(head, tail) <= capacity
    ensures var next := AdvanceN(head, tail, capacity, n);
      var o := Occupancy(head, tail);
      && Occupancy(next.0, next.1) == (if o + n <= capacity then o + n else capacity)
      && next.0 == (if o + n <= capacity then head else (head + (o + n - capacity)) % U64_LIMIT)
    decreases n
  {
    if n > 0 {
      var next := Advance(head, tail, capacity);
      var o := Occupancy(head, tail);
      AdvanceStep(head, tail, capacity);
      AdvanceNHead(next.0, next.1, capacity, n - 1);
      if o == capacity {
        ModShift(head, n - 1);
      }
    }
  }

  /** Pushing `capacity + k` events into an empty queue leaves exactly `capacity` entries: the
      oldest `k` are dropped (head == k) and tail counts every push. */
  lemma FillingDropsOldest(capacity: U64, k: nat)
    requires capacity < U64_LIMIT - 1
    requires capacity + k < U64_LIMIT
    ensures var (h, t) := AdvanceN(0, 0, capacity, capacity + k);
      Occupancy(h, t) == capacity && h == k && t == capacity + k
  {
    AdvanceNTail(0, 0, capacity, capacity + k);
    AdvanceNHead(0, 0, capacity, capacity + k);
  }

  /** Pushes of a sequence of events, stopping at the first failure. */
  function PushAll(head: U64, tail: U64, capacity: U64, buf: seq<Byte>, events: seq<Event>, slotSize: nat): (p: Pushed)
    ensures |p.buf| == |buf|
    decreases |events|
  {
    if events == [] then Pushed(Ok(()), head, tail, buf)
    else
      var p := Push(head, tail, capacity, buf, events[0], slotSize);
      if p.result.Err? then p
      else PushAll(p.head, p.tail, capacity, p.buf, events[1..], slotSize)
  }

  /** With the maximum-size slot, a positive capacity and a region holding `capacity` slots,
      every push succeeds and the counters are those of `|events|` pushes. */
  lemma {:induction false} PushAllSucceeds(head: U64, tail: U64, capacity: U64, buf: seq<Byte>, events: seq<Event>)
    requires 0 < capacity && capacity * SLOT_SIZE <= |buf| < U64_LIMIT
    ensures var p := PushAll(head, tail, capacity, buf, events, SLOT_SIZE);
      p.result.Ok? && (p.head, p.tail) == AdvanceN(head, tail, capacity, |events|)
    decreases |events|
  {
    if events != [] {
      var idx := tail % capacity;
      assert SlotOffset(tail, capacity, SLOT_SIZE) + SLOT_SIZE <= |buf| by {
        assert idx + 1 <= capacity;
        assert (idx + 1) * SLOT_SIZE <= capacity * SLOT_SIZE;
      }
      EveryEventFitsSlot(head, tail, capacity, buf, events[0]);
      var p := Push(head, tail, capacity, buf, events[0], SLOT_SIZE);
      PushAllSucceeds(p.head, p.tail, capacity, p.buf, events[1..]);
    }
  }

  // ----- what the slots retain -----

  /** The slot the `j`-th of a run of pushes starting at `tail` writes to. */
  function SlotOf(tail: U64, j: nat, capacity: U64): nat
    requires capacity > 0
  {
    ((tail + j) % U64_LIMIT) % capacity
  }

  lemma SlotOfFirst(tail: U64, capacity: U64)
    requires capacity > 0
    ensures SlotOf(tail, 0, capacity) == tail % capacity
    ensures SlotOffset(tail, capacity, SLOT_SIZE) == SlotOf(tail, 0, capacity) * SLOT_SIZE
  {
    assert (tail + 0) % U64_LIMIT == tail;
  }

  lemma SlotOfShift(tail: U64, j: nat, capacity: U64)
    requires capacity > 0
    ensures SlotOf((tail + 1) % U64_LIMIT, j, capacity) == SlotOf(tail, j + 1, capacity)
  {
    ModShift(tail, j);
  }

  /** The first push of a run into a region of `capacity` maximum-size slots succeeds: it
      writes the first event into slot `SlotOf(tail, 0, capacity)` and nowhere else, and the
      run goes on from the counters and bytes it leaves. */
  lemma PushAllStep(head: U64, tail: U64, capacity: U64, buf: seq<Byte>, events: seq<Event>)
    returns (head1: U64, tail1: U64, buf1: seq<Byte>)
    requires 0 < capacity && capacity * SLOT_SIZE <= |buf| < U64_LIMIT
    requires events != []
    ensures tail1 == (tail + 1) % U64_LIMIT && |buf1| == |buf|
    ensures PushAll(head, tail, capacity, buf, events, SLOT_SIZE) == PushAll(head1, tail1, capacity, buf1, events[1..], SLOT_SIZE)
    ensures var lo := SlotOf(tail, 0, capacity) * SLOT_SIZE;
      var n := |EncodeEvent(events[0])|;
      && lo + SLOT_SIZE <= |buf| && n <= SLOT_SIZE
      && buf1[lo..lo + n] == EncodeEvent(events[0])
      && forall k :: 0 <= k < |buf| && !(lo <= k < lo + n) ==> buf1[k] == buf[k]
  {
    var idx := tail % capacity;
    SlotOfFirst(tail, capacity);
    assert SlotOffset(tail, capacity, SLOT_SIZE) + SLOT_SIZE <= |buf| by {
      assert (idx + 1) * SLOT_SIZE <= capacity * SLOT_SIZE;
    }
    EveryEventFitsSlot(head, tail, capacity, buf, events[0]);
    PushWritesSlot(head, tail, capacity, buf, events[0], SLOT_SIZE);
    var p := Push(head, tail, capacity, buf, events[0], SLOT_SIZE);
    head1, tail1, buf1 := p.head, p.tail, p.buf;
  }

  /** A write of at most one slot's bytes into slot `idx` leaves every other slot as it was. */
  lemma OtherSlotKept(buf: seq<Byte>, buf1: seq<Byte>, capacity: nat, idx: nat, n: nat, s: nat)
    requires |buf1| == |buf| && capacity * SLOT_SIZE <= |buf|
    requires idx < capacity && s < capacity && idx != s && n <= SLOT_SIZE
    requires forall k :: 0 <= k < |buf| && !(idx * SLOT_SIZE <= k < idx * SLOT_SIZE + n) ==> buf1[k] == buf[k]
    ensures buf1[s * SLOT_SIZE..(s + 1) * SLOT_SIZE] == buf[s * SLOT_SIZE..(s + 1) * SLOT_SIZE]
  {
    assert (s + 1) * SLOT_SIZE <= capacity * SLOT_SIZE;
    if idx < s {
      assert (idx + 1) * SLOT_SIZE <= s * SLOT_SIZE;
    } else {
      assert (s + 1) * SLOT_SIZE <= idx * SLOT_SIZE;
    }
  }

  /** Slot `s` keeps its bytes through a run of pushes none of which writes to it. */
  lemma {:induction false} PushAllKeepsSlot(head: U64, tail: U64, capacity: U64, buf: seq<Byte>,
                                            events: seq<Event>, s: nat)
    requires 0 < capacity && capacity * SLOT_SIZE <= |buf| < U64_LIMIT
    requires s < capacity
    requires forall k :: 0 <= k < |events| ==> SlotOf(tail, k, capacity) != s
    ensures var p := PushAll(head, tail, capacity, buf, events, SLOT_SIZE);
      p.buf[s * SLOT_SIZE..(s + 1) * SLOT_SIZE] == buf[s * SLOT_SIZE..(s + 1) * SLOT_SIZE]
    decreases |events|
  {
    if events != [] {
      var head1, tail1, buf1 := PushAllStep(head, tail, capacity, buf, events);
      assert SlotOf(tail, 0, capacity) != s;
      OtherSlotKept(buf, buf1, capacity, SlotOf(tail, 0, capacity), |EncodeEvent(events[0])|, s);
      forall k | 0 <= k < |events| - 1
        ensures SlotOf(tail1, k, capacity) != s
      {
        SlotOfShift(tail, k, capacity);
        assert SlotOf(tail, k + 1, capacity) != s;
      }
      PushAllKeepsSlot(head1, tail1, capacity, buf1, events[1..], s);
    }
  }

  /** The first event of a run stays in its slot when no later push of the run writes there. */
  lemma PushAllRetainsFirst(head: U64, tail: U64, capacity: U64, buf: seq<Byte>, events: seq<Event>)
    requires 0 < capacity && capacity * SLOT_SIZE <= |buf| < U64_LIMIT
    requires events != []
    requires forall k :: 0 < k < |events| ==> SlotOf(tail, k, capacity) != SlotOf(tail, 0, capacity)
    ensures var p := PushAll(head, tail, capacity, buf, events, SLOT_SIZE);
      var lo := SlotOf(tail, 0, capacity) * SLOT_SIZE;
      var n := |EncodeEvent(events[0])|;
      lo + n <= |p.buf| && p.buf[lo..lo + n] == EncodeEvent(events[0])
  {
    var idx := SlotOf(tail, 0, capacity);
    var head1, tail1, buf1 := PushAllStep(head, tail, capacity, buf, events);
    forall k | 0 <= k < |events| - 1
      ensures SlotOf(tail1, k, capacity) != idx
    {
      SlotOfShift(tail, k, capacity);
      assert SlotOf(tail, k + 1, capacity) != idx;
    }
    PushAllKeepsSlot(head1, tail1, capacity, buf1, events[1..], idx);
    var rest := PushAll(head1, tail1, capacity, buf1, events[1..], SLOT_SIZE);
    assert (idx + 1) * SLOT_SIZE <= capacity * SLOT_SIZE;
    SamePrefix(rest.buf, buf1, idx * SLOT_SIZE, |EncodeEvent(events[0])|, SLOT_SIZE);
  }

  lemma SamePrefix(a: seq<Byte>, b: seq<Byte>, lo: nat, n: nat, m: nat)
    requires n <= m && lo + m <= |a| && lo + m <= |b|
    requires a[lo..lo + m] == b[lo..lo + m]
    ensures a[lo..lo + n] == b[lo..lo + n]
  {
    assert a[lo..lo + n] == a[lo..lo + m][..n];
    assert b[lo..lo + n] == b[lo..lo + m][..n];
  }

  /** Slot distinctness for the pushes after `j`, restated for the run that starts one push later. */
  lemma ShiftedSlotsDistinct(tail: U64, tail1: U64, capacity: U64, m: nat, j: nat)
    requires capacity > 0 && 0 < j && tail1 == (tail + 1) % U64_LIMIT
    requires forall k :: j < k < m ==> SlotOf(tail, k, capacity) != SlotOf(tail, j, capacity)
    ensures forall k :: j - 1 < k < m - 1 ==> SlotOf(tail1, k, capacity) != SlotOf(tail1, j - 1, capacity)
  {
    forall k | j - 1 < k < m - 1
      ensures SlotOf(tail1, k, capacity) != SlotOf(tail1, j - 1, capacity)
    {
      SlotOfShift(tail, k, capacity);
      SlotOfShift(tail, j - 1, capacity);
      assert SlotOf(tail, k + 1, capacity) != SlotOf(tail, j, capacity);
    }
  }

  /** The step of `PushAllRetains`: what the run after the first push retains, the whole run retains. */
  lemma RetainedThroughFirst(head: U64, tail: U64, capacity: U64, buf: seq<Byte>, events: seq<Event>, j: nat,
                             head1: U64, tail1: U64, buf1: seq<Byte>)
    requires 0 < capacity && 0 < j < |events|
    requires tail1 == (tail + 1) % U64_LIMIT
    requires PushAll(head, tail, capacity, buf, events, SLOT_SIZE) == PushAll(head1, tail1, capacity, buf1, events[1..], SLOT_SIZE)
    requires var p := PushAll(head1, tail1, capacity, buf1, events[1..], SLOT_SIZE);
      var offset := SlotOf(tail1, j - 1, capacity) * SLOT_SIZE;
      var n := |EncodeEvent(events[1..][j - 1])|;
      && offset + n <= |p.buf|
      && p.buf[offset..offset + n] == EncodeEvent(events[1..][j - 1])
    ensures var p := PushAll(head, tail, capacity, buf, events, SLOT_SIZE);
      var offset := SlotOf(tail, j, capacity) * SLOT_SIZE;
      var n := |EncodeEvent(events[j])|;
      && offset + n <= |p.buf|
      && p.buf[offset..offset + n] == EncodeEvent(events[j])
  {
    SlotOfShift(tail, j - 1, capacity);
    assert events[1..][j - 1] == events[j];
  }

  /** After a run of pushes, the `j`-th event's encoding is still in its slot when no later
      push of the run writes to the same slot. */
  lemma {:induction false} PushAllRetains(head: U64, tail: U64, capacity: U64, buf: seq<Byte>,
                                          events: seq<Event>, j: nat)
    requires 0 < capacity && capacity * SLOT_SIZE <= |buf| < U64_LIMIT
    requires j < |events|
    requires forall k :: j < k < |events| ==> SlotOf(tail, k, capacity) != SlotOf(tail, j, capacity)
    ensures var p := PushAll(head, tail, capacity, buf, events, SLOT_SIZE);
      var offset := SlotOf(tail, j, capacity) * SLOT_SIZE;
      var n := |EncodeEvent(events[j])|;
      && offset + n <= |p.buf|
      && p.buf[offset..offset + n] == EncodeEvent(events[j])
    decreases j
  {
    if j == 0 {
      PushAllRetainsFirst(head, tail, capacity, buf, events);
    } else {
      var head1, tail1, buf1 := PushAllStep(head, tail, capacity, buf, events);
      ShiftedSlotsDistinct(tail, tail1, capacity, |events|, j);
      PushAllRetains(head1, tail1, capacity, buf1, events[1..], j - 1);
      RetainedThroughFirst(head, tail, capacity, buf, events, j, head1, tail1, buf1);
    }
  }

  /** `a` and `b` fall into different slots when `a < b < a + c`. */
  lemma ModDistinct(a: nat, b: nat, c: nat)
    requires a < b < a + c
    ensures b % c != a % c
  {
    var q := a / c;
    var r := a % c;
    var d := b - a;
    if r + d < c {
      assert b == q * c + (r + d);
      ModUnique(b, c, q, r + d);
    } else {
      assert b == (q + 1) * c + (r + d - c);
      ModUnique(b, c, q + 1, r + d - c);
    }
  }

  /** Euclidean division has one remainder. */
  lemma ModUnique(x: nat, c: nat, q: nat, r: nat)
    requires 0 <= r < c && x == q * c + r
    ensures x % c == r
  {
    var q' := x / c;
    var r' := x % c;
    assert q' * c + r' == q * c + r;
    if q' > q {
      assert (q' - q) * c == r - r';
      MulAtLeast(q' - q, c);
    } else if q' < q {
      assert (q - q') * c == r' - r;
      MulAtLeast(q - q', c);
    }
  }

  lemma MulAtLeast(k: nat, c: nat)
    requires k >= 1
    ensures k * c >= c
  {
  }

  lemma SlotOfNoWrap(tail: U64, j: nat, capacity: U64)
    requires capacity > 0 && tail + j < U64_LIMIT
    ensures SlotOf(tail, j, capacity) == (tail + j) % capacity
  {
    assert (tail + j) % U64_LIMIT == tail + j;
  }

  /** Without a wrap, the last `capacity` pushes of a run of `m` write distinct slots. */
  lemma NoWrapSlotsDistinct(tail: U64, capacity: U64, m: nat, j: nat)
    requires capacity > 0 && tail + m <= U64_LIMIT
    requires j < m && m - capacity <= j
    ensures forall k :: j < k < m ==> SlotOf(tail, k, capacity) != SlotOf(tail, j, capacity)
  {
    forall k | j < k < m
      ensures SlotOf(tail, k, capacity) != SlotOf(tail, j, capacity)
    {
      NoWrapPairDistinct(tail, capacity, j, k);
    }
  }

  lemma NoWrapPairDistinct(tail: U64, capacity: U64, j: nat, k: nat)
    requires capacity > 0 && tail + k < U64_LIMIT && j < k < j + capacity
    ensures SlotOf(tail, k, capacity) != SlotOf(tail, j, capacity)
  {
    SlotOfNoWrap(tail, j, capacity);
    SlotOfNoWrap(tail, k, capacity);
    ModDistinct(tail + j, tail + k, capacity);
  }

  /** When the run does not wrap tail past 2^64, each of the newest `capacity` events is
      retained: it sits in slot `(tail + j) % capacity` and decodes from there. */
  lemma NewestRetained(head: U64, tail: U64, capacity: U64, buf: seq<Byte>, events: seq<Event>, j: nat)
    requires 0 < capacity && capacity * SLOT_SIZE <= |buf| < U64_LIMIT
    requires tail + |events| <= U64_LIMIT
    requires j < |events| && |events| - capacity <= j
    ensures var p := PushAll(head, tail, capacity, buf, events, SLOT_SIZE);
      var offset := ((tail + j) % capacity) * SLOT_SIZE;
      var n := |EncodeEvent(events[j])|;
      offset + n <= |p.buf| && DecodeEvent(p.buf[offset..offset + n]) == Some(events[j])
  {
    SlotOfNoWrap(tail, j, capacity);
    NoWrapSlotsDistinct(tail, capacity, |events|, j);
    PushAllRetains(head, tail, capacity, buf, events, j);
    EventRoundTrip(events[j]);
  }

  /** Once tail wraps, two consecutive pushes can share a slot: with capacity 3, the push at
      tail 2^64 - 1 and the next one both write slot 0, though both still count as retained. */
  lemma WrapSharesSlot()
    ensures SlotOf(U64_LIMIT - 1, 0, 3) == 0 && SlotOf(U64_LIMIT - 1, 1, 3) == 0
    ensures Occupancy(U64_LIMIT - 1, AdvanceN(U64_LIMIT - 1, U64_LIMIT - 1, 3, 2).1) == 2
  {
    AdvanceNTail(U64_LIMIT - 1, U64_LIMIT - 1, 3, 2);
  }
}
