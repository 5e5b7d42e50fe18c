/** The capture queue (FrameQueue.cs): a circular buffer of BufferedFrame slots that
  * overwrites its oldest frame when full. The slots are allocated once and reused;
  * the queue only moves its start, end and count over them. */
module FrameQueues {
  import opened Wrappers
  import opened Arithmetic
  import opened BufferedFrames

  /** The allocation function the queue is given: it makes a BufferedFrame for one video
    * format, so it is known by the buffer dimensions of that format. */
  datatype FrameAllocator = FrameAllocator(byteWidth: int, byteHeight: int)

  /** The ring position SetCapacity moves into new slot i. */
  function KeptIndex(length: int, start: int, count: int, capacity: int, i: int): int
    requires length > 0 && capacity > 0
  {
    (start + count - Min(count, capacity) + i) % length
  }

  /** The old slots SetCapacity keeps, in their new order: the queue position
    * count - min(count, capacity) comes first, so the newest frames that fit stay in the
    * queue, oldest first; the rest of the ring follows. */
  function KeptSlots<T>(slots: seq<T>, start: int, count: int, capacity: int): (kept: seq<T>)
    requires |slots| > 0 && capacity > 0
  {
    seq(Min(|slots|, capacity), i requires 0 <= i < Min(|slots|, capacity) => slots[KeptIndex(|slots|, start, count, capacity, i)])
  }

  /** The old slots SetCapacity keeps as written: new slot i takes ring position
    * (length - 1) - i counted from start, whether or not that position holds a frame. */
  function KeptSlotsAsWritten<T>(slots: seq<T>, start: int, capacity: int): (kept: seq<T>)
    requires |slots| > 0 && capacity > 0
  {
    seq(Min(|slots|, capacity), i requires 0 <= i < Min(|slots|, capacity) => slots[(start + (|slots| - 1 - i)) % |slots|])
  }

  /** The frames of a ring of slots in queue order: `count` positions from `start`. */
  function QueueOrder<T>(slots: seq<T>, start: int, count: int): (q: seq<T>)
    requires 0 <= start && 0 <= count && |slots| > 0
  {
    seq(count, i requires 0 <= i < count => slots[(start + i) % |slots|])
  }

  /** The corrected SetCapacity keeps the newest min(count, capacity) frames, in queue
    * order, at the front of the new ring, and moves each old slot at most once. */
  lemma {:induction false} KeptSlotsKeepNewest<T>(slots: seq<T>, start: int, count: int, capacity: int)
    requires 0 <= start < |slots| && 0 <= count <= |slots| && capacity > 0
    ensures var k := Min(count, capacity);
      QueueOrder(KeptSlots(slots, start, count, capacity), 0, k) == QueueOrder(slots, start, count)[count - k..]
    ensures (forall i, j :: 0 <= i < j < |slots| ==> slots[i] != slots[j]) ==>
      forall i, j :: 0 <= i < j < Min(|slots|, capacity) ==>
        KeptSlots(slots, start, count, capacity)[i] != KeptSlots(slots, start, count, capacity)[j]
  {
    var k := Min(count, capacity);
    var kept := KeptSlots(slots, start, count, capacity);
    forall i | 0 <= i < k
      ensures QueueOrder(kept, 0, k)[i] == QueueOrder(slots, start, count)[count - k + i]
    {
      ModSmall(i, |kept|);
    }
    forall i, j | 0 <= i < j < Min(|slots|, capacity)
      ensures KeptIndex(|slots|, start, count, capacity, i) != KeptIndex(|slots|, start, count, capacity, j)
    {
      ModInjective(start + count - k, i, j, |slots|);
    }
  }

  /** A slot the corrected SetCapacity drops is not among the slots it keeps, when no
    * slot occurs twice. */
  lemma DroppedSlotLeaves<T>(slots: seq<T>, start: int, count: int, capacity: int, i: int)
    requires 0 <= count <= |slots| && capacity > 0 && capacity <= i < |slots|
    requires forall a, b :: 0 <= a < b < |slots| ==> slots[a] != slots[b]
    ensures slots[KeptIndex(|slots|, start, count, capacity, i)] !in KeptSlots(slots, start, count, capacity)
  {
    var kept := KeptSlots(slots, start, count, capacity);
    forall j | 0 <= j < |kept|
      ensures kept[j] != slots[KeptIndex(|slots|, start, count, capacity, i)]
    {
      ModInjective(start + count - Min(count, capacity), j, i, |slots|);
    }
  }

  /** As written, a queue holding two frames A, B in a ring of four slots whose other
    * two slots hold stale frames X, Y comes out of SetCapacity(3) holding Y, X: both
    * queued frames are gone, and the two stale ones are queued newest-first. The
    * corrected order keeps A, B. */
  lemma SetCapacityAsWrittenLosesFrames()
    ensures QueueOrder(['A', 'B', 'X', 'Y'], 0, 2) == ['A', 'B']
    ensures QueueOrder(KeptSlotsAsWritten(['A', 'B', 'X', 'Y'], 0, 3), 0, 2) == ['Y', 'X']
    ensures QueueOrder(KeptSlots(['A', 'B', 'X', 'Y'], 0, 2, 3), 0, 2) == ['A', 'B']
  {
    var slots := ['A', 'B', 'X', 'Y'];
    var asWritten := KeptSlotsAsWritten(slots, 0, 3);
    assert asWritten[0] == slots[3] && asWritten[1] == slots[2];
    var kept := KeptSlots(slots, 0, 2, 3);
    assert kept[0] == slots[0] && kept[1] == slots[1];
  }

  /** As written, even a full queue comes out reversed: the newest frame is put first. */
  lemma {:induction false} AsWrittenReversesFullQueue<T>(slots: seq<T>, start: int, capacity: int)
    requires 0 <= start < |slots| && capacity > 0
    ensures var k := Min(|slots|, capacity);
      forall i :: 0 <= i < k ==>
        QueueOrder(KeptSlotsAsWritten(slots, start, capacity), 0, k)[i] == QueueOrder(slots, start, |slots|)[|slots| - 1 - i]
  {
    var k := Min(|slots|, capacity);
    forall i | 0 <= i < k
      ensures QueueOrder(KeptSlotsAsWritten(slots, start, capacity), 0, k)[i] == QueueOrder(slots, start, |slots|)[|slots| - 1 - i]
    {
      ModSmall(i, k);
    }
  }

  /** A queue with room grows at the back by the slot just past its last frame, and
    * that slot is not already queued when no slot occurs twice. */
  lemma {:induction false} QueueOrderGrows<T>(slots: seq<T>, start: int, count: int)
    requires 0 <= start < |slots| && 0 <= count < |slots|
    ensures QueueOrder(slots, start, count + 1) == QueueOrder(slots, start, count) + [slots[(start + count) % |slots|]]
    ensures (forall a, b :: 0 <= a < b < |slots| ==> slots[a] != slots[b]) ==>
      slots[(start + count) % |slots|] !in QueueOrder(slots, start, count)
  {
    var q := QueueOrder(slots, start, count);
    forall i | 0 <= i < count
      ensures q[i] != slots[(start + count) % |slots|] || exists a, b :: 0 <= a < b < |slots| && slots[a] == slots[b]
    {
      ModInjective(start, i, count, |slots|);
    }
  }

  /** A full queue that moves its start one slot on holds the same frames, the oldest
    * now last. */
  lemma {:induction false} QueueOrderRotates<T>(slots: seq<T>, start: int)
    requires 0 <= start < |slots|
    ensures QueueOrder(slots, (start + 1) % |slots|, |slots|) == QueueOrder(slots, start, |slots|)[1..] + [slots[start]]
  {
    var n := |slots|;
    var q := QueueOrder(slots, start, n);
    var r := QueueOrder(slots, (start + 1) % n, n);
    var rotated := q[1..] + [slots[start]];
    forall i | 0 <= i < n
      ensures r[i] == rotated[i]
    {
      ModOfSum(start + 1, i, n);
      assert r[i] == slots[(start + 1 + i) % n];
      if i == n - 1 {
        ModPeriod(start, 1, n);
        ModSmall(start, n);
        assert (start + 1 + i) % n == start;
      } else {
        assert rotated[i] == q[i + 1];
      }
    }
  }

  /** The prefix of a ring that starts at slot 0 is its queue, whatever the ring's length. */
  lemma {:induction false} QueueOrderOfPrefix<T>(slots: seq<T>, prefix: seq<T>, count: int)
    requires 0 <= count <= |prefix| <= |slots| && 0 < |prefix| && slots[..|prefix|] == prefix
    ensures QueueOrder(slots, 0, count) == QueueOrder(prefix, 0, count)
  {
    forall i | 0 <= i < count
      ensures QueueOrder(slots, 0, count)[i] == QueueOrder(prefix, 0, count)[i]
    {
      ModSmall(i, |slots|);
      ModSmall(i, |prefix|);
      assert slots[..|prefix|][i] == slots[i];
    }
  }

  class FrameQueue {
    const allocator: FrameAllocator
    /** The ring of slots; the array is never written once SetCapacity has filled it,
      * so it is a sequence here. */
    var slots: seq<BufferedFrame>
    var start: int
    var end: int
    var count: int
    ghost var Repr: set<object>

    /** The ring invariant: Count within Capacity, start and end inside the ring and
      * end == (start + Count) mod Capacity; every slot holds its own valid frame. */
    ghost predicate Valid()
      reads this, Repr
    {
      this in Repr
      && allocator.byteWidth * allocator.byteHeight >= 0
      && 0 < |slots|
      && 0 <= start < |slots| && 0 <= end < |slots|
      && 0 <= count <= |slots|
      && end == (start + count) % |slots|
      && (forall i :: 0 <= i < |slots| ==> slots[i] in Repr && slots[i].Valid())
      && (forall i, j :: 0 <= i < j < |slots| ==> slots[i] != slots[j])
    }

    function Capacity(): int
      reads this
    {
      |slots|
    }

    /** The queued frames, oldest (Front) first: what the enumerator yields. */
    function Contents(): seq<BufferedFrame>
      reads this
      requires 0 <= start < |slots| && 0 <= count
    {
      QueueOrder(slots, start, count)
    }

    /** The constructor with a present allocator and a positive capacity: SetCapacity on
      * a queue without slots allocates `capacity` new frames, and the queue is empty. */
    constructor(capacity: int, allocator: FrameAllocator)
      requires capacity > 0 && allocator.byteWidth * allocator.byteHeight >= 0
      ensures Valid() && fresh(Repr)
      ensures this.allocator == allocator && |slots| == capacity
      ensures count == 0 && Contents() == [] && start == 0 && end == 0
      ensures forall i :: 0 <= i < capacity ==> slots[i].status == Uninitialized
    {
      this.allocator := allocator;
      var ring: seq<BufferedFrame> := [];
      ghost var frames: set<object> := {};
      while |ring| < capacity
        invariant |ring| <= capacity
        invariant fresh(frames)
        invariant forall k :: 0 <= k < |ring| ==> ring[k] in frames && ring[k].Valid() && ring[k].status == Uninitialized
        invariant forall k, l :: 0 <= k < l < |ring| ==> ring[k] != ring[l]
      {
        var frame := new BufferedFrame(allocator.byteWidth, allocator.byteHeight);
        ring := ring + [frame];
        frames := frames + {frame};
      }
      slots := ring;
      start := 0;
      end := 0;
      count := 0;
      new;
      Repr := {this} + frames;
    }

    /** The constructor's argument checks: a missing allocator, then a capacity that is
      * not positive. */
    static method Create(capacity: int, allocator: Option<FrameAllocator>) returns (r: Result<FrameQueue>)
      requires allocator.Some? ==> allocator.value.byteWidth * allocator.value.byteHeight >= 0
      ensures allocator.None? ==> r == Failure(ArgumentNull)
      ensures allocator.Some? && capacity <= 0 ==> r == Failure(ArgumentOutOfRange)
      ensures r.Success? <==> allocator.Some? && capacity > 0
      ensures r.Success? ==>
        r.value.Valid() && fresh(r.value.Repr) && r.value.Capacity() == capacity && r.value.Contents() == []
    {
      if allocator.None? {
        return Failure(ArgumentNull);
      }
      if capacity <= 0 {
        return Failure(ArgumentOutOfRange);
      }
      var queue := new FrameQueue(capacity, allocator.value);
      return Success(queue);
    }

    /** The indexer: logical index 0 is the oldest frame. */
    method Get(index: int) returns (r: Result<BufferedFrame>)
      requires Valid()
      ensures count == 0 ==> r == Failure(InvalidOperation)
      ensures count > 0 && !(0 <= index < count) ==> r == Failure(IndexOutOfRange)
      ensures 0 <= index < count ==> r == Success(Contents()[index])
    {
      if count == 0 {
        return Failure(InvalidOperation);
      }
      if index < 0 || index >= count {
        return Failure(IndexOutOfRange);
      }
      return Success(slots[(start + index) % |slots|]);
    }

    /** Front is the oldest queued frame, logical index 0. */
    method Front() returns (r: Result<BufferedFrame>)
      requires Valid()
      ensures count == 0 <==> r == Failure(InvalidOperation)
      ensures count > 0 ==> r == Success(Contents()[0])
    {
      if count == 0 {
        return Failure(InvalidOperation);
      }
      ModSmall(start, |slots|);
      return Success(slots[start]);
    }

    /** Back is the newest queued frame, logical index Count - 1: the slot before end. */
    method Back() returns (r: Result<BufferedFrame>)
      requires Valid()
      ensures count == 0 <==> r == Failure(InvalidOperation)
      ensures count > 0 ==> r == Success(Contents()[count - 1])
    {
      if count == 0 {
        return Failure(InvalidOperation);
      }
      var n := |slots|;
      calc {
        (n + end - 1) % n;
        ((start + count) % n + (n - 1)) % n;
        { ModOfSum(start + count, n - 1, n); }
        (start + count - 1 + 1 * n) % n;
        { ModPeriod(start + count - 1, 1, n); }
        (start + (count - 1)) % n;
      }
      return Success(slots[(n + end - 1) % n]);
    }

    /** Enqueue hands back the slot just past the back for the caller to fill. On a
      * queue with room it grows by one, and the slot was not queued; on a full queue
      * (the result true) the slot is the oldest frame, which moves to the back, so the
      * next-oldest becomes Front. */
    method Enqueue() returns (overwrote: bool, item: BufferedFrame)
      requires Valid()
      modifies this
      ensures Valid() && slots == old(slots) && Repr == old(Repr)
      ensures item == slots[old(end)]
      ensures overwrote <==> old(count) == |slots|
      ensures !overwrote ==>
        count == old(count) + 1 && item !in old(Contents()) && Contents() == old(Contents()) + [item]
      ensures overwrote ==>
        count == old(count) && item == old(Contents()[0]) && Contents() == old(Contents()[1..]) + [item]
    {
      var n := |slots|;
      item := slots[end];
      var next := (end + 1) % n;
      ModOfSum(start + count, 1, n);
      if count < n {
        QueueOrderGrows(slots, start, count);
        end := next;
        count := count + 1;
        overwrote := false;
      } else {
        ModPeriod(start, 1, n);
        ModSmall(start, n);
        QueueOrderRotates(slots, start);
        ModPeriod(next, 1, n);
        ModSmall(next, n);
        start := next;
        end := next;
        overwrote := true;
      }
    }

    /** Clear empties the queue and resets the indices; the slots stay allocated. */
    method Clear()
      requires Valid()
      modifies this
      ensures Valid() && slots == old(slots) && Repr == old(Repr)
      ensures count == 0 && start == 0 && end == 0 && Contents() == []
    {
      start := 0;
      end := 0;
      count := 0;
    }

    /** Dispose disposes every slot's frame, queued or not, so each frame's buffers are
      * freed exactly once. */
    method Dispose()
      requires Valid()
      modifies slots
      ensures Valid()
      ensures forall i :: 0 <= i < |slots| ==>
        !slots[i].textureCreated && !slots[i].audioCreated
        && slots[i].textureFrees == 1 && slots[i].audioFrees == 1
    {
      var i := 0;
      while i < |slots|
        invariant 0 <= i <= |slots|
        invariant forall k :: 0 <= k < |slots| ==> slots[k].Valid()
        invariant forall k :: 0 <= k < i ==> !slots[k].textureCreated && !slots[k].audioCreated
      {
        slots[i].Dispose();
        i := i + 1;
      }
    }

    /** SetCapacity: a capacity that is not positive is refused and the same capacity
      * changes nothing. Otherwise the old slots move into a new ring in the order
      * KeptSlots gives, so the newest min(Count, capacity) frames stay queued, oldest
      * first; the slots that do not fit are disposed and leave the ring, the missing
      * ones are allocated, and the queue starts at slot 0. */
    method SetCapacity(capacity: int) returns (fault: Option<Fault>)
      requires Valid()
      modifies Repr
      ensures Valid() && fresh(Repr - old(Repr))
      ensures fault.Some? <==> capacity <= 0
      ensures fault.Some? ==> fault.value == ArgumentOutOfRange
      ensures capacity <= 0 || capacity == old(|slots|) ==> Repr == old(Repr) && unchanged(old(Repr))
      ensures capacity > 0 && capacity != old(|slots|) ==>
        |slots| == capacity && start == 0 && count == Min(old(count), capacity)
        && Contents() == old(Contents())[old(count) - count..]
        && slots[..Min(old(|slots|), capacity)] == KeptSlots(old(slots), old(start), old(count), capacity)
      ensures capacity > 0 && capacity != old(|slots|) ==>
        forall i :: old(|slots|) <= i < capacity ==> fresh(slots[i]) && slots[i].status == Uninitialized
      ensures capacity > 0 && capacity != old(|slots|) ==>
        forall i :: capacity <= i < old(|slots|) ==>
          var frame := old(slots)[KeptIndex(old(|slots|), old(start), old(count), capacity, i)];
          frame !in slots && !frame.textureCreated && !frame.audioCreated
    {
      if capacity <= 0 {
        return Some(ArgumentOutOfRange);
      }
      if capacity == |slots| {
        return None;
      }
      ghost var n, oldSlots, oldStart, oldCount := |slots|, slots, start, count;
      Resize(capacity);
      if capacity < n {
        assert slots == slots[..Min(n, capacity)];
        forall i | capacity <= i < n
          ensures oldSlots[KeptIndex(n, oldStart, oldCount, capacity, i)] !in slots
        {
          DroppedSlotLeaves(oldSlots, oldStart, oldCount, capacity, i);
        }
      }
      fault := None;
    }

    /** SetCapacity for a new, positive capacity. */
    method Resize(capacity: int)
      requires Valid() && capacity > 0 && capacity != |slots|
      modifies Repr
      ensures Valid() && fresh(Repr - old(Repr))
      ensures |slots| == capacity && start == 0 && count == Min(old(count), capacity)
      ensures Contents() == old(Contents())[old(count) - count..]
      ensures slots[..Min(old(|slots|), capacity)] == KeptSlots(old(slots), old(start), old(count), capacity)
      ensures forall i :: old(|slots|) <= i < capacity ==> fresh(slots[i]) && slots[i].status == Uninitialized
      ensures forall i :: capacity <= i < old(|slots|) ==>
        var frame := old(slots)[KeptIndex(old(|slots|), old(start), old(count), capacity, i)];
        !frame.textureCreated && !frame.audioCreated
    {
      var k := Min(count, capacity);
      var ring, frames := NewRing(capacity);
      slots := ring;
      start := 0;
      end := k % capacity;
      count := k;
      Repr := Repr + frames;
    }

    /** The slots SetCapacity ends with: the kept old slots in KeptSlots order, then new
      * frames up to the capacity; the newest queued frames come first. */
    method NewRing(capacity: int) returns (ring: seq<BufferedFrame>, ghost frames: set<object>)
      requires Valid() && capacity > 0
      modifies slots
      ensures Valid() && fresh(frames) && |ring| == capacity
      ensures QueueOrder(ring, 0, Min(count, capacity)) == Contents()[count - Min(count, capacity)..]
      ensures ring[..Min(|slots|, capacity)] == KeptSlots(slots, start, count, capacity)
      ensures forall i :: 0 <= i < |ring| ==> ring[i] in Repr + frames && ring[i].Valid()
      ensures forall i :: |slots| <= i < capacity ==> fresh(ring[i]) && ring[i].status == Uninitialized
      ensures forall i, j :: 0 <= i < j < |ring| ==> ring[i] != ring[j]
      ensures forall i :: capacity <= i < |slots| ==>
        var frame := slots[KeptIndex(|slots|, start, count, capacity, i)];
        !frame.textureCreated && !frame.audioCreated
    {
      var n, k := |slots|, Min(count, capacity);
      var kept := MoveSlots(capacity);
      var added;
      added, frames := AllocateSlots(capacity - |kept|);
      KeptSlotsKeepNewest(slots, start, count, capacity);
      ring := kept + added;
      QueueOrderOfPrefix(ring, kept, k);
      assert ring[..Min(n, capacity)] == kept;
      forall i | 0 <= i < |ring|
        ensures ring[i] in Repr + frames && ring[i].Valid()
        ensures i >= |kept| ==> ring[i] == added[i - |kept|] && fresh(ring[i])
        ensures i < |kept| ==> ring[i] in old(Repr)
      {
      }
      forall i, j | 0 <= i < j < |ring|
        ensures ring[i] != ring[j]
      {
        if j < |kept| {
          assert kept[i] != kept[j];
        }
      }
    }

    /** The first loop of SetCapacity: the old slots in KeptSlots order, up to the new
      * capacity; the old slots that do not fit are disposed. */
    method MoveSlots(capacity: int) returns (kept: seq<BufferedFrame>)
      requires Valid() && capacity > 0
      modifies slots
      ensures Valid() && kept == KeptSlots(slots, start, count, capacity)
      ensures forall i :: capacity <= i < |slots| ==>
        var frame := slots[KeptIndex(|slots|, start, count, capacity, i)];
        !frame.textureCreated && !frame.audioCreated
    {
      var n := |slots|;
      kept := [];
      var i := 0;
      while i < n
        invariant 0 <= i <= n
        invariant forall j :: 0 <= j < n ==> slots[j].Valid()
        invariant kept == KeptSlots(slots, start, count, capacity)[..Min(i, capacity)]
        invariant forall j :: capacity <= j < i ==>
          !slots[KeptIndex(n, start, count, capacity, j)].textureCreated
          && !slots[KeptIndex(n, start, count, capacity, j)].audioCreated
      {
        var item := slots[KeptIndex(n, start, count, capacity, i)];
        if i < capacity {
          kept := kept + [item];
        } else {
          item.Dispose();
        }
        i := i + 1;
      }
    }

    /** The second loop of SetCapacity: `number` newly allocated frames. */
    method AllocateSlots(number: int) returns (added: seq<BufferedFrame>, ghost frames: set<object>)
      requires allocator.byteWidth * allocator.byteHeight >= 0
      ensures fresh(frames) && forall i :: 0 <= i < |added| ==> added[i] in frames
      ensures |added| == if number < 0 then 0 else number
      ensures forall i :: 0 <= i < |added| ==> fresh(added[i]) && added[i].Valid() && added[i].status == Uninitialized
      ensures forall i, j :: 0 <= i < j < |added| ==> added[i] != added[j]
    {
      added, frames := [], {};
      while |added| < number
        invariant |added| == 0 || |added| <= number
        invariant fresh(frames) && forall k :: 0 <= k < |added| ==> added[k] in frames
        invariant forall k :: 0 <= k < |added| ==> fresh(added[k]) && added[k].Valid() && added[k].status == Uninitialized
        invariant forall k, l :: 0 <= k < l < |added| ==> added[k] != added[l]
      {
        var frame := new BufferedFrame(allocator.byteWidth, allocator.byteHeight);
        added := added + [frame];
        frames := frames + {frame};
      }
    }
  }
}
