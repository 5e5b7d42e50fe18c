/** The audio sample queue of BufferUtilities.cs (SimpleRingBuffer): a fixed array of
  * samples with a read counter and a write counter; the offsets into the array are the
  * counters modulo the capacity. Samples are only copied, never computed upon, so a
  * sample is a `real` here. */
module RingBuffers {
  import opened Wrappers
  import opened Arithmetic

  /** Where sample `j` after counter `c` lands in a ring of `capacity` slots: straight
    * after the counter's offset, or wrapped to the start of the array. */
  lemma RingPosition(c: int, j: int, capacity: int)
    requires capacity > 0 && 0 <= j < capacity
    ensures (c + j) % capacity ==
      if c % capacity + j < capacity then c % capacity + j else c % capacity + j - capacity
  {
    ModOfSum(c, j, capacity);
    if c % capacity + j >= capacity {
      ModPeriod(c % capacity + j - capacity, 1, capacity);
      ModSmall(c % capacity + j - capacity, capacity);
    } else {
      ModSmall(c % capacity + j, capacity);
    }
  }

  /** Array.Copy of `length` samples from src[srcStart..] to dst[dstStart..]. */
  method CopySamples(src: seq<real>, srcStart: int, dst: array<real>, dstStart: int, length: int)
    requires 0 <= srcStart && 0 <= dstStart && 0 <= length
    requires srcStart + length <= |src| && dstStart + length <= dst.Length
    modifies dst
    ensures forall k :: dstStart <= k < dstStart + length ==> dst[k] == src[srcStart + (k - dstStart)]
    ensures forall k :: 0 <= k < dst.Length && !(dstStart <= k < dstStart + length) ==> dst[k] == old(dst[k])
  {
    var j := 0;
    while j < length
      invariant 0 <= j <= length
      invariant forall k :: dstStart <= k < dstStart + j ==> dst[k] == src[srcStart + (k - dstStart)]
      invariant forall k :: 0 <= k < dst.Length && !(dstStart <= k < dstStart + j) ==> dst[k] == old(dst[k])
    {
      dst[dstStart + j] := src[srcStart + j];
      j := j + 1;
    }
  }

  class SimpleRingBuffer {
    var capacity: int
    var isReady: bool
    var readCount: int
    var writeCount: int
    var buffer: array<real>
    /** The samples written and not yet read, oldest first. */
    ghost var contents: seq<real>

    /** The counters never cross: between 0 and Capacity samples are waiting, and they
      * sit in the array from the read offset on, wrapping around. */
    ghost predicate Valid()
      reads this, buffer
    {
      capacity == buffer.Length
      && 0 <= readCount <= writeCount <= readCount + capacity
      && |contents| == writeCount - readCount
      && (capacity > 0 ==> forall i :: 0 <= i < |contents| ==> contents[i] == buffer[(readCount + i) % capacity])
    }

    /** The number of samples waiting: the write counter less the read counter. */
    function FillCount(): int
      reads this
    {
      writeCount - readCount
    }

    function FreeCount(): int
      reads this
    {
      capacity - FillCount()
    }

    /** The constructor allocates `capacity` samples; nothing is waiting yet. */
    constructor(capacity: nat)
      ensures Valid() && fresh(buffer) && this.capacity == capacity
      ensures contents == [] && !isReady && FillCount() == 0 && FreeCount() == capacity
    {
      this.capacity := capacity;
      isReady := false;
      readCount := 0;
      writeCount := 0;
      buffer := new real[capacity];
      contents := [];
    }

    /** Write: more samples than FreeCount are refused with 0 and nothing changes.
      * Otherwise the first `count` samples of the source are appended to the queue,
      * copied in two parts when they reach the end of the array, and IsReady is set once
      * anything is waiting. A zero capacity divides by zero, and a negative count is
      * refused by the array copy. */
    method Write(source: seq<real>, count: int) returns (r: Result<int>)
      requires Valid() && count <= |source|
      modifies this, buffer
      ensures Valid() && buffer == old(buffer) && capacity == old(capacity)
      ensures count > old(FreeCount()) ==> r == Success(0) && unchanged(this, buffer)
      ensures count <= old(FreeCount()) && capacity == 0 ==> r == Failure(DivideByZero) && unchanged(this, buffer)
      ensures count <= old(FreeCount()) && capacity > 0 && count < 0 ==> r == Failure(ArgumentOutOfRange) && unchanged(this, buffer)
      ensures r.Success? && r.value != 0 ==> r.value == count
      ensures 0 <= count <= old(FreeCount()) && capacity > 0 ==>
        r == Success(count) && contents == old(contents) + source[..count]
        && writeCount == old(writeCount) + count && readCount == old(readCount)
        && isReady == (old(isReady) || FillCount() > 0)
    {
      if count > FreeCount() {
        return Success(0);
      }
      if capacity == 0 {
        return Failure(DivideByZero);
      }
      if count < 0 {
        return Failure(ArgumentOutOfRange);
      }
      ghost var oldContents := contents;
      WriteSamples(source, count);
      ghost var fill := FillCount();
      writeCount := writeCount + count;
      contents := contents + source[..count];
      forall i | 0 <= i < |contents|
        ensures contents[i] == buffer[(readCount + i) % capacity]
      {
        if i >= fill {
          assert readCount + i == old(writeCount) + (i - fill);
        }
      }
      if FillCount() > 0 {
        isReady := true;
      }
      return Success(count);
    }

    /** The copies of Write: the new samples go after the write offset, in two parts when
      * they reach the end of the array, and the waiting samples are left alone. */
    method WriteSamples(source: seq<real>, count: int)
      requires Valid() && capacity > 0
      requires 0 <= count <= |source| && count <= FreeCount()
      modifies buffer
      ensures forall k :: 0 <= k < count ==> buffer[(writeCount + k) % capacity] == source[k]
      ensures forall i :: 0 <= i < |contents| ==> buffer[(readCount + i) % capacity] == contents[i]
    {
      ghost var before := buffer[..];
      var writeOffset := writeCount % capacity;
      if writeOffset + count >= capacity {
        var offset := capacity - writeOffset;
        CopySamples(source, 0, buffer, writeOffset, offset);
        CopySamples(source, offset, buffer, 0, count - offset);
      } else {
        CopySamples(source, 0, buffer, writeOffset, count);
      }
      WrittenSamplesLand(before, source, count);
    }

    /** After the copies of Write: the new samples follow the waiting ones around the
      * ring, and the waiting ones are where they were. */
    lemma WrittenSamplesLand(before: seq<real>, source: seq<real>, count: int)
      requires capacity == buffer.Length > 0 && |before| == capacity
      requires 0 <= readCount <= writeCount && |contents| == writeCount - readCount
      requires 0 <= count <= |source| && FillCount() + count <= capacity
      requires forall i :: 0 <= i < |contents| ==> contents[i] == before[(readCount + i) % capacity]
      requires var wo := writeCount % capacity;
        wo + count >= capacity ==>
          (forall p :: wo <= p < capacity ==> buffer[p] == source[p - wo])
          && (forall p :: 0 <= p < count - (capacity - wo) ==> buffer[p] == source[capacity - wo + p])
          && (forall p :: count - (capacity - wo) <= p < wo ==> buffer[p] == before[p])
      requires var wo := writeCount % capacity;
        wo + count < capacity ==>
          (forall p :: wo <= p < wo + count ==> buffer[p] == source[p - wo])
          && (forall p :: 0 <= p < capacity && !(wo <= p < wo + count) ==> buffer[p] == before[p])
      ensures forall k :: 0 <= k < count ==> buffer[(writeCount + k) % capacity] == source[k]
      ensures forall i :: 0 <= i < |contents| ==> buffer[(readCount + i) % capacity] == contents[i]
    {
      var wo := writeCount % capacity;
      var fill := FillCount();
      forall k | 0 <= k < count
        ensures buffer[(writeCount + k) % capacity] == source[k]
      {
        RingPosition(writeCount, k, capacity);
      }
      forall i | 0 <= i < fill
        ensures buffer[(readCount + i) % capacity] == contents[i]
      {
        var p := (readCount + i) % capacity;
        var k := if p >= wo then p - wo else p + capacity - wo;
        if k < count {
          RingPosition(writeCount, k, capacity);
          assert (readCount + (fill + k)) % capacity == p;
          ModInjective(readCount, i, fill + k, capacity);
        }
      }
    }

    /** Read: asking for more samples than FillCount is refused with 0 and nothing
      * changes. Otherwise the oldest `count` samples go to the front of the sink, copied
      * in two parts when they reach the end of the array, and leave the queue. A zero
      * capacity divides by zero, and a negative count is refused by the array copy. */
    method Read(sink: array<real>, count: int) returns (r: Result<int>)
      requires Valid() && sink != buffer && count <= sink.Length
      modifies this, sink
      ensures Valid() && buffer == old(buffer) && capacity == old(capacity)
      ensures count > old(FillCount()) ==> r == Success(0) && unchanged(this, sink)
      ensures count <= old(FillCount()) && capacity == 0 ==> r == Failure(DivideByZero) && unchanged(this, sink)
      ensures count <= old(FillCount()) && capacity > 0 && count < 0 ==> r == Failure(ArgumentOutOfRange) && unchanged(this, sink)
      ensures r.Success? && r.value != 0 ==> r.value == count
      ensures 0 <= count <= old(FillCount()) && capacity > 0 ==>
        r == Success(count) && sink[..count] == old(contents[..count]) && sink[count..] == old(sink[count..])
        && contents == old(contents[count..])
        && readCount == old(readCount) + count && writeCount == old(writeCount) && isReady == old(isReady)
    {
      if count > FillCount() {
        return Success(0);
      }
      if capacity == 0 {
        return Failure(DivideByZero);
      }
      if count < 0 {
        return Failure(ArgumentOutOfRange);
      }
      ghost var oldContents := contents;
      ReadSamples(sink, count);
      readCount := readCount + count;
      contents := contents[count..];
      forall i | 0 <= i < |contents|
        ensures contents[i] == buffer[(readCount + i) % capacity]
      {
        assert contents[i] == oldContents[count + i];
        assert readCount + i == old(readCount) + (count + i);
      }
      assert sink[..count] == oldContents[..count];
      return Success(count);
    }

    /** The copies of Read: the samples from the read offset on go to the front of the
      * sink, in two parts when they reach the end of the array; the rest of the sink is
      * left alone. */
    method ReadSamples(sink: array<real>, count: int)
      requires Valid() && capacity > 0 && sink != buffer
      requires 0 <= count <= FillCount() && count <= sink.Length
      modifies sink
      ensures forall k :: 0 <= k < count ==> sink[k] == contents[k]
      ensures forall k :: count <= k < sink.Length ==> sink[k] == old(sink[k])
    {
      var readOffset := readCount % capacity;
      if readOffset + count >= capacity {
        var offset := capacity - readOffset;
        CopySamples(buffer[..], readOffset, sink, 0, offset);
        CopySamples(buffer[..], 0, sink, offset, count - offset);
      } else {
        CopySamples(buffer[..], readOffset, sink, 0, count);
      }
      forall k | 0 <= k < count
        ensures sink[k] == contents[k]
      {
        RingPosition(readCount, k, capacity);
      }
    }

    /** FreeSpace marks `count` samples as read without copying them. It checks nothing:
      * the queue stays well formed only when at most FillCount samples are freed. */
    method FreeSpace(count: int) returns (r: int)
      modifies this
      ensures r == count && readCount == old(readCount) + count
      ensures writeCount == old(writeCount) && buffer == old(buffer) && capacity == old(capacity)
      ensures isReady == old(isReady)
      ensures old(Valid()) && 0 <= count <= old(FillCount()) ==> Valid() && contents == old(contents[count..])
    {
      if 0 <= count <= FillCount() && count <= |contents| {
        contents := contents[count..];
      }
      readCount := readCount + count;
      r := count;
    }
  }
}
