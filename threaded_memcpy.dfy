/** The multi-threaded memory copy (ThreadedMemcpy.cs). The copy threads, their
  * semaphores and the cancellation token are replaced by copying the blocks one after
  * another; what is kept is the argument checking and the partition of the copy into
  * one block per thread. */
module ThreadedCopies {
  import opened Wrappers
  import opened Arithmetic

  /** Copies up to this many bytes are done directly, without the threads. */
  const DirectCopyLimit: int := 1024 * 1024

  /** The ceiling of count / threadCount, so that the blocks cover the whole copy. */
  function BlockSize(count: int, threadCount: int): (size: int)
    requires count >= 0 && threadCount >= 1
    ensures size >= 0 && size * threadCount >= count
    ensures size > 0 ==> (size - 1) * threadCount < count
  {
    var size := (count + threadCount - 1) / threadCount;
    DivModUnique(count + threadCount - 1, threadCount, size, (count + threadCount - 1) % threadCount);
    size
  }

  /** Block `i` covers [BlockStart, BlockEnd). */
  function BlockStart(count: int, threadCount: int, i: int): int
    requires count >= 0 && threadCount >= 1
  {
    i * BlockSize(count, threadCount)
  }

  function BlockEnd(count: int, threadCount: int, i: int): (end: int)
    requires count >= 0 && threadCount >= 1
    ensures end <= count
  {
    Min(BlockStart(count, threadCount, i) + BlockSize(count, threadCount), count)
  }

  /** With no more threads than the bound below, every block starts inside the copy,
    * so no block has a negative length: this needs count >= threadCount * (threadCount - 1). */
  lemma {:induction false} BlocksAreNonNegative(count: int, threadCount: int, i: int)
    requires threadCount >= 1 && count >= threadCount * (threadCount - 1)
    requires 0 <= i < threadCount
    ensures 0 <= BlockStart(count, threadCount, i) <= BlockEnd(count, threadCount, i)
  {
    var size := BlockSize(count, threadCount);
    MulNonneg(i, size);
    // size >= threadCount - 1, since size * threadCount >= count >= threadCount * (threadCount - 1)
    assert (size - (threadCount - 1)) * threadCount == size * threadCount - threadCount * (threadCount - 1);
    if size - (threadCount - 1) <= -1 {
      MulAtLeast(size - (threadCount - 1), threadCount);
    }
    // i * size <= (threadCount - 1) * size == size * threadCount - size < count + threadCount - size <= count + 1
    MulNonneg(threadCount - 1 - i, size);
    assert (threadCount - 1 - i) * size == (threadCount - 1) * size - i * size;
    assert (threadCount - 1) * size == size * threadCount - size;
  }

  /** The blocks follow one another: each ends where the next starts, unless the copy
    * ended first. */
  lemma BlocksAreContiguous(count: int, threadCount: int, i: int)
    requires count >= 0 && threadCount >= 1
    ensures BlockEnd(count, threadCount, i) == Min(BlockStart(count, threadCount, i + 1), count)
  {
  }

  /** Together the blocks cover the copy exactly: the first starts at 0 and the last
    * ends at count, and every byte lies in exactly one block. */
  lemma {:induction false} BlocksPartition(count: int, threadCount: int, k: int)
    requires threadCount >= 1 && count >= threadCount * (threadCount - 1)
    requires 0 <= k < count
    ensures BlockStart(count, threadCount, 0) == 0
    ensures BlockEnd(count, threadCount, threadCount - 1) == count
    ensures var i := k / BlockSize(count, threadCount);
      0 <= i < threadCount && BlockStart(count, threadCount, i) <= k < BlockEnd(count, threadCount, i)
    ensures forall j :: 0 <= j < threadCount && BlockStart(count, threadCount, j) <= k < BlockEnd(count, threadCount, j) ==>
      j == k / BlockSize(count, threadCount)
  {
    var size := BlockSize(count, threadCount);
    assert size > 0;
    assert (threadCount - 1) * size + size == size * threadCount;
    var i := k / size;
    DivNonneg(k, size);
    assert k == i * size + k % size;
    assert i < threadCount by {
      if i >= threadCount {
        MulAtLeast(i - threadCount + 1, size);
      }
    }
    forall j | 0 <= j < threadCount && BlockStart(count, threadCount, j) <= k < BlockEnd(count, threadCount, j)
      ensures j == i
    {
      DivModUnique(k, size, j, k - j * size);
    }
  }

  /** The copy engine. `threadCount` is the length of the thread array and `disposed`
    * stands for the array having been released. */
  class ThreadedMemcpy {
    const threadCount: int
    var disposed: bool

    /** At most 1024 threads, so every threaded copy (more than DirectCopyLimit
      * bytes) has blocks of non-negative length. */
    ghost predicate Valid()
    {
      1 <= threadCount && threadCount * (threadCount - 1) <= DirectCopyLimit
    }

    /** The constructor starts one copy thread per processor. */
    constructor(threadCount: int)
      requires 1 <= threadCount <= 1024
      ensures Valid() && this.threadCount == threadCount && !disposed
    {
      this.threadCount := threadCount;
      disposed := false;
      new;
      MulNonneg(1024 - threadCount, threadCount - 1);
    }

    /** Dispose stops the threads; a second call does nothing more. */
    method Dispose()
      modifies this
      ensures disposed
    {
      disposed := true;
    }

    /** MemCpy: throws for a null destination or source, a negative count or a disposed
      * instance, before anything is copied; otherwise dst[0..count) becomes
      * src[0..count) and the rest of dst is untouched. Copies above DirectCopyLimit
      * bytes go block by block. The source pointer must span `count` bytes, as must
      * the destination. */
    method MemCpy(dst: array?<Byte>, src: Option<seq<Byte>>, count: int) returns (fault: Option<Fault>)
      requires Valid()
      requires dst != null && count >= 0 ==> count <= dst.Length
      requires src.Some? && count >= 0 ==> count <= |src.value|
      modifies dst
      ensures dst == null ==> fault == Some(ArgumentNull)
      ensures dst != null && src.None? ==> fault == Some(ArgumentNull)
      ensures dst != null && src.Some? && count < 0 ==> fault == Some(ArgumentOutOfRange)
      ensures dst != null && src.Some? && count >= 0 && disposed ==> fault == Some(ObjectDisposed)
      ensures fault.Some? ==> dst == null || unchanged(dst)
      ensures fault.None? <==> dst != null && src.Some? && count >= 0 && !disposed
      ensures fault.None? ==> dst[..count] == src.value[..count] && dst[count..] == old(dst[count..])
    {
      if dst == null { return Some(ArgumentNull); }
      if src.None? { return Some(ArgumentNull); }
      if count < 0 { return Some(ArgumentOutOfRange); }
      if disposed { return Some(ObjectDisposed); }
      if count <= DirectCopyLimit {
        CopyRange(dst, src.value, 0, count);
      } else {
        var size := BlockSize(count, threadCount);
        var i := 0;
        while i < threadCount
          invariant 0 <= i <= threadCount
          invariant forall k :: 0 <= k < Min(i * size, count) ==> dst[k] == src.value[k]
          invariant forall k :: count <= k < dst.Length ==> dst[k] == old(dst[k])
        {
          BlocksAreNonNegative(count, threadCount, i);
          var blockStart := i * size;
          var blockEnd := Min(blockStart + size, count);
          CopyRange(dst, src.value, blockStart, blockEnd - blockStart);
          i := i + 1;
        }
        assert Min(threadCount * size, count) == count;
      }
      assert dst[..count] == src.value[..count];
      assert dst[count..] == old(dst[count..]);
      fault := None;
    }
  }

  /** UnsafeUtility.MemCpy of one block: bytes [start, start + length) of src into the
    * same positions of dst. */
  method CopyRange(dst: array<Byte>, src: seq<Byte>, start: int, length: int)
    requires 0 <= start && 0 <= length && start + length <= dst.Length && start + length <= |src|
    modifies dst
    ensures forall k :: start <= k < start + length ==> dst[k] == src[k]
    ensures forall k :: 0 <= k < dst.Length && !(start <= k < start + length) ==> dst[k] == old(dst[k])
  {
    var j := 0;
    while j < length
      invariant 0 <= j <= length
      invariant forall k :: start <= k < start + j ==> dst[k] == src[k]
      invariant forall k :: 0 <= k < dst.Length && !(start <= k < start + j) ==> dst[k] == old(dst[k])
    {
      dst[start + j] := src[start + j];
      j := j + 1;
    }
  }
}
