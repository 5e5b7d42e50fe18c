/** The pool of readback buffers of the output device (PooledBufferAsyncGPUReadback.cs):
  * a list of (frame number, readback request, byte buffer) entries, reused once their
  * request is done and the card no longer holds their frame, and a map of the frame
  * numbers the card holds. Buffers are known by identity: a buffer is its allocation
  * number and its length. Whether a request is done is asked of the GPU, so it is a
  * parameter: the set of requests that are done. */
module GpuReadbackPools {
  import opened Wrappers

  /** A readback request: the placeholder a new buffer is registered with, or one issued
    * to the GPU. */
  datatype Request = Dummy | Issued(id: int)

  datatype Buffer = Buffer(id: int, length: int)

  datatype Entry = Entry(frameCount: int, request: Request, buffer: Buffer)

  /** The card holds frame `frameCount`: it is in the map with the value true. */
  predicate Locked(inUse: map<int, bool>, frameCount: int)
  {
    frameCount in inUse && inUse[frameCount]
  }

  /** An entry whose buffer may be handed out for a readback of `size` bytes. */
  predicate Reusable(e: Entry, inUse: map<int, bool>, size: int, done: set<Request>)
  {
    e.request in done && e.buffer.length == size && !Locked(inUse, e.frameCount)
  }

  /** The search of GetAsyncBuffer from position `from` on: the first reusable entry. */
  function FirstReusable(entries: seq<Entry>, inUse: map<int, bool>, size: int, done: set<Request>, from: nat): (r: Option<nat>)
    requires from <= |entries|
    ensures r.Some? ==> from <= r.value < |entries| && Reusable(entries[r.value], inUse, size, done)
    ensures r.Some? ==> forall j :: from <= j < r.value ==> !Reusable(entries[j], inUse, size, done)
    ensures r.None? ==> forall j :: from <= j < |entries| ==> !Reusable(entries[j], inUse, size, done)
    decreases |entries| - from
  {
    if from == |entries| then None
    else if Reusable(entries[from], inUse, size, done) then Some(from)
    else FirstReusable(entries, inUse, size, done, from + 1)
  }

  /** The search of RegisterAsyncBuffer from position `from` on: the first entry holding
    * the buffer. */
  function IndexOfBuffer(entries: seq<Entry>, buff: Buffer, from: nat): (r: Option<nat>)
    requires from <= |entries|
    ensures r.Some? ==> from <= r.value < |entries| && entries[r.value].buffer == buff
    ensures r.Some? ==> forall j :: from <= j < r.value ==> entries[j].buffer != buff
    ensures r.None? ==> forall j :: from <= j < |entries| ==> entries[j].buffer != buff
    decreases |entries| - from
  {
    if from == |entries| then None
    else if entries[from].buffer == buff then Some(from)
    else IndexOfBuffer(entries, buff, from + 1)
  }

  /** No two entries share a buffer. */
  predicate DistinctBuffers(entries: seq<Entry>)
  {
    forall i, j :: 0 <= i < j < |entries| ==> entries[i].buffer.id != entries[j].buffer.id
  }

  /** The buffer handed out for reuse is never the buffer of an entry whose frame the
    * card still holds. */
  lemma {:induction false} ReusedBufferIsNotLocked(entries: seq<Entry>, inUse: map<int, bool>, size: int, done: set<Request>)
    requires DistinctBuffers(entries)
    requires FirstReusable(entries, inUse, size, done, 0).Some?
    ensures forall e :: e in entries && Locked(inUse, e.frameCount) ==>
      e.buffer != entries[FirstReusable(entries, inUse, size, done, 0).value].buffer
  {
    var i := FirstReusable(entries, inUse, size, done, 0).value;
    forall e | e in entries && Locked(inUse, e.frameCount)
      ensures e.buffer != entries[i].buffer
    {
      var k :| 0 <= k < |entries| && entries[k] == e;
      assert k != i;
    }
  }

  /** With distinct buffers, the search of RegisterAsyncBuffer finds exactly the entry
    * that holds the buffer. */
  lemma IndexOfOwnBuffer(entries: seq<Entry>, i: nat)
    requires DistinctBuffers(entries) && i < |entries|
    ensures IndexOfBuffer(entries, entries[i].buffer, 0) == Some(i)
  {
  }

  class PooledReadback {
    var entries: seq<Entry>
    var inUse: map<int, bool>
    /** The allocation number the next new buffer gets. */
    var nextBufferId: nat

    /** Every buffer was allocated here, and no two entries share one. */
    ghost predicate Valid()
      reads this
    {
      DistinctBuffers(entries)
      && forall i :: 0 <= i < |entries| ==> 0 <= entries[i].buffer.id < nextBufferId
    }

    constructor()
      ensures Valid() && entries == [] && inUse == map[]
    {
      entries := [];
      inUse := map[];
      nextBufferId := 0;
    }

    /** RequestGPUReadBack: a buffer of `size` bytes is taken from the pool (or added to
      * it), tagged with the frame and the request `req` the GPU issued into it, and the
      * frame is marked as held by the card. */
    method RequestGPUReadBack(frameCount: int, size: int, done: set<Request>, req: Request) returns (r: Request)
      requires Valid()
      modifies this
      ensures Valid() && r == req && inUse == old(inUse)[frameCount := true]
      ensures var i := FirstReusable(old(entries), old(inUse), size, done, 0);
        (i.Some? ==> entries == old(entries)[i.value := Entry(frameCount, req, old(entries)[i.value].buffer)])
        && (i.None? ==> entries == old(entries) + [Entry(frameCount, req, Buffer(old(nextBufferId), size))])
    {
      var buff := GetAsyncBuffer(size, done);
      var i := FirstReusable(old(entries), old(inUse), size, done, 0);
      IndexOfOwnBuffer(entries, if i.Some? then i.value else |entries| - 1);
      var fault := RegisterAsyncBuffer(frameCount, req, buff);
      BMDLock(frameCount);
      r := req;
    }

    method BMDLock(frameCount: int)
      modifies this
      ensures inUse == old(inUse)[frameCount := true]
      ensures entries == old(entries) && nextBufferId == old(nextBufferId)
    {
      inUse := inUse[frameCount := true];
    }

    /** BMDRelease: the frame is no longer held; releasing a frame not held does nothing. */
    method BMDRelease(frameCount: int)
      modifies this
      ensures inUse == old(inUse) - {frameCount} && !Locked(inUse, frameCount)
      ensures frameCount !in old(inUse) ==> inUse == old(inUse)
      ensures entries == old(entries) && nextBufferId == old(nextBufferId)
    {
      if frameCount in inUse {
        inUse := inUse - {frameCount};
      }
    }

    /** GetAsyncBuffer: the buffer of the first entry whose request is done, whose length
      * is `size` and whose frame the card does not hold; without one, a new buffer is
      * allocated and added under a placeholder request. The pool only grows. */
    method GetAsyncBuffer(size: int, done: set<Request>) returns (buff: Buffer)
      requires Valid()
      modifies this
      ensures Valid() && inUse == old(inUse)
      ensures var i := FirstReusable(old(entries), inUse, size, done, 0);
        (i.Some? ==> entries == old(entries) && buff == entries[i.value].buffer && nextBufferId == old(nextBufferId))
        && (i.None? ==> buff == Buffer(old(nextBufferId), size) && entries == old(entries) + [Entry(0, Dummy, buff)]
                        && nextBufferId == old(nextBufferId) + 1)
      ensures forall e :: e in old(entries) && Locked(inUse, e.frameCount) ==> e.buffer != buff
    {
      var idx := 0;
      while idx < |entries|
        invariant 0 <= idx <= |entries|
        invariant FirstReusable(entries, inUse, size, done, idx) == FirstReusable(entries, inUse, size, done, 0)
      {
        if Reusable(entries[idx], inUse, size, done) {
          ReusedBufferIsNotLocked(entries, inUse, size, done);
          return entries[idx].buffer;
        }
        idx := idx + 1;
      }
      buff := Buffer(nextBufferId, size);
      entries := entries + [Entry(0, Dummy, buff)];
      nextBufferId := nextBufferId + 1;
    }

    /** RegisterAsyncBuffer re-tags the entry holding `buff` with the frame and request,
      * and fails when no entry holds it. */
    method RegisterAsyncBuffer(frameCount: int, r: Request, buff: Buffer) returns (fault: Option<Fault>)
      requires Valid()
      modifies this
      ensures Valid() && inUse == old(inUse) && nextBufferId == old(nextBufferId)
      ensures var i := IndexOfBuffer(old(entries), buff, 0);
        (i.Some? ==> fault == None && entries == old(entries)[i.value := Entry(frameCount, r, buff)])
        && (i.None? ==> fault == Some(InvalidOperation) && entries == old(entries))
    {
      var idx := 0;
      while idx < |entries|
        invariant 0 <= idx <= |entries|
        invariant IndexOfBuffer(entries, buff, idx) == IndexOfBuffer(entries, buff, 0)
      {
        if entries[idx].buffer == buff {
          entries := entries[idx := Entry(frameCount, r, buff)];
          return None;
        }
        idx := idx + 1;
      }
      return Some(InvalidOperation);
    }

    /** Dispose empties the pool and the map of held frames. */
    method Dispose()
      modifies this
      ensures Valid() && entries == [] && inUse == map[] && nextBufferId == old(nextBufferId)
    {
      entries := [];
      inUse := map[];
    }
  }
}
