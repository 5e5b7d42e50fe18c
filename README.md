# DeckLink video I/O for Unity, modelled in Dafny

This project models the C# side of Unity's Blackmagic DeckLink package (com.unity.media.blackmagic). That code captures video from DeckLink cards into Unity and plays Unity's rendering out to them. Each source file or component becomes one Dafny module. Pure code becomes datatypes, functions and lemmas. Code that updates objects in place becomes classes whose methods carry `modifies` clauses and full post-states.

- **Timecodes** (`bcd_timecode.dfy`, `timecode.dfy`): the 32-bit BCD timecode word and its frame/field split above 50 Hz. Also the `Timecode` value: its two constructors, the flicks clock, comparison, equality and formatting.
- **Formats** (`pixel_format.dfy`, `audio_sample_type.dfy`, `video_signal.dfy`, `video_mode_table.dfy`, `video_mode_registry.dfy`):
  - the byte layout of each pixel format and the bytes per audio sample;
  - the `s_Modes` table of video modes and its lookups by SDK code and by (resolution, rate, scan) triple;
  - the `SupportMap` bitfields of the modes a device offers.
- **Capture** (`buffered_frame.dfy`, `frame_queue.dfy`, `input_plugin.dfy`, `input_sync.dfy`, `input_device.dfy`, `threaded_memcpy.dfy`):
  - the overwrite-on-full frame ring and the frame status machine;
  - the input format record and the plugin registry that routes driver callbacks;
  - the input device: dropped-frame counting, which frame is presented, the unpack pass of interlaced video, and the time-based sample search;
  - the block partitioning of the threaded copy, copied block by block.
- **Playout** (`output_device.dfy`, `output_audio.dfy`, `gpu_readback_pool.dfy`, `connector_mapping.dfy`):
  - the output device's settings change detector, its video-mode, keying and link-mode changes, the timecode it stamps, and the FIFO drain of GPU readbacks;
  - the pooled readback buffers and their locks;
  - the audio set-up;
  - the keying and link compatibility of each connector mapping.
- **Containers** (`ring_buffer.dfy`, `value_pool.dfy`): the audio sample ring and the pool that hands out the smallest free integer id.
- **Device bookkeeping** (`base_device.dfy`, `frame_manager.dfy`, `device_discovery.dfy`, `device_handle.dfy`, `video_device_type.dfy`):
  - the life-cycle flags and the active-device counter;
  - the per-direction registration indices and the update order;
  - the card table with its offsets and compatibility masks;
  - the binding of devices to logical devices under half- and full-duplex mappings.

`wrappers.dfy` holds `Option`, `Result` and the exceptions (`Fault`) that C# throws. `arithmetic.dfy` holds C#'s truncating division and remainder, and a few facts about them.

The native driver is not visible. Its answers are method parameters or fields of a plugin record: frame durations, compatibility queries, whether a readback is done or failed, whether a native call succeeded, and the handle it returns. The same holds for Unity's state: whether the editor is playing, the audio listener, and textures and their sizes. Callbacks that the driver delivers on its own threads are sequential method calls.

## Model

| member | source | states |
|---|---|---|
| BcdTimecode.Digit | com.unity.media.blackmagic/Runtime/DeckLinkUtilities/BlackmagicUtilities.cs:74-79 | a digit read by shift and mask from the 32-bit word lies between 0 and the mask |
| BcdTimecode.UnpackWith | com.unity.media.blackmagic/Runtime/DeckLinkUtilities/BlackmagicUtilities.cs:62-89 | a word is valid exactly when it is not 0xffffffff, and an invalid word gives all-zero components; the drop-frame flag is bit 6; each component stays within what its digits can carry (hour at most 45, minute and second at most 85, frame at most 45, or 91 when frames are split into fields) |
| BcdTimecode.UnpackBcdTimecode | com.unity.media.blackmagic/Runtime/DeckLinkUtilities/BlackmagicUtilities.cs:62-89 | returns true exactly when the word is not 0xffffffff; otherwise every out-parameter is zero or false |
| BcdTimecode.AssembleDigits | com.unity.media.blackmagic/Runtime/DeckLinkUtilities/BlackmagicUtilities.cs:74-79 | every digit of a word built from in-range digits reads back unchanged, and bits 30 and 31 stay clear |
| BcdTimecode.DisassembleWord | com.unity.media.blackmagic/Runtime/DeckLinkUtilities/BlackmagicUtilities.cs:74-79 | a word below 2^30 whose unused bits 15 and 23 are clear is exactly the word its own digits build |
| BcdTimecode.PackSumOfFit | com.unity.media.blackmagic/Runtime/DeckLinkUtilities/BlackmagicUtilities.cs:101-121 | for components whose digits fit, the 64-bit sum the packing builds is the word their decimal digits assemble to |
| BcdTimecode.UnpackAssembled | com.unity.media.blackmagic/Runtime/DeckLinkUtilities/BlackmagicUtilities.cs:62-89 | unpacking an assembled word gives back the components its digits spell, with the field bit added back when frames are split |
| BcdTimecode.PackThenUnpack | com.unity.media.blackmagic/Runtime/DeckLinkUtilities/BlackmagicUtilities.cs:62-121 | components whose digits fit their fields survive packing then unpacking unchanged; the packed word is below 2^30, so it is never the no-timecode word |
| BcdTimecode.UnpackThenPack | com.unity.media.blackmagic/Runtime/DeckLinkUtilities/BlackmagicUtilities.cs:62-121 | a word the packing can produce unpacks to valid components that pack back to the same word |
| BcdTimecode.DropFrameIsBit6 | com.unity.media.blackmagic/Runtime/DeckLinkUtilities/BlackmagicUtilities.cs:117 | the packed word carries the drop-frame flag in bit 6 |
| BcdTimecode.FieldSplitAbove50Hz | com.unity.media.blackmagic/Runtime/DeckLinkUtilities/BlackmagicUtilities.cs:103-109 | at a frame duration of at most a fiftieth of a second the frame digits hold half the frame number and bit 7 holds its parity |
| Timecodes.CeilingDivision | com.unity.media.blackmagic/Runtime/DeckLinkUtilities/Timecode.cs:59-60 | `(a + d - 1) / d` is the ceiling of a / d: the least q with q * d >= a |
| Timecodes.FramesPerSecond | com.unity.media.blackmagic/Runtime/DeckLinkUtilities/Timecode.cs:59-60 | the rounded-up rate: the least number of frames whose durations cover one second, between 1 and the flicks per second |
| Timecodes.FromComponents | com.unity.media.blackmagic/Runtime/DeckLinkUtilities/Timecode.cs:57-71 | fails with a division by zero exactly when the frame duration is 0; otherwise the flicks are the number of the frame from midnight times the frame duration, and the components are kept as given |
| Timecodes.FromFlicks | com.unity.media.blackmagic/Runtime/DeckLinkUtilities/Timecode.cs:79-108 | fails with a division by zero exactly when the frame duration is 0; otherwise keeps the flicks, the drop-frame flag and the frame duration as given |
| Timecodes.FromFlicksEuclidean | com.unity.media.blackmagic/Runtime/DeckLinkUtilities/Timecode.cs:86-99 | for a non-negative time each truncating division and remainder of the flicks constructor equals the Euclidean one |
| Timecodes.MixedRadix | com.unity.media.blackmagic/Runtime/DeckLinkUtilities/Timecode.cs:86-99 | splitting a frame count by frames per hour, minute and second gives minutes and seconds below 60, and the components number the same frame within the day |
| Timecodes.FromFlicksDecomposes | com.unity.media.blackmagic/Runtime/DeckLinkUtilities/Timecode.cs:79-108 | for a non-negative time: hour below 24, minute and second below 60, frame below the rounded-up rate, and together they number the frame reached, wrapped at 24 hours |
| Timecodes.ComponentsRebuildFlicks | com.unity.media.blackmagic/Runtime/DeckLinkUtilities/Timecode.cs:57-108 | building from the components the flicks constructor produced gives the time rounded down to a frame and wrapped at 24 hours; a frame-aligned time below 24 hours comes back unchanged |
| Timecodes.FromBcd | com.unity.media.blackmagic/Runtime/DeckLinkUtilities/Timecode.cs:110-126 | null exactly for the no-timecode word; fails exactly when another word meets a zero frame duration; otherwise the component constructor applied to the unpacked components |
| Timecodes.BcdRoundTrip | com.unity.media.blackmagic/Runtime/DeckLinkUtilities/Timecode.cs:110-131 | `FromBCD(d, t.ToBCD())` gives back a frame-aligned time below 24 hours whenever the field split of the source can carry the rate: every rate up to 40 Hz and every rate from 50 Hz to 80 Hz |
| Timecodes.TestRateSplits | com.unity.media.blackmagic/Tests/Editor/TimecodeTest.cs:7-11 | the two test rates, 60 Hz and 59.94 Hz, round up to 60 frames a second and split frames into fields |
| Timecodes.TimecodeTestRoundTrips | com.unity.media.blackmagic/Tests/Editor/TimecodeTest.cs:9-19 | every frame of the test's two-hour loop, at both test rates, comes back from `FromBCD(d, new Timecode(d, i * d).ToBCD())` with the flicks it started with |
| Timecodes.RoundTripFailsAt48Hz | com.unity.media.blackmagic/Runtime/DeckLinkUtilities/Timecode.cs:110-131 | at 48 Hz frame 45 packs to 0x45 and unpacks as frame 5 with the drop-frame flag set |
| Timecodes.FromBcdCorrected | com.unity.media.blackmagic/Runtime/DeckLinkUtilities/Timecode.cs:110-126 | FromBCD with frames split above 40 Hz: null exactly for the no-timecode word, failure exactly for a zero frame duration |
| Timecodes.BcdRoundTripCorrected | com.unity.media.blackmagic/Runtime/DeckLinkUtilities/Timecode.cs:110-131 | with frames split above 40 Hz every frame-aligned time below 24 hours round-trips at every rate up to 80 Hz, 47.95 Hz and 48 Hz included |
| Timecodes.CompareTo | com.unity.media.blackmagic/Runtime/DeckLinkUtilities/Timecode.cs:142-145 | -1, 0 or 1, negative exactly when the flicks are smaller and positive exactly when they are larger |
| Timecodes.CompareToObject | com.unity.media.blackmagic/Runtime/DeckLinkUtilities/Timecode.cs:156-159 | -1 for an object that is not a timecode; otherwise CompareTo |
| Timecodes.Equals | com.unity.media.blackmagic/Runtime/DeckLinkUtilities/Timecode.cs:166-169 | equal exactly when CompareTo gives 0 and the drop-frame flags agree |
| Timecodes.EqualsObject | com.unity.media.blackmagic/Runtime/DeckLinkUtilities/Timecode.cs:177-180 | true exactly for a timecode that Equals this one |
| Timecodes.CompareZeroIsWeakerThanEquals | com.unity.media.blackmagic/Runtime/DeckLinkUtilities/Timecode.cs:142-169 | two timecodes that differ only in the drop-frame flag compare as 0 but are not equal |
| Timecodes.OperatorsArePreorder | com.unity.media.blackmagic/Runtime/DeckLinkUtilities/Timecode.cs:211-251 | `<=` is total and transitive, `<` is the negation of the reversed `<=`, `>` and `>=` are the reversed `<` and `<=`, and `==` implies both `<=` and `>=` |
| Timecodes.D2 | com.unity.media.blackmagic/Runtime/DeckLinkUtilities/Timecode.cs:202 | the "D2" format gives at least two characters |
| Timecodes.D2TwoDigits | com.unity.media.blackmagic/Runtime/DeckLinkUtilities/Timecode.cs:202 | a value from 0 to 99 prints as its tens digit then its units digit |
| Timecodes.ToStringLayout | com.unity.media.blackmagic/Runtime/DeckLinkUtilities/Timecode.cs:200-203 | for components below 100 the text is 11 characters: two-digit hour, minute and second separated by ':', then ';' for drop frame or ':', then the two-digit frame, and each field reads back as its component |
| PixelFormats.PadToBlock | com.unity.media.blackmagic/Runtime/DeckLinkUtilities/BMDPixelFormat.cs:129-131 | for a non-negative length the padded row is a whole number of blocks, at least the length and less than one block more, and holds exactly the rounded-up number of blocks |
| PixelFormats.ByteWidth | com.unity.media.blackmagic/Runtime/DeckLinkUtilities/BMDPixelFormat.cs:104-156 | 0 for a format without a packed layout; never negative for a non-negative width; at least two bytes a pixel for the 8-bit formats |
| PixelFormats.ByteHeight | com.unity.media.blackmagic/Runtime/DeckLinkUtilities/BMDPixelFormat.cs:164-185 | the height for the nine packed formats, 0 for every other value |
| PixelFormats.ByteDepth | com.unity.media.blackmagic/Runtime/DeckLinkUtilities/BMDPixelFormat.cs:192-213 | 4 for the nine packed formats, 0 for every other value |
| PixelFormats.Rgb10IsR210 | com.unity.media.blackmagic/Runtime/DeckLinkUtilities/BMDPixelFormat.cs:134-145 | the three 10-bit RGB formats use exactly the r210 row length: four bytes a pixel, rounded up to 256 bytes |
| PixelFormats.Yuv10AgainstV210 | com.unity.media.blackmagic/Runtime/DeckLinkUtilities/BMDPixelFormat.cs:121-133 | the 10-bit YUV row equals the v210 row length (six pixels in 16 bytes, rounded up to 128 bytes) unless the width exceeds a multiple of 48 by one to five pixels, where it is one 128-byte block short |
| AudioSampleTypes.BytesPerSample | com.unity.media.blackmagic/Runtime/DeckLinkUtilities/BMDAudioSampleType.cs:32-43 | succeeds exactly for Int16 and Int32, with a byte count whose eight-fold is the sample width in bits; any other value throws ArgumentOutOfRange |
| BufferedFrames.BufferedFrame.constructor | com.unity.media.blackmagic/Runtime/DeckLinkInputDevice/BufferedFrame.cs:29-49 | a new slot is Uninitialized, with a texture buffer of byteWidth * byteHeight bytes and an 8000-byte audio buffer (2 channels, 2 bytes, 48 kHz, 24 frames a second) |
| BufferedFrames.BufferedFrame.Dispose | com.unity.media.blackmagic/Runtime/DeckLinkInputDevice/BufferedFrame.cs:51-63 | each buffer still allocated is freed once and replaced by an empty one; a second Dispose frees nothing; status, timecode and audio length are untouched |
| BufferedFrames.BufferedFrame.CopyFrom | com.unity.media.blackmagic/Runtime/DeckLinkInputDevice/BufferedFrame.cs:65-98 | the slot becomes Queued with the frame's duration, field dominance and timecode (its own, or one built from the stream time); the video bytes land in the texture when they fit, else the texture is unchanged; with audio the sample type, channel count and length are recorded and the bytes land when they fit; without audio the length is 0; a zero frame duration without a timecode or a disposed copy engine asked to copy is the exception the source would throw |
| BufferedFrames.BufferedFrame.CopyTiming | com.unity.media.blackmagic/Runtime/DeckLinkInputDevice/BufferedFrame.cs:68-69 | the frame duration is copied; the timecode is the frame's own or the one the flicks constructor builds from the stream time, which fails exactly for a zero frame duration |
| BufferedFrames.BufferedFrame.CopyVideo | com.unity.media.blackmagic/Runtime/DeckLinkInputDevice/BufferedFrame.cs:73-78 | the video bytes land at the start of the texture when they fit; otherwise the texture is unchanged |
| BufferedFrames.BufferedFrame.CopyAudio | com.unity.media.blackmagic/Runtime/DeckLinkInputDevice/BufferedFrame.cs:80-94 | with audio the type, channel count and length are recorded and the bytes land when they fit; without audio the length is 0 and the buffer unchanged |
| FrameQueues.KeptSlotsKeepNewest | com.unity.media.blackmagic/Runtime/DeckLinkInputDevice/FrameQueue.cs:73-119 | the corrected slot order keeps the newest min(Count, capacity) frames at the front of the new ring, oldest first, as the summary of SetCapacity promises (truncation from the front), and moves each old slot at most once |
| FrameQueues.DroppedSlotLeaves | com.unity.media.blackmagic/Runtime/DeckLinkInputDevice/FrameQueue.cs:98-105 | a slot that does not fit the new capacity is not among the slots kept |
| FrameQueues.SetCapacityAsWrittenLosesFrames | com.unity.media.blackmagic/Runtime/DeckLinkInputDevice/FrameQueue.cs:93-106 | as written, a ring A, B, X, Y holding A, B comes out of SetCapacity(3) queuing the stale Y, X; the corrected order keeps A, B |
| FrameQueues.AsWrittenReversesFullQueue | com.unity.media.blackmagic/Runtime/DeckLinkInputDevice/FrameQueue.cs:93-106 | as written, even a full queue comes out reversed: new slot i holds the queue's frame Count - 1 - i |
| FrameQueues.QueueOrderGrows | com.unity.media.blackmagic/Runtime/DeckLinkInputDevice/FrameQueue.cs:156-165 | a queue with room grows at the back by the slot at end, which is not already queued |
| FrameQueues.QueueOrderRotates | com.unity.media.blackmagic/Runtime/DeckLinkInputDevice/FrameQueue.cs:156-169 | a full queue whose start moves on one slot holds the same frames, the oldest now last |
| FrameQueues.FrameQueue.constructor | com.unity.media.blackmagic/Runtime/DeckLinkInputDevice/FrameQueue.cs:34-43 | a new queue has `capacity` fresh Uninitialized slots and is empty |
| FrameQueues.FrameQueue.Create | com.unity.media.blackmagic/Runtime/DeckLinkInputDevice/FrameQueue.cs:34-43 | a missing allocator throws ArgumentNull, then a capacity that is not positive throws ArgumentOutOfRange; otherwise an empty queue of that capacity |
| FrameQueues.FrameQueue.Get | com.unity.media.blackmagic/Runtime/DeckLinkInputDevice/FrameQueue.cs:60-68 | an empty queue throws InvalidOperation, an index outside [0, Count) throws IndexOutOfRange, otherwise the frame at that queue position, 0 being the oldest |
| FrameQueues.FrameQueue.Front | com.unity.media.blackmagic/Runtime/DeckLinkInputDevice/FrameQueue.cs:135-139 | throws InvalidOperation exactly on an empty queue; otherwise the oldest frame |
| FrameQueues.FrameQueue.Back | com.unity.media.blackmagic/Runtime/DeckLinkInputDevice/FrameQueue.cs:145-149 | throws InvalidOperation exactly on an empty queue; otherwise the newest frame, the slot before end |
| FrameQueues.FrameQueue.Enqueue | com.unity.media.blackmagic/Runtime/DeckLinkInputDevice/FrameQueue.cs:156-169 | hands back the slot at end; returns true exactly on a full queue; with room the queue grows by that slot, which was not queued; when full that slot is the oldest frame, which moves to the back |
| FrameQueues.FrameQueue.Clear | com.unity.media.blackmagic/Runtime/DeckLinkInputDevice/FrameQueue.cs:124-129 | the queue is empty with start and end 0, and keeps its slots |
| FrameQueues.FrameQueue.Dispose | com.unity.media.blackmagic/Runtime/DeckLinkInputDevice/FrameQueue.cs:48-54 | every slot, queued or not, has both buffers freed exactly once |
| FrameQueues.FrameQueue.SetCapacity | com.unity.media.blackmagic/Runtime/DeckLinkInputDevice/FrameQueue.cs:76-119 | a capacity that is not positive throws ArgumentOutOfRange and the same capacity changes nothing; otherwise the ring has the new capacity, starts at 0, keeps the newest min(Count, capacity) frames in queue order, allocates fresh Uninitialized slots for the rest, and disposes the old slots that do not fit, which leave the ring |
| FrameQueues.FrameQueue.Resize | com.unity.media.blackmagic/Runtime/DeckLinkInputDevice/FrameQueue.cs:88-118 | for a new positive capacity: the new ring, its queue and its fresh and disposed slots as SetCapacity states them |
| FrameQueues.FrameQueue.NewRing | com.unity.media.blackmagic/Runtime/DeckLinkInputDevice/FrameQueue.cs:88-113 | the new ring: the kept old slots in the corrected order, then fresh Uninitialized frames up to the capacity, no slot twice, the newest frames first in queue order |
| FrameQueues.FrameQueue.MoveSlots | com.unity.media.blackmagic/Runtime/DeckLinkInputDevice/FrameQueue.cs:91-107 | the first loop: the old slots in the corrected order up to the new capacity, the others disposed |
| FrameQueues.FrameQueue.AllocateSlots | com.unity.media.blackmagic/Runtime/DeckLinkInputDevice/FrameQueue.cs:109-113 | the second loop: the requested number of fresh, distinct, Uninitialized frames |
| RingBuffers.RingPosition | com.unity.media.blackmagic/Runtime/DeckLinkUtilities/BufferUtilities.cs:70-80 | sample j after a counter lands straight after the counter's offset, or wrapped to the start of the array when that passes the end, which is where the two-part copy puts it |
| RingBuffers.CopySamples | com.unity.media.blackmagic/Runtime/DeckLinkUtilities/BufferUtilities.cs:73-79 | Array.Copy: the target range holds the source range and every other element is unchanged |
| RingBuffers.SimpleRingBuffer.constructor | com.unity.media.blackmagic/Runtime/DeckLinkUtilities/BufferUtilities.cs:50-54 | a buffer of `capacity` samples with nothing waiting and IsReady false |
| RingBuffers.SimpleRingBuffer.Write | com.unity.media.blackmagic/Runtime/DeckLinkUtilities/BufferUtilities.cs:62-88 | more samples than FreeCount return 0 and change nothing; otherwise the first `count` source samples join the back of the queue, the write counter advances by `count`, and IsReady is set once anything is waiting; a zero capacity divides by zero and a negative count is refused by Array.Copy |
| RingBuffers.SimpleRingBuffer.WriteSamples | com.unity.media.blackmagic/Runtime/DeckLinkUtilities/BufferUtilities.cs:70-80 | the copies put the new samples after the write offset around the ring and leave the waiting samples in place |
| RingBuffers.SimpleRingBuffer.WrittenSamplesLand | com.unity.media.blackmagic/Runtime/DeckLinkUtilities/BufferUtilities.cs:70-80 | after either form of the copy, sample k lands at (write counter + k) mod Capacity and no waiting sample is overwritten |
| RingBuffers.SimpleRingBuffer.Read | com.unity.media.blackmagic/Runtime/DeckLinkUtilities/BufferUtilities.cs:96-124 | asking for more than FillCount returns 0 and changes nothing; otherwise the oldest `count` samples go to the front of the sink in order, the rest of the sink is untouched, and they leave the queue; a zero capacity divides by zero and a negative count is refused by Array.Copy |
| RingBuffers.SimpleRingBuffer.ReadSamples | com.unity.media.blackmagic/Runtime/DeckLinkUtilities/BufferUtilities.cs:104-114 | the copies put the oldest waiting samples at the front of the sink and leave the rest of the sink alone |
| RingBuffers.SimpleRingBuffer.FreeSpace | com.unity.media.blackmagic/Runtime/DeckLinkUtilities/BufferUtilities.cs:131-135 | advances the read counter by `count` and returns it, checking nothing; the queue stays well formed, minus its oldest `count` samples, exactly when at most FillCount samples are freed |
| ValuePools.SkipUsed | com.unity.media.blackmagic/Runtime/DeckLinkUtilities/SimplePoolValues.cs:39-42 | the iterator's loop stops at the first number from its start that is not in the used set, having passed only used numbers |
| ValuePools.InsertSorted | com.unity.media.blackmagic/Runtime/DeckLinkUtilities/SimplePoolValues.cs:60-66 | Add followed by OrderBy: the pooled list gains exactly the returned number (as a multiset) and one element |
| ValuePools.InsertSortedKeepsOrder | com.unity.media.blackmagic/Runtime/DeckLinkUtilities/SimplePoolValues.cs:60-66 | inserting a number not yet pooled into the strictly increasing list keeps it strictly increasing |
| ValuePools.NextValue | com.unity.media.blackmagic/Runtime/DeckLinkUtilities/SimplePoolValues.cs:27-49 | a pooled number below the iterator is reused (first element leaves the pool and becomes used); otherwise the iterator skips used numbers, hands out the first free one and moves past it |
| ValuePools.Pooled | com.unity.media.blackmagic/Runtime/DeckLinkUtilities/SimplePoolValues.cs:60 | KeyedCollection.Add of a number already pooled faults with an argument error and changes nothing; otherwise the number is inserted in order |
| ValuePools.Returned | com.unity.media.blackmagic/Runtime/DeckLinkUtilities/SimplePoolValues.cs:51-67 | ReturnValue with the corrected guard: the number always leaves the used set, the iterator stays, a number at or above the iterator is not pooled, a pooled one faults, any other one is inserted in order |
| ValuePools.ReturnedAsWritten | com.unity.media.blackmagic/Runtime/DeckLinkUtilities/SimplePoolValues.cs:51-67 | ReturnValue as written: a number equal to the iterator is pooled as well |
| ValuePools.FreshPoolInv | com.unity.media.blackmagic/Runtime/DeckLinkUtilities/SimplePoolValues.cs:16-25 | a new pool (iterator 1, nothing pooled, nothing used) satisfies the pool invariant with nothing handed out |
| ValuePools.NextValueIsFresh | com.unity.media.blackmagic/Runtime/DeckLinkUtilities/SimplePoolValues.cs:27-49 | GetNextValue never hands out a number that is still out, and keeps the invariant (pooled numbers sorted and below the iterator, out numbers below the iterator and not pooled) |
| ValuePools.ReturnedKeepsInv | com.unity.media.blackmagic/Runtime/DeckLinkUtilities/SimplePoolValues.cs:51-67 | ReturnValue (corrected) keeps the invariant once the returned number is no longer out |
| ValuePools.ReuseTakesSmallest | com.unity.media.blackmagic/Runtime/DeckLinkUtilities/SimplePoolValues.cs:29-36 | the reused number is the smallest pooled one, and it leaves the pool |
| ValuePools.DrawsIncrease | com.unity.media.blackmagic/Runtime/DeckLinkUtilities/SimplePoolValues.cs:38-48 | with nothing pooled, successive GetNextValue calls hand out strictly increasing numbers, none below the iterator |
| ValuePools.FreshPoolCounts | com.unity.media.blackmagic/Runtime/DeckLinkUtilities/SimplePoolValues.cs:16-48 | with nothing pooled or used the pool hands out n, n+1, n+2, ... |
| ValuePools.AsWrittenHandsOutTwice | com.unity.media.blackmagic/Runtime/DeckLinkUtilities/SimplePoolValues.cs:57-58 | as written: a used number returned while it equals the iterator is handed out by two successive calls |
| ValuePools.ValuePool.constructor | com.unity.media.blackmagic/Runtime/DeckLinkUtilities/SimplePoolValues.cs:16-25 | the new pool's state is the fresh pool |
| ValuePools.ValuePool.GetNextValue | com.unity.media.blackmagic/Runtime/DeckLinkUtilities/SimplePoolValues.cs:27-49 | the method's result and new state are NextValue of the old state |
| ValuePools.ValuePool.ReturnValue | com.unity.media.blackmagic/Runtime/DeckLinkUtilities/SimplePoolValues.cs:51-67 | the new state and fault are Returned of the old state (corrected guard) |
| ValuePools.ValuePool.AddUsedValue | com.unity.media.blackmagic/Runtime/DeckLinkUtilities/SimplePoolValues.cs:69-72 | the number joins the used set and nothing else changes |
| ThreadedCopies.BlockSize | com.unity.media.blackmagic/Runtime/DeckLinkUtilities/ThreadedMemcpy.cs:163-165 | the ceiling division: the blocks together are at least the copy, and one byte less per block would not be |
| ThreadedCopies.BlockEnd | com.unity.media.blackmagic/Runtime/DeckLinkUtilities/ThreadedMemcpy.cs:169-170 | a block never ends past the end of the copy |
| ThreadedCopies.BlocksAreNonNegative | com.unity.media.blackmagic/Runtime/DeckLinkUtilities/ThreadedMemcpy.cs:167-176 | with count at least threadCount*(threadCount-1) (guaranteed by the 1 MiB direct-copy limit for up to 1024 threads) every block starts at or before its end, so no thread gets a negative length |
| ThreadedCopies.BlocksAreContiguous | com.unity.media.blackmagic/Runtime/DeckLinkUtilities/ThreadedMemcpy.cs:169-170 | each block ends where the next begins, unless the copy ended first |
| ThreadedCopies.BlocksPartition | com.unity.media.blackmagic/Runtime/DeckLinkUtilities/ThreadedMemcpy.cs:163-177 | the first block starts at 0, the last ends at count, and every byte of the copy lies in exactly one block |
| ThreadedCopies.ThreadedMemcpy.constructor | com.unity.media.blackmagic/Runtime/DeckLinkUtilities/ThreadedMemcpy.cs:113-122 | a copy engine with the given number of threads, not disposed |
| ThreadedCopies.ThreadedMemcpy.Dispose | com.unity.media.blackmagic/Runtime/DeckLinkUtilities/ThreadedMemcpy.cs:124-139 | the engine is disposed; a second call changes nothing more |
| ThreadedCopies.ThreadedMemcpy.MemCpy | com.unity.media.blackmagic/Runtime/DeckLinkUtilities/ThreadedMemcpy.cs:141-189 | null destination or source, a negative count and a disposed engine fault in that order and copy nothing; otherwise exactly the first count bytes of the destination become those of the source, block by block above 1 MiB |
| ThreadedCopies.CopyRange | com.unity.media.blackmagic/Runtime/DeckLinkUtilities/ThreadedMemcpy.cs:88 | UnsafeUtility.MemCpy of one block: that range of the destination holds the source bytes and nothing else changes |
| GpuReadbackPools.FirstReusable | com.unity.media.blackmagic/Runtime/DeckLinkUtilities/PooledBufferAsyncGPUReadback.cs:56-66 | the search stops at the first entry whose request is done, whose buffer has the requested size and whose frame the card does not hold, having passed only entries that are not reusable; none means no entry is reusable |
| GpuReadbackPools.IndexOfBuffer | com.unity.media.blackmagic/Runtime/DeckLinkUtilities/PooledBufferAsyncGPUReadback.cs:80-87 | the first entry holding the buffer, having passed only entries that do not; none means no entry holds it |
| GpuReadbackPools.ReusedBufferIsNotLocked | com.unity.media.blackmagic/Runtime/DeckLinkUtilities/PooledBufferAsyncGPUReadback.cs:56-66 | with distinct buffers, the buffer handed out for reuse is not the buffer of any entry whose frame the card still holds |
| GpuReadbackPools.IndexOfOwnBuffer | com.unity.media.blackmagic/Runtime/DeckLinkUtilities/PooledBufferAsyncGPUReadback.cs:80-87 | with distinct buffers, the registration search finds exactly the entry that holds the buffer |
| GpuReadbackPools.PooledReadback.constructor | com.unity.media.blackmagic/Runtime/DeckLinkUtilities/PooledBufferAsyncGPUReadback.cs:14-15 | an empty pool and no held frames |
| GpuReadbackPools.PooledReadback.RequestGPUReadBack | com.unity.media.blackmagic/Runtime/DeckLinkUtilities/PooledBufferAsyncGPUReadback.cs:17-27 | the reusable entry (or a new entry with a fresh buffer of the size) is re-tagged with the frame and the request, the frame is marked held, buffers stay distinct, and the request is returned |
| GpuReadbackPools.PooledReadback.BMDLock | com.unity.media.blackmagic/Runtime/DeckLinkUtilities/PooledBufferAsyncGPUReadback.cs:34-37 | the frame is marked held and nothing else changes |
| GpuReadbackPools.PooledReadback.BMDRelease | com.unity.media.blackmagic/Runtime/DeckLinkUtilities/PooledBufferAsyncGPUReadback.cs:39-45 | the frame is no longer held; releasing a frame not held changes nothing |
| GpuReadbackPools.PooledReadback.GetAsyncBuffer | com.unity.media.blackmagic/Runtime/DeckLinkUtilities/PooledBufferAsyncGPUReadback.cs:47-76 | the buffer of the first reusable entry, leaving the pool unchanged, or else a fresh buffer of the size added under a placeholder request; never the buffer of a held frame |
| GpuReadbackPools.PooledReadback.RegisterAsyncBuffer | com.unity.media.blackmagic/Runtime/DeckLinkUtilities/PooledBufferAsyncGPUReadback.cs:78-90 | the entry holding the buffer is re-tagged with the frame and the request; with no such entry an invalid-operation fault and no change |
| GpuReadbackPools.PooledReadback.Dispose | com.unity.media.blackmagic/Runtime/DeckLinkUtilities/PooledBufferAsyncGPUReadback.cs:92-101 | the pool and the map of held frames are emptied |
| VideoModeTable.ModesWellFormed | com.unity.media.blackmagic/Runtime/DeckLinkUtilities/DeckLinkDeviceEnumerator.cs:705-712 | the constructor's assertions hold of the table: no SDK code and no (resolution, frame rate, scan mode) appears twice; also every code differs from the "unknown mode" value and names its frame rate in its last two characters |
| VideoModeTable.ModesUnique | com.unity.media.blackmagic/Runtime/DeckLinkUtilities/DeckLinkDeviceEnumerator.cs:784-907 | no two rows of the table share a code or a triple |
| VideoModeTable.AppendGroup | com.unity.media.blackmagic/Runtime/DeckLinkUtilities/DeckLinkDeviceEnumerator.cs:784-907 | appending a group of rows of a higher family to the rows before it keeps codes and triples unique |
| VideoModeTable.AsWrittenHd1080pCodesAreShifted | com.unity.media.blackmagic/Runtime/DeckLinkUtilities/DeckLinkDeviceEnumerator.cs:802-803 | as written, the 1080p 95.90 row carries the code of 96 fps and the 1080p 96 row the code of 100 fps, breaking the frame rate naming of the codes |
| VideoModeTable.FindSdk | com.unity.media.blackmagic/Runtime/DeckLinkUtilities/DeckLinkDeviceEnumerator.cs:727-731 | a row found by code has that code |
| VideoModeTable.FindTriple | com.unity.media.blackmagic/Runtime/DeckLinkUtilities/DeckLinkDeviceEnumerator.cs:741-743 | a row found by triple has that resolution, frame rate and scan mode |
| VideoModeTable.FindSdkExact | com.unity.media.blackmagic/Runtime/DeckLinkUtilities/DeckLinkDeviceEnumerator.cs:727-731 | in rows with unique codes, the search by code gives a row exactly when that row has the code |
| VideoModeTable.FindTripleExact | com.unity.media.blackmagic/Runtime/DeckLinkUtilities/DeckLinkDeviceEnumerator.cs:741-743 | in rows with unique triples, the search by triple gives a row exactly when that row has the triple |
| VideoModeTable.SdkLookup | com.unity.media.blackmagic/Runtime/DeckLinkUtilities/DeckLinkDeviceEnumerator.cs:722-732 | GetModeFromSDK: the "unknown mode" value (the table's length) gives nothing; a mode given has the code |
| VideoModeTable.TripleLookup | com.unity.media.blackmagic/Runtime/DeckLinkUtilities/DeckLinkDeviceEnumerator.cs:739-744 | GetMode: a mode given has the requested resolution, frame rate and scan mode |
| VideoModeTable.SdkLookupExact | com.unity.media.blackmagic/Runtime/DeckLinkUtilities/DeckLinkDeviceEnumerator.cs:722-732 | GetModeFromSDK gives a mode exactly when the mode is a row of the table with that code |
| VideoModeTable.TripleLookupExact | com.unity.media.blackmagic/Runtime/DeckLinkUtilities/DeckLinkDeviceEnumerator.cs:739-744 | GetMode gives a mode exactly when the mode is a row of the table with that triple |
| VideoModeTable.ModesRoundTrip | com.unity.media.blackmagic/Runtime/DeckLinkUtilities/DeckLinkDeviceEnumerator.cs:688-703 | every row is found again both from its code and from its triple: the registry's two dictionaries invert the table |
| VideoModeRegistries.BitFieldSet | com.unity.media.blackmagic/Runtime/DeckLinkUtilities/DeckLinkDeviceEnumerator.cs:610-614 | the frame rate's bit is set afterwards and the bitfield is non-zero |
| VideoModeRegistries.BitFieldSetKeepsOthers | com.unity.media.blackmagic/Runtime/DeckLinkUtilities/DeckLinkDeviceEnumerator.cs:604-614 | setting one bit leaves every other frame rate's bit as it was |
| VideoModeRegistries.Registered | com.unity.media.blackmagic/Runtime/DeckLinkUtilities/DeckLinkDeviceEnumerator.cs:501-512 | RegisterMode keeps the SupportMap's shape (one bitfield per resolution, per scan mode and resolution) |
| VideoModeRegistries.RegisteredExact | com.unity.media.blackmagic/Runtime/DeckLinkUtilities/DeckLinkDeviceEnumerator.cs:501-553 | after RegisterMode a resolution, (resolution, frame rate) or triple is supported exactly when it was before or the registered mode has it |
| VideoModeRegistries.RegisteredAllExact | com.unity.media.blackmagic/Runtime/DeckLinkUtilities/DeckLinkDeviceEnumerator.cs:478-479 | after registering a list, a resolution, (resolution, frame rate) or triple is supported exactly when it was before or some listed mode has it, and the count grows by the list's length |
| VideoModeRegistries.LoadedStep | com.unity.media.blackmagic/Runtime/DeckLinkUtilities/DeckLinkDeviceEnumerator.cs:474-480 | loading one more mode is registering it after the others |
| VideoModeRegistries.LoadedExact | com.unity.media.blackmagic/Runtime/DeckLinkUtilities/DeckLinkDeviceEnumerator.cs:474-480 | a SupportMap loaded with a list of modes supports exactly what the list offers and counts its modes |
| VideoModeRegistries.LoadedIsConsistent | com.unity.media.blackmagic/Runtime/DeckLinkUtilities/DeckLinkDeviceEnumerator.cs:531-553 | in a loaded SupportMap a supported triple has a supported (resolution, frame rate), and that a supported resolution |
| VideoModeRegistries.KnownModes | com.unity.media.blackmagic/Runtime/DeckLinkUtilities/DeckLinkDeviceEnumerator.cs:493-498 | the modes of LoadSDKModeValues: no more modes than codes |
| VideoModeRegistries.KnownModesStep | com.unity.media.blackmagic/Runtime/DeckLinkUtilities/DeckLinkDeviceEnumerator.cs:493-498 | one more code adds its mode when the registry knows it and nothing otherwise |
| VideoModeRegistries.KnownModesExact | com.unity.media.blackmagic/Runtime/DeckLinkUtilities/DeckLinkDeviceEnumerator.cs:493-498 | a mode is among the modes loaded from a list of codes exactly when it is a table row whose code is in the list |
| VideoModeRegistries.LoadedMatchesFind | com.unity.media.blackmagic/Runtime/DeckLinkUtilities/DeckLinkDeviceEnumerator.cs:549-553 | a SupportMap loaded with rows of unique triples supports a triple exactly when the search by triple finds a row |
| VideoModeRegistries.TableSupportMatchesGetMode | com.unity.media.blackmagic/Runtime/DeckLinkUtilities/DeckLinkDeviceEnumerator.cs:705 | the registry's own SupportMap supports a triple exactly when GetMode finds a mode for it |
| VideoModeRegistries.DeviceSupportExact | com.unity.media.blackmagic/Runtime/DeckLinkUtilities/DeckLinkDeviceEnumerator.cs:489-499 | a SupportMap loaded with a device's codes supports a triple exactly when the code of a table mode with that triple is among them |
| VideoModeRegistries.ClearedAsWritten | com.unity.media.blackmagic/Runtime/DeckLinkUtilities/DeckLinkDeviceEnumerator.cs:517-521 | Clear as written resets the count and the frame rates per resolution but keeps the frame rates per scan mode |
| VideoModeRegistries.LoadedAsWritten | com.unity.media.blackmagic/Runtime/DeckLinkUtilities/DeckLinkDeviceEnumerator.cs:474-480 | LoadModes as written on a SupportMap loaded before keeps the SupportMap's shape |
| VideoModeRegistries.AsWrittenReloadKeepsStaleScanModes | com.unity.media.blackmagic/Runtime/DeckLinkUtilities/DeckLinkDeviceEnumerator.cs:517-521 | as written, reloading after a device offering 1080i50 with one offering only 1080p50 still reports 1080 at 50 fps as offered interlaced; with the corrected Clear it is not |
| VideoModeRegistries.SupportMap.constructor | com.unity.media.blackmagic/Runtime/DeckLinkUtilities/DeckLinkDeviceEnumerator.cs:459-469 | fresh bitfields, nothing supported |
| VideoModeRegistries.SupportMap.RegisterMode | com.unity.media.blackmagic/Runtime/DeckLinkUtilities/DeckLinkDeviceEnumerator.cs:501-512 | the new contents are Registered of the old |
| VideoModeRegistries.SupportMap.Clear | com.unity.media.blackmagic/Runtime/DeckLinkUtilities/DeckLinkDeviceEnumerator.cs:517-521 | corrected Clear: every bitfield is zero and the count is zero |
| VideoModeRegistries.SupportMap.LoadModes | com.unity.media.blackmagic/Runtime/DeckLinkUtilities/DeckLinkDeviceEnumerator.cs:474-480 | the new contents are those of the list loaded into a cleared SupportMap |
| VideoModeRegistries.SupportMap.LoadSDKModeValues | com.unity.media.blackmagic/Runtime/DeckLinkUtilities/DeckLinkDeviceEnumerator.cs:489-499 | the new contents are those of the known modes of the codes, loaded in order |
| VideoModeRegistries.SupportMap.RegisterSDKModeValue | com.unity.media.blackmagic/Runtime/DeckLinkUtilities/DeckLinkDeviceEnumerator.cs:495-497 | a known code registers its mode; an unknown one changes nothing |
| VideoModeRegistries.SupportMap.RegisterFound | com.unity.media.blackmagic/Runtime/DeckLinkUtilities/DeckLinkDeviceEnumerator.cs:496-497 | a found mode is registered; none changes nothing |
| VideoModeRegistries.SupportMap.GetFrameRates | com.unity.media.blackmagic/Runtime/DeckLinkUtilities/DeckLinkDeviceEnumerator.cs:560-576 | exactly the supported frame rates of the resolution, in ascending order |
| VideoModeRegistries.SupportMap.GetScanModes | com.unity.media.blackmagic/Runtime/DeckLinkUtilities/DeckLinkDeviceEnumerator.cs:584-602 | nothing for an unsupported resolution; otherwise exactly the scan modes the (resolution, frame rate) is supported with, in ascending order |
| VideoModeRegistries.NextKeysAreNew | com.unity.media.blackmagic/Runtime/DeckLinkUtilities/DeckLinkDeviceEnumerator.cs:698-699 | with unique codes and triples the next row's keys are not yet in the dictionaries, so Dictionary.Add does not throw |
| VideoModeRegistries.IndexModes | com.unity.media.blackmagic/Runtime/DeckLinkUtilities/DeckLinkDeviceEnumerator.cs:688-712 | the dictionaries hold exactly the rows under their keys, one entry per row in each, so the constructor's count assertions hold |
| VideoModeRegistries.IndexRow | com.unity.media.blackmagic/Runtime/DeckLinkUtilities/DeckLinkDeviceEnumerator.cs:698-699 | one loop step adds row n to both dictionaries under new keys |
| VideoModeRegistries.CodesStep | com.unity.media.blackmagic/Runtime/DeckLinkUtilities/DeckLinkDeviceEnumerator.cs:698 | adding row n under its code extends the dictionary of the first n rows to the first n+1 |
| VideoModeRegistries.TriplesStep | com.unity.media.blackmagic/Runtime/DeckLinkUtilities/DeckLinkDeviceEnumerator.cs:699 | adding row n under its (resolution, frame rate) in its scan mode's dictionary extends the dictionaries of the first n rows to the first n+1 |
| VideoModeRegistries.IndexModeTable | com.unity.media.blackmagic/Runtime/DeckLinkUtilities/DeckLinkDeviceEnumerator.cs:688-712 | the constructor's loop over the table: one entry per row in the dictionary by code and across the dictionaries by triple |
| VideoModeRegistries.DictionaryAgreesOnCode | com.unity.media.blackmagic/Runtime/DeckLinkUtilities/DeckLinkDeviceEnumerator.cs:727-731 | looking a code up in the dictionary gives what the search of the rows gives |
| VideoModeRegistries.DictionaryAgreesOnTriple | com.unity.media.blackmagic/Runtime/DeckLinkUtilities/DeckLinkDeviceEnumerator.cs:741-743 | looking a triple up in its scan mode's dictionary gives what the search of the rows gives |
| VideoModeRegistries.VideoModeRegistry.constructor | com.unity.media.blackmagic/Runtime/DeckLinkUtilities/DeckLinkDeviceEnumerator.cs:649-713 | one dictionary entry per row by code and by triple, and the SupportMap loaded with the whole table |
| VideoModeRegistries.VideoModeRegistry.GetModeFromSDK | com.unity.media.blackmagic/Runtime/DeckLinkUtilities/DeckLinkDeviceEnumerator.cs:722-732 | the dictionary lookup gives the table's mode for the code, nothing for the "unknown mode" value |
| VideoModeRegistries.VideoModeRegistry.GetMode | com.unity.media.blackmagic/Runtime/DeckLinkUtilities/DeckLinkDeviceEnumerator.cs:739-744 | the dictionary lookup gives the table's mode for the triple |
| ConnectorMappings.IsKeyingModeCompatible | com.unity.media.blackmagic/Runtime/DeckLinkOutputDevice/OutputKeyingMode.cs:30-43 | only a named mapping other than four half-duplex sub-devices admits keying |
| ConnectorMappings.IsLinkModeCompatible | com.unity.media.blackmagic/Runtime/DeckLinkOutputDevice/OutputLinkMode.cs:19-32 | only a mapping with a single sub-device admits link modes |
| ConnectorMappings.KeyingByShape | com.unity.media.blackmagic/Runtime/DeckLinkOutputDevice/OutputKeyingMode.cs:30-43 | keying is admitted exactly by the mappings with one sub-device or with full-duplex sub-devices |
| ConnectorMappings.LinkByShape | com.unity.media.blackmagic/Runtime/DeckLinkOutputDevice/OutputLinkMode.cs:19-32 | link modes are admitted exactly by the mappings with one sub-device |
| ConnectorMappings.LinkCompatibleIsKeyingCompatible | com.unity.media.blackmagic/Runtime/DeckLinkOutputDevice/OutputLinkMode.cs:19-32 | every mapping that admits link modes admits keying |
| ConnectorMappings.MaskOf | com.unity.media.blackmagic/Runtime/DeckLinkDeviceManager/DeckLinkManagerDeviceDiscovery.cs:303-305 | OR-ing the flags of a list of modes sets no bit above the three flags |
| ConnectorMappings.FlagBits | com.unity.media.blackmagic/Runtime/DeckLinkOutputDevice/OutputKeyingMode.cs:15-25 | each mode flag is a single bit |
| ConnectorMappings.MaskIsLossless | com.unity.media.blackmagic/Runtime/DeckLinkDeviceManager/DeckLinkManagerDeviceDiscovery.cs:303-305 | a flag's bit is in the OR of a list of flags exactly when the flag is in the list |
| OutputAudio.GetEnableAudioAndSampleRate | com.unity.media.blackmagic/Runtime/DeckLinkOutputDevice/DeckLinkOutputDeviceAudio.cs:82-99 | audio is on exactly when the mode is not Disabled and the speaker mode is in the channel table; the channel count is the table's when on and 0 when off; the engine's sample rate passes through |
| OutputAudio.EnabledIffChannels | com.unity.media.blackmagic/Runtime/DeckLinkOutputDevice/DeckLinkOutputDeviceAudio.cs:53-99 | audio is announced exactly when it has channels, and never more than eight |
| OutputAudio.RawDisablesAudio | com.unity.media.blackmagic/Runtime/DeckLinkOutputDevice/DeckLinkOutputDeviceAudio.cs:53-90 | the Raw speaker mode never enables audio, and every other engine speaker mode has a channel count |
| OutputAudio.Setup | com.unity.media.blackmagic/Runtime/DeckLinkOutputDevice/DeckLinkOutputDeviceAudio.cs:101-129 | an AudioListener without a listener changes nothing; with one a component is attached; MainOutput records whether the renderer started; SameAsInput with an input device registers one callback; nothing else changes |
| OutputAudio.Cleanup | com.unity.media.blackmagic/Runtime/DeckLinkOutputDevice/DeckLinkOutputDeviceAudio.cs:131-145 | the first applicable undoing only: a started renderer is stopped, or outside play mode a live listener component is destroyed, or the input device's callback removed |
| OutputAudio.CleanupUndoesSetup | com.unity.media.blackmagic/Runtime/DeckLinkOutputDevice/DeckLinkOutputDeviceAudio.cs:101-145 | a session set up from no hooks and cleaned up with the same settings leaves no input callback, stops the renderer exactly when it started it, and outside play mode leaves no listener component |
| OutputAudio.OutputDeviceAudio.constructor | com.unity.media.blackmagic/Runtime/DeckLinkOutputDevice/DeckLinkOutputDeviceAudio.cs:50-51 | the settings given and no hooks |
| OutputAudio.OutputDeviceAudio.SetupAudioOutput | com.unity.media.blackmagic/Runtime/DeckLinkOutputDevice/DeckLinkOutputDeviceAudio.cs:101-129 | the new hooks are Setup of the old ones under the device's settings |
| OutputAudio.OutputDeviceAudio.CleanupAudioOutput | com.unity.media.blackmagic/Runtime/DeckLinkOutputDevice/DeckLinkOutputDeviceAudio.cs:131-145 | the new hooks are Cleanup of the old ones under the device's settings |
| BaseDevices.ActiveDevices.constructor | com.unity.media.blackmagic/Runtime/BaseDeckLinkDevice.cs:28-30 | the static counter starts at zero, counting no device |
| BaseDevices.ActiveDevices.Increment | com.unity.media.blackmagic/Runtime/BaseDeckLinkDevice.cs:179-182 | the counter grows by one and counts the device, which it did not before |
| BaseDevices.ActiveDevices.Decrement | com.unity.media.blackmagic/Runtime/BaseDeckLinkDevice.cs:185-188 | the counter shrinks by one and stops counting the device, which it counted before |
| BaseDevices.BaseDevice.constructor | com.unity.media.blackmagic/Runtime/BaseDeckLinkDevice.cs:37-62 | a new component: no device selected, a queue of three, nothing requested, not initialized |
| BaseDevices.BaseDevice.SetQueueLength | com.unity.media.blackmagic/Runtime/BaseDeckLinkDevice.cs:76-80 | the stored queue length is the value clamped to 1..8 |
| BaseDevices.BaseDevice.SetUpdateInEditor | com.unity.media.blackmagic/Runtime/BaseDeckLinkDevice.cs:106-123 | a new value is stored, asks for a life-cycle update and plays or stops the graph, so the getter reads the new value; the current value changes nothing |
| BaseDevices.BaseDevice.SetDeviceSelection | com.unity.media.blackmagic/Runtime/BaseDeckLinkDevice.cs:131-146 | a new value is stored and asks for a life-cycle update, and for a reinitialisation when the device is initialized; the current value changes nothing |
| BaseDevices.BaseDevice.Update | com.unity.media.blackmagic/Runtime/BaseDeckLinkDevice.cs:164-171 | the life cycle is updated only when asked for, and the request is cleared; the counter still counts exactly the initialized devices |
| BaseDevices.BaseDevice.UpdateLifeCycle | com.unity.media.blackmagic/Runtime/BaseDeckLinkDevice.cs:173-191 | the device is initialized afterwards as LifeCycleResult says, is counted exactly while initialized, no other device's count changes, and Cleanup runs once when an initialized device should stop |
| BaseDevices.BaseDevice.OnEnable | com.unity.media.blackmagic/Runtime/BaseDeckLinkDevice.cs:193-196 | a life-cycle update is asked for |
| BaseDevices.BaseDevice.OnDisable | com.unity.media.blackmagic/Runtime/BaseDeckLinkDevice.cs:203-216 | an initialized device is cleaned up once and uncounted; afterwards it is neither initialized nor counted |
| BaseDevices.LifeCycleResult | com.unity.media.blackmagic/Runtime/BaseDeckLinkDevice.cs:173-191 | a device is initialized after an update only when it should run; one that was initialized and should run stays so; one that was not becomes initialized exactly when it should run and Initialize succeeds |
| BaseDevices.ActiveIsCounted | com.unity.media.blackmagic/Runtime/BaseDeckLinkDevice.cs:28-30 | an active device is counted, so the count of active devices is non-zero while any device is active (same file, line 95) |
| FrameManagers.VideoIOFrameManager.constructor | com.unity.media.blackmagic/Runtime/DeckLinkDeviceManager/VideoIOFrameManager.cs:22-25 | both counters at zero, no device registered, no hook in the player loop |
| FrameManagers.VideoIOFrameManager.GetInputDevice | com.unity.media.blackmagic/Runtime/DeckLinkDeviceManager/VideoIOFrameManager.cs:32-35 | a device is given exactly when the key is registered, and it is the one registered under it |
| FrameManagers.VideoIOFrameManager.GetOutputDevice | com.unity.media.blackmagic/Runtime/DeckLinkDeviceManager/VideoIOFrameManager.cs:27-30 | a device is given exactly when the key is registered, and it is the one registered under it |
| FrameManagers.VideoIOFrameManager.RegisterInput | com.unity.media.blackmagic/Runtime/DeckLinkDeviceManager/VideoIOFrameManager.cs:65-71 | the device gets the counter's value, which is not in use (so Add does not throw), the counter moves on, only that entry is added, and the hook is injected exactly when this is the only device |
| FrameManagers.VideoIOFrameManager.RegisterOutput | com.unity.media.blackmagic/Runtime/DeckLinkDeviceManager/VideoIOFrameManager.cs:42-48 | as RegisterInput, on the output side |
| FrameManagers.VideoIOFrameManager.OnRegister | com.unity.media.blackmagic/Runtime/DeckLinkDeviceManager/VideoIOFrameManager.cs:83-89 | the hook is injected exactly when one device is registered, and it was not there before |
| FrameManagers.VideoIOFrameManager.UnregisterInput | com.unity.media.blackmagic/Runtime/DeckLinkDeviceManager/VideoIOFrameManager.cs:77-81 | only the entry under the device's index goes, and the hook stays exactly while some device is registered |
| FrameManagers.VideoIOFrameManager.UnregisterOutput | com.unity.media.blackmagic/Runtime/DeckLinkDeviceManager/VideoIOFrameManager.cs:54-58 | as UnregisterInput, on the output side |
| FrameManagers.VideoIOFrameManager.OnUnregister | com.unity.media.blackmagic/Runtime/DeckLinkDeviceManager/VideoIOFrameManager.cs:91-97 | the hook is in the player loop afterwards exactly while some device is registered |
| FrameManagers.VideoIOFrameManager.PlayerLoopUpdate | com.unity.media.blackmagic/Runtime/DeckLinkDeviceManager/VideoIOFrameManager.cs:110-123 | every registered input device is updated exactly once, then every registered output device exactly once, and no output update comes before an input update |
| FrameManagers.UpdateAll | com.unity.media.blackmagic/Runtime/DeckLinkDeviceManager/VideoIOFrameManager.cs:112-115 | one foreach over a dictionary: each key exactly once |
| InputPlugins.MakeInputVideoFormat | com.unity.media.blackmagic/Runtime/Internal/DeckLinkInputDevicePlugin.cs:94-116 | the mode is the table's row for the SDK code: a code that is a row's always gets that row, and a mode found always has the code; the byte layout is the pixel format's; the frame duration is 0 without a positive numerator and otherwise the truncated quotient of FlicksPerSecond times the denominator by the numerator; every other field is copied |
| InputPlugins.FormatModeIsRow | com.unity.media.blackmagic/Runtime/Internal/DeckLinkInputDevicePlugin.cs:94-116 | the format carries a mode exactly when the SDK code is that mode's row of the table |
| InputPlugins.FramePeriod | com.unity.media.blackmagic/Runtime/Internal/DeckLinkInputDevicePlugin.cs:108 | the truncated quotient of a non-negative count of flicks is the largest multiple of the divisor that fits |
| InputPlugins.FrameDurationsOfCommonRates | com.unity.media.blackmagic/Runtime/Internal/DeckLinkInputDevicePlugin.cs:108 | at 60000/1001 frames a second a frame lasts exactly 11 771 760 flicks |
| InputPlugins.InputDevicePlugin.constructor | com.unity.media.blackmagic/Runtime/Internal/DeckLinkInputDevicePlugin.cs:351-354 | a plugin with the given device index and no native device |
| InputPlugins.InputDevicePlugin.Dispose | com.unity.media.blackmagic/Runtime/Internal/DeckLinkInputDevicePlugin.cs:386-397 | corrected Dispose: a plugin still holding its index leaves the dictionary whether or not its native device was created; the handle becomes 0 and the index -1, so a second call changes nothing |
| InputPlugins.PluginRegistry.constructor | com.unity.media.blackmagic/Runtime/Internal/DeckLinkInputDevicePlugin.cs:138 | the static dictionary starts empty |
| InputPlugins.Register | com.unity.media.blackmagic/Runtime/Internal/DeckLinkInputDevicePlugin.cs:356 | Dictionary.Add fails with an argument error exactly when the index is already present; otherwise it adds exactly that entry |
| InputPlugins.Dispatch | com.unity.media.blackmagic/Runtime/Internal/DeckLinkInputDevicePlugin.cs:160 | a driver callback reaches a plugin exactly when one is registered under its device index, and it is that plugin (same file, lines 189, 251) |
| InputPlugins.Create | com.unity.media.blackmagic/Runtime/Internal/DeckLinkInputDevicePlugin.cs:342-372 | the new plugin is registered under its index with the handle the driver returned and the selected format built from the driver's report; an index already registered throws and changes nothing |
| InputPlugins.CreateThenDisposeRestores | com.unity.media.blackmagic/Runtime/Internal/DeckLinkInputDevicePlugin.cs:342-397 | with the corrected Dispose, creating and disposing a plugin routes callbacks for its index to it meanwhile, leaves every other index alone, and gives the dictionary back as it was, so the index can be registered again whatever handle the driver returned |
| InputPlugins.AsWrittenRecreateAfterFailedOpenThrows | com.unity.media.blackmagic/Runtime/Internal/DeckLinkInputDevicePlugin.cs:386-397 | as written, a plugin whose native device was not created stays registered after Dispose, and registering the same index again throws |
| InputSynchronization.RoundingOffset | com.unity.media.blackmagic/Runtime/DeckLinkInputDevice/DeckLinkInputDeviceSynchronization.cs:195-209 | the rounding offset is a quarter of a frame (truncated) for interlaced video and half a frame otherwise, never more than half a frame |
| InputSynchronization.Scan | com.unity.media.blackmagic/Runtime/DeckLinkInputDevice/DeckLinkInputDeviceSynchronization.cs:214-231 | the loop stops at a frame of the queue with a status other than DataMissing |
| InputSynchronization.ScanFinds | com.unity.media.blackmagic/Runtime/DeckLinkInputDevice/DeckLinkInputDeviceSynchronization.cs:214-231 | every frame before the one handed back lies wholly before the time; Ahead means the time is before that frame, Ok that the frame contains it at the time-in-frame given, Behind that even the newest frame lies before it, with the last flick of a frame as time-in-frame |
| InputSynchronization.SampleSearch | com.unity.media.blackmagic/Runtime/DeckLinkInputDevice/DeckLinkInputDeviceSynchronization.cs:187-231 | DataMissing, with no frame, exactly for an empty queue; otherwise a frame of the queue |
| InputSynchronization.SampleSearchFinds | com.unity.media.blackmagic/Runtime/DeckLinkInputDevice/DeckLinkInputDeviceSynchronization.cs:187-231 | the same statement as ScanFinds for the search from the oldest frame at the rounded time |
| InputSynchronization.Samples | com.unity.media.blackmagic/Runtime/DeckLinkInputDevice/DeckLinkInputDeviceSynchronization.cs:216-217 | each queued frame is seen by its timecode in flicks and its duration |
| InputSynchronization.TryGetSample | com.unity.media.blackmagic/Runtime/DeckLinkInputDevice/DeckLinkInputDeviceSynchronization.cs:178-232 | the status, frame and time-in-frame handed back are those SampleSearch picks; no frame for an empty queue |
| InputSynchronization.ContiguousSearch | com.unity.media.blackmagic/Runtime/DeckLinkInputDevice/DeckLinkInputDeviceSynchronization.cs:178-232 | on a gapless queue the search is Ahead exactly when the rounded time is before the oldest frame, Ok exactly when the queue covers it, and Behind exactly when it is at or after the end of the newest frame |
| InputSynchronization.StartsAscend | com.unity.media.blackmagic/Runtime/DeckLinkInputDevice/DeckLinkInputDeviceSynchronization.cs:214-228 | on a gapless queue frames start in order, each where the previous one ends |
| InputDevices.OverrideAsksForRequest | com.unity.media.blackmagic/Runtime/DeckLinkInputDevice/DeckLinkInputDevice.cs:145-152 | with the override flag as HandleOverride sets it, the driver is asked for exactly the requested pixel format, and the flag is set exactly when some request departs from the device signal (same file, lines 220-230) |
| InputDevices.UnpackPass | com.unity.media.blackmagic/Runtime/DeckLinkInputDevice/DeckLinkInputDevice.cs:495-506 | pass 0 exactly for video that is not interlaced; lower field first shows pass 1 exactly in the first half of the frame, upper field first pass 2 exactly then |
| InputDevices.FieldsAlternate | com.unity.media.blackmagic/Runtime/DeckLinkInputDevice/DeckLinkInputDevice.cs:495-506 | over one interlaced frame the two halves get different passes, and the two field orders show opposite fields at every time |
| InputDevices.RateOf | com.unity.media.blackmagic/Runtime/DeckLinkInputDevice/DeckLinkInputDeviceSynchronization.cs:163-175 | the denominator and drop-frame flag pass through; the numerator is doubled for interlaced video |
| InputDevices.RatePeriodIsFieldDuration | com.unity.media.blackmagic/Runtime/DeckLinkInputDevice/DeckLinkInputDeviceSynchronization.cs:163-175 | a period of the reported rate lasts as long as a frame of the format, or half a frame (truncated) for interlaced video |
| InputDevices.SampleCount | com.unity.media.blackmagic/Runtime/DeckLinkInputDevice/DeckLinkInputDevice.cs:541-565 | whole samples of the sample type's width fit in the audio buffer and one more does not; a type that is not converted gives none |
| InputDevices.PresentAudio | com.unity.media.blackmagic/Runtime/DeckLinkInputDevice/DeckLinkInputDevice.cs:531-580 | audio reaches the callback exactly when the frame carries some and a callback is registered, with the frame's channel count and its sample count |
| InputDevices.CountDrop | com.unity.media.blackmagic/Runtime/DeckLinkInputDevice/DeckLinkInputDevice.cs:206 | a dropped frame adds one to the unsigned 32-bit count, wrapping to 0 past its largest value; otherwise the count stays (same file, lines 693-696) |
| InputDevices.InputDevice.constructor | com.unity.media.blackmagic/Runtime/DeckLinkInputDevice/DeckLinkInputDevice.cs:36-56 | nothing requested beyond the device signal, a queue length of three, no format, no queue, no dropped frames |
| InputDevices.InputDevice.HandleOverride | com.unity.media.blackmagic/Runtime/DeckLinkInputDevice/DeckLinkInputDevice.cs:145-152 | the override flag is 1 exactly when some request departs from the device signal |
| InputDevices.InputDevice.ChangePixelFormat | com.unity.media.blackmagic/Runtime/DeckLinkInputDevice/DeckLinkInputDevice.cs:155-159 | the request is stored and the override flag agrees with the requests |
| InputDevices.InputDevice.ChangeColorSpace | com.unity.media.blackmagic/Runtime/DeckLinkInputDevice/DeckLinkInputDevice.cs:162-166 | the request is stored and the override flag agrees with the requests |
| InputDevices.InputDevice.ChangeTransferFunction | com.unity.media.blackmagic/Runtime/DeckLinkInputDevice/DeckLinkInputDevice.cs:169-173 | the request is stored and the override flag agrees with the requests |
| InputDevices.InputDevice.SettingsFollowRequest | com.unity.media.blackmagic/Runtime/DeckLinkInputDevice/DeckLinkInputDevice.cs:220-230 | after the setters, the device is set up again exactly when a reinitialisation is pending or the requested pixel format is not the one the driver was asked for |
| InputDevices.InputDevice.InColorSpace | com.unity.media.blackmagic/Runtime/DeckLinkInputDevice/DeckLinkInputDevice.cs:179 | the requested colour space unless it defers to the signal, then the format's, or the default without a format |
| InputDevices.InputDevice.GetFrameRate | com.unity.media.blackmagic/Runtime/DeckLinkInputDevice/DeckLinkInputDeviceSynchronization.cs:156-176 | the default 0/0 rate while inactive or without a format; otherwise the format's rate as RateOf gives it, with the cached drop-frame flag |
| InputDevices.InputDevice.OnVideoFormatChanged | com.unity.media.blackmagic/Runtime/DeckLinkInputDevice/DeckLinkInputDevice.cs:653-672 | the format is stored and the old queue's frames disposed; a new empty queue of QueueLength frames sized for the format replaces it and the dropped count restarts; a negative buffer size throws, caught, leaving the disposed queue |
| InputDevices.InputDevice.OnFrameArrived | com.unity.media.blackmagic/Runtime/DeckLinkInputDevice/DeckLinkInputDevice.cs:674-729 | ignored without a queue; otherwise the frame joins the back of the queue (the oldest leaves a full queue), a dropped frame is counted exactly when a Queued frame was overwritten, and after a good copy the newest frame is Queued with the arrived duration and its drop-frame flag cached |
| InputDevices.InputDevice.MakeMemcpy | com.unity.media.blackmagic/Runtime/DeckLinkInputDevice/DeckLinkInputDevice.cs:685-688 | the copy engine exists afterwards and an existing one is kept |
| InputDevices.InputDevice.EnqueueArrived | com.unity.media.blackmagic/Runtime/DeckLinkInputDevice/DeckLinkInputDevice.cs:690-696 | the slot past the back is taken, the queue contents move on by one frame, and a drop is counted exactly when a never-shown frame was overwritten |
| InputDevices.InputDevice.CopyArrived | com.unity.media.blackmagic/Runtime/DeckLinkInputDevice/DeckLinkInputDevice.cs:698-701 | after a good copy the frame is Queued with the video's duration and the drop-frame flag is cached; a failed copy leaves the status and the flag |
| InputDevices.InputDevice.PresentFrame | com.unity.media.blackmagic/Runtime/DeckLinkInputDevice/DeckLinkInputDevice.cs:464-482 | a frame shown for the first time restarts the elapsed time and hands its audio on; the unpack pass follows the given time into the frame, or the elapsed time; the frame becomes Presented and the elapsed time grows by the frame's delta |
| InputDevices.InputDevice.PerformUpdate | com.unity.media.blackmagic/Runtime/DeckLinkInputDevice/DeckLinkInputDevice.cs:415-462 | nothing while inactive or without a queue; otherwise the queue is resized to QueueLength keeping the newest frames, an empty queue resets the timestamp, and else the second oldest frame (or the only one) gives the timestamp and is shown unless the device is synchronised |
| InputDevices.InputDevice.PresentOldest | com.unity.media.blackmagic/Runtime/DeckLinkInputDevice/DeckLinkInputDevice.cs:430-457 | the frame choice of PerformUpdate on the resized queue, leaving the queue contents as they are |
| InputDevices.InputDevice.PresentAt | com.unity.media.blackmagic/Runtime/DeckLinkInputDevice/DeckLinkInputDeviceSynchronization.cs:89-127 | DataMissing and nothing shown while inactive, not synchronised or without a queue; otherwise the status is the search's at the presentation time, and the frame it finds is shown at the time into it that the search gives, with the elapsed time restarted for a frame shown for the first time and advanced by the delta time; every other slot, and the queue order, are unchanged |
| InputDevices.InputDevice.TryGetBufferRangeAsWritten | com.unity.media.blackmagic/Runtime/DeckLinkInputDevice/DeckLinkInputDeviceSynchronization.cs:70-86 | as written: no range while inactive or without a queue, the oldest and newest frames' timecodes for queued frames, and an invalid-operation fault for an active device with an empty queue |
| InputDevices.InputDevice.TryGetBufferRange | com.unity.media.blackmagic/Runtime/DeckLinkInputDevice/DeckLinkInputDeviceSynchronization.cs:70-86 | corrected: never fails, and gives a range exactly for an active device with queued frames, from the oldest to the newest frame's timecode |
| InputDevices.AsWrittenBufferRangeThrowsBeforeFirstFrame | com.unity.media.blackmagic/Runtime/DeckLinkInputDevice/DeckLinkInputDeviceSynchronization.cs:70-86 | right after a format change, TryGetBufferRange as written throws on an active device where the corrected one reports no range |
| OutputDevices.DefaultVideoModeIsRegistered | com.unity.media.blackmagic/Runtime/DeckLinkOutputDevice/DeckLinkOutputDevice.cs:217-226 | the default mode, 1080p at 24 frames a second, is the registered mode of its triple in the mode table |
| OutputDevices.KeyingAvailableFormats | com.unity.media.blackmagic/Runtime/DeckLinkOutputDevice/DeckLinkOutputDevice.cs:1223-1233 | keying is available exactly for ARGB 8-bit and BGRA 8-bit, and not for the YUV, 10- and 12-bit RGB or best-quality formats |
| OutputDevices.FedTimecode | com.unity.media.blackmagic/Runtime/DeckLinkOutputDevice/DeckLinkOutputDevice.cs:1185 | a frame's own timecode is kept; otherwise one is built from the frame counter times the duration, and that throws a division by zero exactly when the duration is 0 |
| OutputDevices.Drain | com.unity.media.blackmagic/Runtime/DeckLinkOutputDevice/DeckLinkOutputDevice.cs:1155-1196 | the drain feeds and leaves no more frames than the queue held |
| OutputDevices.Kept | com.unity.media.blackmagic/Runtime/DeckLinkOutputDevice/DeckLinkOutputDevice.cs:1162-1180 | the kept frames come from the queue and none of them has a failed readback |
| OutputDevices.FedFrames | com.unity.media.blackmagic/Runtime/DeckLinkOutputDevice/DeckLinkOutputDevice.cs:1190 | the released frame numbers are exactly those of the fed frames |
| OutputDevices.DrainLeavesTail | com.unity.media.blackmagic/Runtime/DeckLinkOutputDevice/DeckLinkOutputDevice.cs:1155-1196 | what is left is a tail of the queue; without an exception a synchronous drain empties the queue and an asynchronous one stops at a readback neither failed nor done; an exception is a division by zero at a frame without timecode when the duration is 0 |
| OutputDevices.DrainDrops | com.unity.media.blackmagic/Runtime/DeckLinkOutputDevice/DeckLinkOutputDevice.cs:1162-1167 | a failed readback, found before or after waiting, is dropped and the drain goes on (same file, lines 1178-1183) |
| OutputDevices.DrainFeeds | com.unity.media.blackmagic/Runtime/DeckLinkOutputDevice/DeckLinkOutputDevice.cs:1185-1193 | a finished readback that did not fail is fed ahead of whatever the rest of the queue feeds |
| OutputDevices.DrainFeedsInOrder | com.unity.media.blackmagic/Runtime/DeckLinkOutputDevice/DeckLinkOutputDevice.cs:1155-1196 | the frames fed are, in queue order, exactly the frames without a failed readback in the consumed part of the queue |
| OutputDevices.FedFramesAppend | com.unity.media.blackmagic/Runtime/DeckLinkOutputDevice/DeckLinkOutputDevice.cs:1190 | feeding one more frame adds exactly its number to the released set |
| OutputDevices.FieldStep | com.unity.media.blackmagic/Runtime/DeckLinkOutputDevice/DeckLinkOutputDevice.cs:1091-1124 | progressive video queues on every call and leaves the field cache alone; interlaced video queues exactly when a field was cached and flips the cache |
| OutputDevices.FieldsAlternateOutput | com.unity.media.blackmagic/Runtime/DeckLinkOutputDevice/DeckLinkOutputDevice.cs:1091-1124 | over n calls progressive video queues n frames; interlaced video queues one frame per two calls and holds a field after an odd count |
| OutputDevices.OutputDevice.constructor | com.unity.media.blackmagic/Runtime/DeckLinkOutputDevice/DeckLinkOutputDevice.cs:116-211 | a new component has the default mode, YUV 8-bit in BT.709 with HLG, no keying, a single link, no plugin, an empty queue and the default mode as the last polled one |
| OutputDevices.OutputDevice.UpdateSettings | com.unity.media.blackmagic/Runtime/DeckLinkOutputDevice/DeckLinkOutputDevice.cs:547-562 | an update is due exactly when a requested setting differs from the one in use or a reinitialisation is pending; when none is due the resources are marked not updated |
| OutputDevices.OutputDevice.ApplySettings | com.unity.media.blackmagic/Runtime/DeckLinkOutputDevice/DeckLinkOutputDevice.cs:835-856 | after a successful reinitialisation the frame queue is empty, no odd field is cached and the readback pool is empty; the settings in use are the requested ones and the frame count restarts; on a valid configuration outside BT.2020, keying is initialised exactly when a keying mode is set, the card can key in it and the driver accepts; no further update is due |
| OutputDevices.OutputDevice.DestroyResources | com.unity.media.blackmagic/Runtime/DeckLinkOutputDevice/DeckLinkOutputDevice.cs:788-833 | the frame queue is emptied, the cached odd field released and the readback pool emptied |
| OutputDevices.OutputDevice.CreatePlugin | com.unity.media.blackmagic/Runtime/DeckLinkOutputDevice/DeckLinkOutputDevice.cs:858-918 | the new plugin runs with the requested pixel format, colour space, transfer function and sync mode, from frame 0 |
| OutputDevices.OutputDevice.InitializeKeyingPlugin | com.unity.media.blackmagic/Runtime/DeckLinkOutputDevice/DeckLinkOutputDevice.cs:749-766 | BT.2020 leaves the keying flag alone; otherwise keying is initialised exactly when a keying mode is set, the card can key in it and the driver accepts |
| OutputDevices.OutputDevice.ChangePixelFormat | com.unity.media.blackmagic/Runtime/DeckLinkOutputDevice/DeckLinkOutputDevice.cs:380 | the request is stored, and a format other than the one in use makes an update due |
| OutputDevices.OutputDevice.ChangeColorSpace | com.unity.media.blackmagic/Runtime/DeckLinkOutputDevice/DeckLinkOutputDevice.cs:383 | the request is stored, and a colour space other than the one in use makes an update due |
| OutputDevices.OutputDevice.ChangeTransferFunction | com.unity.media.blackmagic/Runtime/DeckLinkOutputDevice/DeckLinkOutputDevice.cs:386 | the request is stored, and a transfer function other than the one in use makes an update due |
| OutputDevices.OutputDevice.FrameDuration | com.unity.media.blackmagic/Runtime/DeckLinkOutputDevice/DeckLinkOutputDevice.cs:279-281 | 0 without a plugin, the plugin's duration for progressive video, and half of it truncated for interlaced video |
| OutputDevices.OutputDevice.SetFormatName | com.unity.media.blackmagic/Runtime/DeckLinkOutputDevice/DeckLinkOutputDevice.cs:255-266 | the name is stored, and a changed name asks for a reinitialisation unless the mode follows an input device |
| OutputDevices.OutputDevice.ChangeVideoConfigurationAsWritten | com.unity.media.blackmagic/Runtime/DeckLinkOutputDevice/DeckLinkOutputDevice.cs:428-443 | as written: a triple that is no mode while following an input device throws after following stops; a registered new mode is stored with its name and asks for a reinitialisation; otherwise nothing changes |
| OutputDevices.OutputDevice.ChangeVideoConfiguration | com.unity.media.blackmagic/Runtime/DeckLinkOutputDevice/DeckLinkOutputDevice.cs:428-443 | corrected: true exactly for a registered triple, whose code is then the device's mode and round-trips through the table; a new mode asks for a reinitialisation; an unknown triple changes nothing |
| OutputDevices.OutputDevice.ChangeKeyingMode | com.unity.media.blackmagic/Runtime/DeckLinkOutputDevice/DeckLinkOutputDevice.cs:446-471 | the same mode reports false; otherwise the mode is stored, and an active device reports false for an incompatible mapping or BT.2020 output and else the driver's answer, initializing keying when it was not; no setting needing a new driver changes |
| OutputDevices.OutputDevice.InitializeKeying | com.unity.media.blackmagic/Runtime/DeckLinkOutputDevice/DeckLinkOutputDevice.cs:631-639 | keying counts as initialized exactly when the driver accepts it, and that is the result |
| OutputDevices.OutputDevice.ChangeLinkModeAsWritten | com.unity.media.blackmagic/Runtime/DeckLinkOutputDevice/DeckLinkOutputDevice.cs:473-492 | as written: true for a new mode on an inactive device or a card that cannot link in it, else the driver's answer; false for the current mode |
| OutputDevices.OutputDevice.ChangeLinkMode | com.unity.media.blackmagic/Runtime/DeckLinkOutputDevice/DeckLinkOutputDevice.cs:473-492 | corrected: an active device reports true only when the card can link in the mode and the driver accepts it |
| OutputDevices.OutputDevice.ResolveSDKDisplayMode | com.unity.media.blackmagic/Runtime/DeckLinkOutputDevice/DeckLinkOutputDevice.cs:1288-1298 | the own mode unless following an input device; then that device's mode when its format has a known mode, and none otherwise |
| OutputDevices.OutputDevice.PollSameVideoModeAsInputDevice | com.unity.media.blackmagic/Runtime/DeckLinkOutputDevice/DeckLinkOutputDevice.cs:1300-1306 | the resolved mode is returned and recorded, reported as changed exactly when it differs from the last poll, so a second poll reports no change |
| OutputDevices.OutputDevice.ChangeSameVideoModeAsInputDevice | com.unity.media.blackmagic/Runtime/DeckLinkOutputDevice/DeckLinkOutputDevice.cs:495-508 | the switch and device are stored and polled; the result says whether either changed, and a changed resolved mode asks for a reinitialisation |
| OutputDevices.OutputDevice.SetTimecodeOverride | com.unity.media.blackmagic/Runtime/DeckLinkOutputDevice/DeckLinkOutputDevice.cs:511-514 | the override is stored and from then on is the timecode GetTimecode gives |
| OutputDevices.OutputDevice.GetTimecode | com.unity.media.blackmagic/Runtime/DeckLinkOutputDevice/DeckLinkOutputDevice.cs:1235-1286 | an override first; else, in the same-as-input mode while following an input device, that device's timestamp; else none |
| OutputDevices.OutputDevice.Timestamp | com.unity.media.blackmagic/Runtime/DeckLinkOutputDevice/DeckLinkOutputDevice.cs:232-246 | GetTimecode's timecode, else the timecode of the frame counter at the plugin's duration, else the default timecode without a plugin or with a zero duration |
| OutputDevices.OutputDevice.EncodeFrameAndAddToQueue | com.unity.media.blackmagic/Runtime/DeckLinkOutputDevice/DeckLinkOutputDevice.cs:1066-1153 | nothing for a frame of one pixel or less; else the field step decides, and a queued frame carries the frame number, the issued readback, which locks that number, and the current timecode |
| OutputDevices.OutputDevice.ProcessFrameQueue | com.unity.media.blackmagic/Runtime/DeckLinkOutputDevice/DeckLinkOutputDevice.cs:1155-1196 | the frames fed, the frames left and the exception are Drain's; the counter advances by the number fed and exactly their locks are released |
| OutputDevices.OutputDevice.Advance | com.unity.media.blackmagic/Runtime/DeckLinkOutputDevice/DeckLinkOutputDevice.cs:1190-1193 | the frame's lock is released, the counter advanced by one and the oldest frame dequeued |
| DeviceDiscovery.DeckLinkCard.constructor | com.unity.media.blackmagic/Runtime/DeckLinkDeviceManager/DeckLinkManagerDeviceDiscovery.cs:30-40 | a new card has no mappings, no logical devices, no used devices, empty masks, and counts as keying- and link-compatible |
| DeviceDiscovery.DeckLinkCard.ResetValues | com.unity.media.blackmagic/Runtime/DeckLinkDeviceManager/DeckLinkManagerDeviceDiscovery.cs:42-48 | the mappings, both masks and the group are cleared |
| DeviceDiscovery.FirstListing | com.unity.media.blackmagic/Runtime/DeckLinkDeviceManager/DeckLinkManagerDeviceDiscovery.cs:448-457 | the position of the first card that lists the logical device: no card before it lists it, and it lists it unless it is past the end (same file, lines 470-478) |
| DeviceDiscovery.FreeSum | com.unity.media.blackmagic/Runtime/DeckLinkDeviceManager/DeckLinkManagerDeviceDiscovery.cs:519-522 | a sum of free devices over cards that each have no more taken than listed is not negative |
| DeviceDiscovery.FreeBeforeSteps | com.unity.media.blackmagic/Runtime/DeckLinkDeviceManager/DeckLinkManagerDeviceDiscovery.cs:514-523 | the offset, card by card as the foreach with its break computes it: 0 at a card that lists the device, else that card's free devices plus the offset over the rest |
| DeviceDiscovery.FreeSumFront | com.unity.media.blackmagic/Runtime/DeckLinkDeviceManager/DeckLinkManagerDeviceDiscovery.cs:514-523 | a sum over cards is the first card's share plus the sum over the rest |
| DeviceDiscovery.FreeBeforeBounds | com.unity.media.blackmagic/Runtime/DeckLinkDeviceManager/DeckLinkManagerDeviceDiscovery.cs:492-526 | when no card has more devices taken than listed, an offset is between 0 and the devices on the cards before the one that lists the device |
| DeviceDiscovery.FreeSumAtMost | com.unity.media.blackmagic/Runtime/DeckLinkDeviceManager/DeckLinkManagerDeviceDiscovery.cs:514-523 | the free devices over a run of cards are at most the devices listed on them |
| DeviceDiscovery.Enabled | com.unity.media.blackmagic/Runtime/DeckLinkDeviceManager/DeckLinkManagerDeviceDiscovery.cs:300-307 | a mode is enabled exactly when it is in the list and the driver reports it compatible (same file, lines 315-325) |
| DeviceDiscovery.LinkMaskExact | com.unity.media.blackmagic/Runtime/DeckLinkDeviceManager/DeckLinkManagerDeviceDiscovery.cs:295-308 | a link mode's bit is in the cached mask exactly when the driver reports it compatible, and no bit outside the three link modes is set |
| DeviceDiscovery.KeyingMaskExact | com.unity.media.blackmagic/Runtime/DeckLinkDeviceManager/DeckLinkManagerDeviceDiscovery.cs:310-326 | a keying mode's bit is in the cached mask exactly when it is not None and the driver reports it compatible |
| DeviceDiscovery.MaskStep | com.unity.media.blackmagic/Runtime/DeckLinkDeviceManager/DeckLinkManagerDeviceDiscovery.cs:300-307 | one more mode looked at OR-s in its bit exactly when it is compatible |
| DeviceDiscovery.LinkModeCompatibility | com.unity.media.blackmagic/Runtime/DeckLinkDeviceManager/DeckLinkManagerDeviceDiscovery.cs:331-342 | link modes stay available when the mapping did not change or the card has no mappings; otherwise exactly when the mapping has a single sub-device |
| DeviceDiscovery.KeyingModeCompatibility | com.unity.media.blackmagic/Runtime/DeckLinkDeviceManager/DeckLinkManagerDeviceDiscovery.cs:345-353 | keying stays available only when the mapping did not change and the card has no mappings; otherwise exactly when the mapping has one sub-device or is full duplex |
| DeviceDiscovery.CompatibilityCachesCompared | com.unity.media.blackmagic/Runtime/DeckLinkDeviceManager/DeckLinkManagerDeviceDiscovery.cs:331-353 | after a mapping change link compatibility implies keying compatibility; without one, a card with mappings keeps link modes while the four-sub-device half-duplex mapping refuses keying |
| DeviceDiscovery.FindLogicalDevice | com.unity.media.blackmagic/Runtime/DeckLinkDeviceManager/DeckLinkManagerDeviceDiscovery.cs:272-279 | the loop finds the name exactly when the card lists it |
| DeviceDiscovery.DeckLinkManager.CheckIfInputDeviceIsUsed | com.unity.media.blackmagic/Runtime/DeckLinkDeviceManager/DeckLinkManagerDeviceDiscovery.cs:269-280 | the card's used input count goes up by one exactly when the card lists the device |
| DeviceDiscovery.DeckLinkManager.CheckIfOutputDeviceIsUsed | com.unity.media.blackmagic/Runtime/DeckLinkDeviceManager/DeckLinkManagerDeviceDiscovery.cs:282-293 | the card's used output count goes up by one exactly when the card lists the device |
| DeviceDiscovery.DeckLinkManager.CacheCompatibleLinkModes | com.unity.media.blackmagic/Runtime/DeckLinkDeviceManager/DeckLinkManagerDeviceDiscovery.cs:295-308 | the card's link mask becomes exactly the mask of the link modes the driver reports compatible |
| DeviceDiscovery.DeckLinkManager.CacheCompatibleKeyingModes | com.unity.media.blackmagic/Runtime/DeckLinkDeviceManager/DeckLinkManagerDeviceDiscovery.cs:310-326 | the card's keying mask becomes exactly the mask of the keying modes other than None the driver reports compatible |
| DeviceDiscovery.DeckLinkManager.CacheLinkModeCompabilities | com.unity.media.blackmagic/Runtime/DeckLinkDeviceManager/DeckLinkManagerDeviceDiscovery.cs:331-342 | the card's link flag is LinkModeCompatibility of its own mapping |
| DeviceDiscovery.DeckLinkManager.CacheKeyingModeCompabilities | com.unity.media.blackmagic/Runtime/DeckLinkDeviceManager/DeckLinkManagerDeviceDiscovery.cs:345-353 | the card's keying flag is KeyingModeCompatibility of its own mapping |
| DeviceDiscovery.DeckLinkManager.ChangedDevicesDuplexMode | com.unity.media.blackmagic/Runtime/DeckLinkDeviceManager/DeckLinkManagerDeviceDiscovery.cs:355-388 | an unknown card changes nothing; otherwise every card's used counts are reset, other cards' flags kept, and the card's flags recached with the mapping counted as changed exactly when listed and accepted by the driver |
| DeviceDiscovery.DeckLinkManager.FindListingCard | com.unity.media.blackmagic/Runtime/DeckLinkDeviceManager/DeckLinkManagerDeviceDiscovery.cs:448-457 | the loop stops at the first card that lists the device |
| DeviceDiscovery.DeckLinkManager.GetOffsetFromDeviceIndex | com.unity.media.blackmagic/Runtime/DeckLinkDeviceManager/DeckLinkManagerDeviceDiscovery.cs:492-526 | 0 for a position outside the type's name list; otherwise the free devices of that type on every card before the first that lists the device |
| DeviceDiscovery.DeckLinkManager.IsKeyingAndLinkModeSupportedAsWritten | com.unity.media.blackmagic/Runtime/DeckLinkDeviceManager/DeckLinkManagerDeviceDiscovery.cs:441-460 | as written: -1 and positions past the end give (false, false); the position equal to the count and those below -1 throw; other positions give the listing card's flags |
| DeviceDiscovery.DeckLinkManager.IsKeyingAndLinkModeSupported | com.unity.media.blackmagic/Runtime/DeckLinkDeviceManager/DeckLinkManagerDeviceDiscovery.cs:441-460 | corrected to the guard of GetDeckLinkCardFromLogicalDevice: only positions below -1 throw; any position naming no output device gives (false, false) |
| DeviceDiscovery.DeckLinkManager.SupportOfListingCard | com.unity.media.blackmagic/Runtime/DeckLinkDeviceManager/DeckLinkManagerDeviceDiscovery.cs:448-459 | the flags of the first card that lists the device, or (false, false) |
| DeviceDiscovery.DeckLinkManager.GetDeckLinkCardFromLogicalDevice | com.unity.media.blackmagic/Runtime/DeckLinkDeviceManager/DeckLinkManagerDeviceDiscovery.cs:462-481 | -1 and positions past the last name give no card; below -1 throws; otherwise the first card that lists the device, which then does list it |
| DeviceDiscovery.CardSupport | com.unity.media.blackmagic/Runtime/DeckLinkDeviceManager/DeckLinkManagerDeviceDiscovery.cs:448-459 | a true flag comes from a card that lists the device and has that flag |
| DeviceHandles.VideoDeviceGameObjectData.constructor | com.unity.media.blackmagic/Runtime/DeckLinkDeviceManager/DeckLinkManagerDeviceHandle.cs:394-411 | the record of a device component takes its name, the component, and the component's selection and old selection as current and old index |
| DeviceHandles.VideoDeviceGameObjectData.SetCurrentVideoDevice | com.unity.media.blackmagic/Runtime/Internal/VideoDeviceGameObjectData.cs:53-59 | the record takes both indices and mirrors them into its device; a changed selection asks the device for a life-cycle update and reinitialises an initialized one |
| DeviceHandles.VideoDeviceGameObjectData.Dispose | com.unity.media.blackmagic/Runtime/Internal/VideoDeviceGameObjectData.cs:40-46 | the record lets go of its device, and both indices become -1 |
| DeviceHandles.IsUniqueIndexDevice | com.unity.media.blackmagic/Runtime/DeckLinkDeviceManager/DeckLinkManagerDeviceHandle.cs:186-191 | a logical device carries a single device exactly under the three half-duplex mappings, which have sub-devices and are not full duplex |
| DeviceHandles.FirstHolding | com.unity.media.blackmagic/Runtime/DeckLinkDeviceManager/DeckLinkManagerDeviceHandle.cs:309-313 | the first record bound to the index: no earlier record is, and it is unless past the end |
| DeviceHandles.FirstNamed | com.unity.media.blackmagic/Runtime/DeckLinkDeviceManager/DeckLinkManagerDeviceHandle.cs:142-146 | the first record with the name: no earlier record has it, and it has it unless past the end |
| DeviceHandles.FirstWithOld | com.unity.media.blackmagic/Runtime/DeckLinkDeviceManager/DeckLinkManagerDeviceHandle.cs:452 | the first record whose old index is the one asked for |
| DeviceHandles.IndexOf | com.unity.media.blackmagic/Runtime/DeckLinkDeviceManager/DeckLinkManagerDeviceHandle.cs:447 | -1 exactly for a name not listed; otherwise the first position holding the name |
| DeviceHandles.FirstHoldingConcat | com.unity.media.blackmagic/Runtime/DeckLinkDeviceManager/DeckLinkManagerDeviceHandle.cs:154-167 | looking among the inputs and then the outputs finds the first holder in the two lists read one after the other (same file, lines 203-211) |
| DeviceHandles.Currents | com.unity.media.blackmagic/Runtime/DeckLinkDeviceManager/DeckLinkManagerDeviceHandle.cs:309-313 | one current index per record |
| DeviceHandles.CurrentsAt | com.unity.media.blackmagic/Runtime/DeckLinkDeviceManager/DeckLinkManagerDeviceHandle.cs:309-313 | the k-th current index is that of the k-th record |
| DeviceHandles.Olds | com.unity.media.blackmagic/Runtime/Internal/VideoDeviceGameObjectData.cs:53-59 | one old index per record |
| DeviceHandles.Rebound | com.unity.media.blackmagic/Runtime/DeckLinkDeviceManager/DeckLinkManagerDeviceHandle.cs:193-218 | a rebinding clears the holder's index to -1 and sets the named record's; every other position is kept |
| DeviceHandles.FirstHoldingCurrents | com.unity.media.blackmagic/Runtime/DeckLinkDeviceManager/DeckLinkManagerDeviceHandle.cs:309-313 | FirstHolding read on the current indices finds no holder before it and the holder at it |
| DeviceHandles.DistinctParts | com.unity.media.blackmagic/Runtime/DeckLinkDeviceManager/DeckLinkManagerDeviceHandle.cs:76-127 | the parts of a list without repetition have none and share nothing |
| DeviceHandles.DistinctInsert | com.unity.media.blackmagic/Runtime/DeckLinkDeviceManager/DeckLinkManagerDeviceHandle.cs:106 | a new record can join a list without repetition anywhere |
| DeviceHandles.DistinctRemove | com.unity.media.blackmagic/Runtime/DeckLinkDeviceManager/DeckLinkManagerDeviceHandle.cs:124 | a removed record leaves the list entirely, and the rest keeps no repetition |
| DeviceHandles.CurrentsConcat | com.unity.media.blackmagic/Runtime/DeckLinkDeviceManager/DeckLinkManagerDeviceHandle.cs:309-313 | the current indices of two lists read one after the other are those of each in turn |
| DeviceHandles.CurrentsRemove | com.unity.media.blackmagic/Runtime/DeckLinkDeviceManager/DeckLinkManagerDeviceHandle.cs:124 | the current indices after a removal are the old ones without that position |
| DeviceHandles.RebindKeepsExclusive | com.unity.media.blackmagic/Runtime/DeckLinkDeviceManager/DeckLinkManagerDeviceHandle.cs:193-218 | clearing the first holder of an index and binding one record to it holds no logical device twice |
| DeviceHandles.ExclusiveInsertUnbound | com.unity.media.blackmagic/Runtime/DeckLinkDeviceManager/DeckLinkManagerDeviceHandle.cs:106 | a record bound to no logical device can join a list anywhere without any device being held twice |
| DeviceHandles.ExclusiveRemove | com.unity.media.blackmagic/Runtime/DeckLinkDeviceManager/DeckLinkManagerDeviceHandle.cs:124 | removing a record holds no logical device twice |
| DeviceHandles.AddUnboundKeepsBindings | com.unity.media.blackmagic/Runtime/DeckLinkDeviceManager/DeckLinkManagerDeviceHandle.cs:106 | appending an unbound record to either list keeps the bindings exclusive, across both lists under half duplex and within each under full duplex |
| DeviceHandles.RebindKeepsBindings | com.unity.media.blackmagic/Runtime/DeckLinkDeviceManager/DeckLinkManagerDeviceHandle.cs:193-218 | rebinding within the scope of a type keeps the bindings exclusive, the other list untouched under full duplex |
| DeviceHandles.RemoveKeepsBindings | com.unity.media.blackmagic/Runtime/DeckLinkDeviceManager/DeckLinkManagerDeviceHandle.cs:112-127 | removing a record from either list keeps the bindings exclusive |
| DeviceHandles.DeckLinkManager.GetExistingVideoDevice | com.unity.media.blackmagic/Runtime/DeckLinkDeviceManager/DeckLinkManagerDeviceHandle.cs:142-146 | a record is found exactly when one of the type has the name, and it has that name |
| DeviceHandles.DeckLinkManager.StopTarget | com.unity.media.blackmagic/Runtime/DeckLinkDeviceManager/DeckLinkManagerDeviceHandle.cs:148-184 | the stopped record holds the index, is in the scope and runs in the editor; under half duplex a running input holder wins; under full duplex only the same type is looked at; none exactly when the holders looked at do not run |
| DeviceHandles.DeckLinkManager.StopTheVideoDeviceIfInUse | com.unity.media.blackmagic/Runtime/DeckLinkDeviceManager/DeckLinkManagerDeviceHandle.cs:148-184 | true exactly when StopTarget names a record; that device stops updating in the editor and no other device changes |
| DeviceHandles.DeckLinkManager.ChangeVideoDeviceNameData | com.unity.media.blackmagic/Runtime/DeckLinkDeviceManager/DeckLinkManagerDeviceHandle.cs:193-218 | an unknown name changes nothing; otherwise, on the indices of the scope, the first holder of the index is cleared and the named record bound there, current and old; the other list is kept under full duplex, and exclusive bindings stay exclusive |
| DeviceHandles.DeckLinkManager.RebindHolder | com.unity.media.blackmagic/Runtime/DeckLinkDeviceManager/DeckLinkManagerDeviceHandle.cs:195-217 | the rebinding at the first holder keeps exclusive bindings exclusive |
| DeviceHandles.DeckLinkManager.Rebind | com.unity.media.blackmagic/Runtime/DeckLinkDeviceManager/DeckLinkManagerDeviceHandle.cs:195-217 | the two SetCurrentVideoDevice calls give Rebound on the scope's indices, and both records agree with their devices |
| DeviceHandles.DeckLinkManager.NamedPosition | com.unity.media.blackmagic/Runtime/DeckLinkDeviceManager/DeckLinkManagerDeviceHandle.cs:195 | the named record's position in the scope, past the inputs for an output under half duplex |
| DeviceHandles.DeckLinkManager.BindingsInScope | com.unity.media.blackmagic/Runtime/DeckLinkDeviceManager/DeckLinkManagerDeviceHandle.cs:148-184 | exclusive bindings are those of the scope, plus the other list under full duplex (same file, lines 193-218) |
| DeviceHandles.DeckLinkManager.HolderPosition | com.unity.media.blackmagic/Runtime/DeckLinkDeviceManager/DeckLinkManagerDeviceHandle.cs:199-206 | the holder found among the inputs and then the outputs is the first holder in the scope |
| DeviceHandles.DeckLinkManager.SetCurrentAt | com.unity.media.blackmagic/Runtime/Internal/VideoDeviceGameObjectData.cs:53-59 | SetCurrentVideoDevice on one record of the scope updates that position of the scope's indices and no other record |
| DeviceHandles.DeckLinkManager.GetOrCreateDeviceInstance | com.unity.media.blackmagic/Runtime/DeckLinkDeviceManager/DeckLinkManagerDeviceHandle.cs:76-110 | the record of the type with the name; a new one, with a new unbound device, is appended to its list, so names stay unique and exclusive bindings stay exclusive |
| DeviceHandles.DeckLinkManager.AddDeviceInstance | com.unity.media.blackmagic/Runtime/DeckLinkDeviceManager/DeckLinkManagerDeviceHandle.cs:85-107 | the new record and device are fresh and unbound, appended to the list of the type, the other list unchanged |
| DeviceHandles.DeckLinkManager.AppendDeviceInstance | com.unity.media.blackmagic/Runtime/DeckLinkDeviceManager/DeckLinkManagerDeviceHandle.cs:107 | an unlisted unbound record is appended to its list and adds -1 to its current indices |
| DeviceHandles.DeckLinkManager.RemoveDeviceInstance | com.unity.media.blackmagic/Runtime/DeckLinkDeviceManager/DeckLinkManagerDeviceHandle.cs:112-127 | the record at the position is disposed and leaves its list, its name is returned, the other list is unchanged and exclusive bindings stay exclusive |
| DeviceHandles.DeckLinkManager.DropDeviceInstance | com.unity.media.blackmagic/Runtime/DeckLinkDeviceManager/DeckLinkManagerDeviceHandle.cs:114-125 | the record is disposed and leaves its list, and every other record keeps its current index |
| DeviceHandles.DeckLinkManager.DetachDeviceInstance | com.unity.media.blackmagic/Runtime/DeckLinkDeviceManager/DeckLinkManagerDeviceHandle.cs:124 | the record leaves its list and no other record changes |
| DeviceHandles.DeckLinkManager.AlreadyUsed | com.unity.media.blackmagic/Runtime/DeckLinkDeviceManager/DeckLinkManagerDeviceHandle.cs:315-337 | a device's selection counts as used exactly on a card after the first, under half duplex, when a record of the opposite type holds it |
| DeviceHandles.DeckLinkManager.IsDeviceAlreadyUsed | com.unity.media.blackmagic/Runtime/DeckLinkDeviceManager/DeckLinkManagerDeviceHandle.cs:315-337 | a used selection unbinds the record, keeping the device's old selection; any other record is left alone |
| DeviceHandles.DeckLinkManager.UpdateDeviceIndex | com.unity.media.blackmagic/Runtime/DeckLinkDeviceManager/DeckLinkManagerDeviceHandle.cs:287-307 | a restored device keeps its selection when it is not used and names a logical device of its type; otherwise it is unbound with its old selection kept |
| DeviceHandles.DeckLinkManager.TryToAssociateOldVideoDeviceIndex | com.unity.media.blackmagic/Runtime/DeckLinkDeviceManager/DeckLinkManagerDeviceHandle.cs:443-459 | the first record whose old index is the name's position is bound there, current and old, and no other record changes |

## Left out

- The native plugin behind the P/Invoke calls is not part of this model, nor is its frame scheduler. Its answers are parameters.
- The Editor UI, scene GameObjects and rendering are not modelled: Blit, RenderTexture, the colour-transform shaders and GPUDirect transfers.
- Floating point is not modelled: FlicksToFrameTime, PresentationOffset, the float conversion of audio samples, and CalculateTimeBetweenFrame. Audio samples are modelled as `real`.
- Threads are not modelled. Driver callbacks, the copy workers and the readback completion are sequential method calls, and locks are not modelled.
- The live-capture timecode modes (TimecodeSource and the Synchronizer) need packages outside this repository. They fall to "no timecode".
- Timecode.GetHashCode is not modelled.
- 64-bit overflow of flicks values is not modelled. Neither is the wrap of the ring buffer's ulong counters, nor the `(int)` cast of its FillCount.
- The value pool's int overflow is not modelled.
- Each FrameQueue's slots are a `seq`, not a C# array.
- The mode-name strings of VideoModeRegistry are not modelled. Modes are identified by their table row.
- String.Compare on device names is culture-sensitive in C#. Here it is an ordinal comparison.
- Device discovery is left out in part:
  - AddCompatibleConnectorMappingProfiles, OnDeviceArrived/OnDeviceRemoved, InitializeAndRetrieveDeckLinkCards, InitializeDevices, RemoveAllDevices and ResetDeviceData. They drive the native enumeration.
  - The GameObject helpers: GetOrCreateConnectorMappingGameObject and RemoveCurrentConnectorMappingGameObject.
  - IsLogicalDeviceBoundTwice, and the status strings shown in the inspector.
- The dictionary of cards is a `seq` indexed by position in the listing. The map from logical device to owner is a ghost aid to the proofs.
- GetOrCreateDeviceInstance throws for an unknown device type. With the two-valued DeviceType that branch cannot be reached.
- PlayerLoopUpdate makes editor-only checks, which are not modelled.
- GetInputDevice/GetOutputDevice use Unity's null check on destroyed objects. It is not modelled.
- InputPlugins.Create: the offset that GetOffsetLogicalDevice adds and the native parameters are not modelled. The native handle is a parameter.
- GPU readback: Dispose's WaitForCompletion and its buffer disposal are not modelled, nor is ComputeMipmapSize.
- The input device's UnpackTexture/PresentTexture blits and colour material are not modelled. Neither are the VideoFrameArrived and AudioFrameArrived events.
- Negative frame durations are not modelled. The source never checks the duration the driver reports, but a negative one has no meaning for a video mode. The members below require it to be non-negative; a zero duration, which divides by zero, is modelled.
- Timecodes.FromComponents: requires a non-negative frame duration (see above).
- Timecodes.FromFlicks: requires a non-negative frame duration (see above).
- Timecodes.FromBcd: requires a non-negative frame duration (see above).
- Timecodes.FromBcdCorrected: requires a non-negative frame duration (see above).
- BufferedFrames.BufferedFrame.CopyFrom: requires the arrived frame's duration to be non-negative (see above).
- BufferedFrames.BufferedFrame.CopyTiming: requires the arrived frame's duration to be non-negative (see above).
- InputDevices.InputDevice.OnFrameArrived: requires the arrived frame's duration to be non-negative (see above).
- InputDevices.InputDevice.CopyArrived: requires the arrived frame's duration to be non-negative (see above).
- OutputDevices.FedTimecode: requires a non-negative frame duration (see above).
- OutputDevices.OutputDevice.ApplySettings: requires the new plugin's frame duration to be non-negative (see above).
- OutputDevices.OutputDevice.Timestamp: requires the plugin's frame duration to be non-negative (see above).
- PixelFormats.ByteWidth: the row-length products are unbounded integers. The 32-bit int overflow of C# for widths far beyond any video mode is not modelled.
- ThreadedCopies.ThreadedMemcpy.constructor: requires at most 1024 threads, so that every block length stays non-negative. The source does not check this.
- RingBuffers.SimpleRingBuffer.Write: requires count <= |source|. Where that fails, Array.Copy would throw.
- RingBuffers.SimpleRingBuffer.Read: requires count <= sink.Length. Where that fails, Array.Copy would throw.
- DeviceHandles.DeckLinkManager.RemoveDeviceInstance: requires deviceIndex < Count. The source's assertion also admits Count, and the removal then throws.
- OutputDevices.OutputDevice.ProcessFrameQueue: the timecodes fed to the driver are not an out-parameter. They follow from the fed frame numbers and FedTimecode.
- InputDevices.InputDevice.PerformUpdate: the audio handed on is stated relative to the post-state, not the pre-state.
- DeviceHandles.DeckLinkManager.ChangeVideoDeviceNameData: the new bindings are stated through Rebound on the indices in scope, not as a closed formula over the whole list.

## Findings

| source | as written | input that shows it | evidently intended | confidence | as-written member | corrected member |
|---|---|---|---|---|---|---|
| com.unity.media.blackmagic/Runtime/DeckLinkInputDevice/FrameQueue.cs:91-118 | SetCapacity copies the queue from its newest frame backwards into the new ring and keeps the old head | a ring of 4 slots A, B, X, Y holding A, B (X, Y stale) after SetCapacity(3) queues Y, X | the newest min(Count, capacity) frames are kept, oldest first | not executed | FrameQueues.SetCapacityAsWrittenLosesFrames | FrameQueues.FrameQueue.SetCapacity |
| com.unity.media.blackmagic/Runtime/DeckLinkUtilities/BlackmagicUtilities.cs:80-84,103-108 | frames are split into fields only when the frame duration is at most 1/50 s | at 48 Hz, frame 45 packs to 0x45 and unpacks as frame 5 with the drop-frame flag set | split whenever a frame number does not fit the two-bit tens digit, that is above 40 Hz | not executed | Timecodes.RoundTripFailsAt48Hz | Timecodes.BcdRoundTripCorrected |
| com.unity.media.blackmagic/Runtime/DeckLinkUtilities/SimplePoolValues.cs:57 | a returned value is pooled unless it is greater than the next available value | return a used value equal to the next available one: the pool and the iterator both hand it out | pool only values strictly below the next available one | not executed | ValuePools.AsWrittenHandsOutTwice | ValuePools.ReturnedKeepsInv |
| com.unity.media.blackmagic/Runtime/DeckLinkUtilities/DeckLinkDeviceEnumerator.cs:802-803 | the 1080p 95.90 row has code 'Hp96' and the 1080p 96 row has code 'Hp10' | look up 1080p at 96 fps: it yields the 100 fps code | the 95.90 row carries 'Hp95' and the 96 row 'Hp96' | not executed | VideoModeTable.AsWrittenHd1080pCodesAreShifted | VideoModeTable.ModesWellFormed |
| com.unity.media.blackmagic/Runtime/DeckLinkUtilities/DeckLinkDeviceEnumerator.cs:517-521 | Clear resets the count and the rates per resolution but not the rates per scan mode | reload for a device offering only 1080p50 after one offering 1080i50: 1080 at 50 fps is still offered interlaced | Clear empties every table | not executed | VideoModeRegistries.AsWrittenReloadKeepsStaleScanModes | VideoModeRegistries.SupportMap.Clear |
| com.unity.media.blackmagic/Runtime/Internal/DeckLinkInputDevicePlugin.cs:386-397 | Dispose unregisters the plugin only when a native device was created | a plugin whose native open failed is disposed, then one is created for the same index: the registration throws | Dispose always unregisters | not executed | InputPlugins.AsWrittenRecreateAfterFailedOpenThrows | InputPlugins.CreateThenDisposeRestores |
| com.unity.media.blackmagic/Runtime/DeckLinkInputDevice/DeckLinkInputDeviceSynchronization.cs:70-86 | TryGetBufferRange reads the oldest and newest queued frames whenever the device is active | an active device right after a format change, with an empty queue: the call throws | report no range while the queue is empty | not executed | InputDevices.AsWrittenBufferRangeThrowsBeforeFirstFrame | InputDevices.InputDevice.TryGetBufferRange |
| com.unity.media.blackmagic/Runtime/DeckLinkOutputDevice/DeckLinkOutputDevice.cs:473-492 | ChangeLinkMode reports success when the card cannot link in the requested mode | a card without quad-link support asked for quad link: the answer is true | report false for an incompatible card | not executed | OutputDevices.OutputDevice.ChangeLinkModeAsWritten | OutputDevices.OutputDevice.ChangeLinkMode |
| com.unity.media.blackmagic/Runtime/DeckLinkOutputDevice/DeckLinkOutputDevice.cs:428-443 | ChangeVideoConfiguration stops following the input device before it checks that the triple is a registered mode | a triple that is no mode while following an input device: following stops, then the call throws | leave the state untouched when the triple is unknown | not executed | OutputDevices.OutputDevice.ChangeVideoConfigurationAsWritten | OutputDevices.OutputDevice.ChangeVideoConfiguration |
| com.unity.media.blackmagic/Runtime/DeckLinkDeviceManager/DeckLinkManagerDeviceDiscovery.cs:441-460 | the bounds guard is `index > Count` | index equal to the number of output device names: the list indexer throws | the guard `index >= Count` that GetDeckLinkCardFromLogicalDevice uses | not executed | DeviceDiscovery.DeckLinkManager.IsKeyingAndLinkModeSupportedAsWritten | DeviceDiscovery.DeckLinkManager.IsKeyingAndLinkModeSupported |
