/** A capture device (DeckLinkInputDevice.cs and DeckLinkInputDeviceSynchronization.cs):
  * the format override the user requests, the queue the driver's frames land in, the
  * count of frames dropped before they were shown, and the choice of the frame to show,
  * either the second oldest on each update or, when synchronised, the one the
  * presentation time falls in. IsActive, the frame's delta time in flicks, the
  * presentation time in flicks, the processor count and whether a synchronised audio
  * callback is registered are parameters. */
module InputDevices {
  import opened Wrappers
  import opened Arithmetic
  import opened BcdTimecode
  import opened Timecodes
  import opened PixelFormats
  import opened VideoSignals
  import opened AudioSampleTypes
  import opened ThreadedCopies
  import opened BufferedFrames
  import opened FrameQueues
  import opened BaseDevices
  import opened InputPlugins
  import opened InputSynchronization

  /** Whether any request departs from what the device signal carries. */
  predicate NeedsOverride(pixelFormat: PixelFormat, colorSpace: ColorSpace, transferFunction: TransferFunction)
  {
    pixelFormat != UseBestQuality || colorSpace != ColorSpaceUseDeviceSignal || transferFunction != TransferUseDeviceSignal
  }

  /** The pixel format asked of the driver: the best quality while no override is in
    * force, the requested one otherwise. */
  function EffectiveRequest(signalOverride: int, requested: PixelFormat): PixelFormat
  {
    if signalOverride == 0 then UseBestQuality else requested
  }

  /** With the override flag kept as HandleOverride sets it, the driver is asked for
    * exactly the pixel format the user requested. */
  lemma OverrideAsksForRequest(pixelFormat: PixelFormat, colorSpace: ColorSpace, transferFunction: TransferFunction)
    ensures EffectiveRequest(if NeedsOverride(pixelFormat, colorSpace, transferFunction) then 1 else 0, pixelFormat) == pixelFormat
    ensures NeedsOverride(pixelFormat, colorSpace, transferFunction) <==>
      !(pixelFormat == UseBestQuality && colorSpace == ColorSpaceUseDeviceSignal && transferFunction == TransferUseDeviceSignal)
  {
  }

  /** The unpack pass of PresentTexture: 0 for a frame that is not interlaced; for an
    * interlaced frame, the pass of the field shown first during the first half of the
    * frame (1 for the lower field, 2 for the upper) and of the other field after. */
  function UnpackPass(dominance: FieldDominance, timeInFrame: int, frameDuration: int): (pass: int)
    ensures 0 <= pass <= 2
    ensures pass == 0 <==> !IsInterlaced(dominance)
    ensures dominance == LowerFieldFirst ==> (pass == 1 <==> timeInFrame < TDiv(frameDuration, 2))
    ensures dominance == UpperFieldFirst ==> (pass == 2 <==> timeInFrame < TDiv(frameDuration, 2))
  {
    if dominance == LowerFieldFirst then (if timeInFrame < TDiv(frameDuration, 2) then 1 else 2)
    else if dominance == UpperFieldFirst then (if timeInFrame < TDiv(frameDuration, 2) then 2 else 1)
    else 0
  }

  /** Over one interlaced frame the two fields are shown in turn: a time in the first half
    * and a time in the second half get different passes, and the two dominances show
    * opposite fields at every time. */
  lemma FieldsAlternate(dominance: FieldDominance, early: int, late: int, frameDuration: int)
    requires IsInterlaced(dominance)
    requires early < TDiv(frameDuration, 2) <= late
    ensures UnpackPass(dominance, early, frameDuration) != UnpackPass(dominance, late, frameDuration)
    ensures UnpackPass(LowerFieldFirst, early, frameDuration) + UnpackPass(UpperFieldFirst, early, frameDuration) == 3
    ensures UnpackPass(LowerFieldFirst, late, frameDuration) + UnpackPass(UpperFieldFirst, late, frameDuration) == 3
  {
  }

  /** The frame rate handed to the timecode and timed-data interfaces (LiveCapture's
    * FrameRate); the default value is 0/0. */
  datatype FrameRate = FrameRate(numerator: int, denominator: int, isDropFrame: bool)

  /** The rate of a format: the field rate, twice the frame rate, for interlaced video. */
  function RateOf(format: InputVideoFormat, isDropFrame: bool): (r: FrameRate)
    ensures r.denominator == format.frameRateDenominator && r.isDropFrame == isDropFrame
    ensures IsInterlaced(format.fieldDominance) ==> r.numerator == 2 * format.frameRateNumerator
    ensures !IsInterlaced(format.fieldDominance) ==> r.numerator == format.frameRateNumerator
  {
    var numerator := if IsInterlaced(format.fieldDominance) then format.frameRateNumerator * 2 else format.frameRateNumerator;
    FrameRate(numerator, format.frameRateDenominator, isDropFrame)
  }

  /** A period of the reported rate lasts as long as a frame of the format, or as a field
    * (half a frame, truncated) when the video is interlaced. */
  lemma RatePeriodIsFieldDuration(data: InputVideoFormatData, isDropFrame: bool)
    requires data.frameRateNumerator > 0 && data.frameRateDenominator >= 0
    ensures var f := MakeInputVideoFormat(data, "");
      var r := RateOf(f, isDropFrame);
      r.numerator > 0
      && TDiv(FlicksPerSecond * r.denominator, r.numerator)
         == if IsInterlaced(f.fieldDominance) then f.frameDuration / 2 else f.frameDuration
  {
    var f := MakeInputVideoFormat(data, "");
    var x, n := FlicksPerSecond * data.frameRateDenominator, data.frameRateNumerator;
    MulNonneg(FlicksPerSecond, data.frameRateDenominator);
    assert f.frameDuration == x / n;
    if IsInterlaced(f.fieldDominance) {
      DivNonneg(x, n);
      var q := x / n;
      var half := q / 2;
      assert x == half * (2 * n) + ((q % 2) * n + x % n) by {
        assert x == q * n + x % n;
        assert q == half * 2 + q % 2;
      }
      MulAtLeast(1, n);
      assert (q % 2) * n + x % n < 2 * n by {
        assert q % 2 <= 1;
        assert (q % 2) * n <= n;
      }
      MulNonneg(q % 2, n);
      DivModUnique(x, 2 * n, half, (q % 2) * n + x % n);
    }
  }

  /** The synchronised audio handed to the callback: the samples converted to floats
    * and the channel count. */
  datatype SynchronizedAudio = SynchronizedAudio(sampleCount: int, channelCount: int)

  /** The number of samples in an audio buffer of the given length: whole samples of the
    * sample type's width, or none for a type that is not converted. */
  function SampleCount(audioLength: int, sampleType: AudioSampleType): (count: int)
    ensures audioLength >= 0 && BytesPerSample(sampleType).Success? ==>
      var width := BytesPerSample(sampleType).value;
      0 <= count && count * width <= audioLength < (count + 1) * width
    ensures BytesPerSample(sampleType).Failure? ==> count == 0
  {
    if sampleType == Int16 then TDiv(audioLength, 2)
    else if sampleType == Int32 then TDiv(audioLength, 4)
    else 0
  }

  /** PresentAudio: audio reaches the callback only when the frame carries some and a
    * callback is registered. */
  function PresentAudio(audioLength: int, sampleType: AudioSampleType, channelCount: int, hasCallback: bool): (audio: Option<SynchronizedAudio>)
    ensures audio.Some? <==> audioLength > 0 && hasCallback
    ensures audio.Some? ==> audio.value.channelCount == channelCount && audio.value.sampleCount == SampleCount(audioLength, sampleType)
  {
    if audioLength <= 0 || !hasCallback then None
    else Some(SynchronizedAudio(SampleCount(audioLength, sampleType), channelCount))
  }

  /** DroppedFrameCount after a frame arrives: one more for a dropped frame, wrapping
    * around as the unsigned 32-bit counter does; the same otherwise. */
  function CountDrop(count: int, dropped: bool): (next: int)
    ensures 0 <= count < UINT32_LIMIT ==> 0 <= next < UINT32_LIMIT
    ensures !dropped ==> next == count
    ensures dropped && 0 <= count < UINT32_LIMIT - 1 ==> next == count + 1
    ensures dropped && count == UINT32_LIMIT - 1 ==> next == 0
  {
    if dropped then (count + 1) % UINT32_LIMIT else count
  }

  /** Whether the next frame enqueued overwrites a queued frame that was never shown. */
  ghost predicate OverwritesUnpresented(queue: FrameQueue)
    requires queue.Valid()
    reads queue, queue.Repr
  {
    queue.count == |queue.slots| && queue.Contents()[0].status == Queued
  }

  /** The out-parameters of TryGetBufferRange, as timecodes: no range, or the oldest and
    * the newest queued frame's. */
  datatype BufferRange = NoRange | Range(oldest: Timecode, newest: Timecode)

  class InputDevice {
    var requestedPixelFormat: PixelFormat
    var requestedColorSpace: ColorSpace
    var requestedTransferFunction: TransferFunction
    /** m_SignalOverride, 1 while a request departs from the device signal. */
    var signalOverride: int
    /** The pixel format the driver was last asked for. */
    var desiredPixelFormat: PixelFormat
    var requiresReinit: bool
    /** The base device's QueueLength, kept within its bounds by the setter. */
    var queueLength: int
    var isSynchronized: bool
    var format: Option<InputVideoFormat>
    var queue: FrameQueue?
    var memcpy: ThreadedMemcpy?
    /** DroppedFrameCount, an unsigned 32-bit counter. */
    var droppedFrameCount: int
    var isDropFrame: bool
    var timestamp: Timecode
    /** How long, in flicks, the latest frame has been shown. */
    var frameElapsed: int
    var unpackPass: int
    ghost var Repr: set<object>

    /** The queue exists only with a format, and owns its frames; the counter stays a
      * 32-bit unsigned value. The copy engine is shared with no frame and changes no
      * state the model keeps while it copies, so it is not part of the footprint. */
    ghost predicate Valid()
      reads this, Repr
    {
      this in Repr
      && MinQueueLength <= queueLength <= MaxQueueLength
      && 0 <= droppedFrameCount < UINT32_LIMIT
      && (queue != null ==>
            queue in Repr && queue.Repr <= Repr && this !in queue.Repr && queue.Valid() && format.Some?)
      && (memcpy != null ==> memcpy.Valid())
    }

    /** The queued frames, oldest first; none without a queue. */
    ghost function QueuedFrames(): seq<BufferedFrame>
      reads this, queue
    {
      if queue == null || !(0 <= queue.start < |queue.slots| && 0 <= queue.count) then [] else queue.Contents()
    }

    /** The queue and its frames; nothing without a queue. */
    ghost function QueueFootprint(): set<object>
      reads this, queue
    {
      if queue == null then {} else queue.Repr
    }

    /** The texture and audio buffers of the slot the next arriving frame is copied into:
      * the slot past the back of the queue. */
    ghost function NextBuffers(): set<object>
      requires Valid()
      reads this, Repr
    {
      if queue == null then {} else {queue.slots[queue.end].texture, queue.slots[queue.end].audio}
    }

    /** A new component: nothing requested beyond the device signal, no format, no queue. */
    constructor()
      ensures Valid() && fresh(Repr)
      ensures requestedPixelFormat == UseBestQuality && requestedColorSpace == ColorSpaceUseDeviceSignal
      ensures requestedTransferFunction == TransferUseDeviceSignal && signalOverride == 0
      ensures desiredPixelFormat == UseBestQuality && !requiresReinit && queueLength == DefaultQueueLength
      ensures format.None? && queue == null && memcpy == null && droppedFrameCount == 0
    {
      requestedPixelFormat := UseBestQuality;
      requestedColorSpace := ColorSpaceUseDeviceSignal;
      requestedTransferFunction := TransferUseDeviceSignal;
      signalOverride := 0;
      desiredPixelFormat := UseBestQuality;
      requiresReinit := false;
      queueLength := DefaultQueueLength;
      isSynchronized := false;
      format := None;
      queue := null;
      memcpy := null;
      droppedFrameCount := 0;
      isDropFrame := false;
      timestamp := DefaultTimecode;
      frameElapsed := 0;
      unpackPass := 0;
      Repr := {this};
    }

    /** The override flag agrees with the three requests. */
    predicate OverrideConsistent()
      reads this
    {
      signalOverride == if NeedsOverride(requestedPixelFormat, requestedColorSpace, requestedTransferFunction) then 1 else 0
    }

    /** HandleOverride: the flag is 1 exactly when some request departs from the signal. */
    method HandleOverride()
      modifies this`signalOverride
      ensures OverrideConsistent()
    {
      var needsOverride :=
        requestedPixelFormat != UseBestQuality
        || requestedColorSpace != ColorSpaceUseDeviceSignal
        || requestedTransferFunction != TransferUseDeviceSignal;
      signalOverride := if needsOverride then 1 else 0;
    }

    method ChangePixelFormat(pixelFormat: PixelFormat)
      modifies this`requestedPixelFormat, this`signalOverride
      ensures requestedPixelFormat == pixelFormat && OverrideConsistent()
    {
      requestedPixelFormat := pixelFormat;
      HandleOverride();
    }

    method ChangeColorSpace(colorSpace: ColorSpace)
      modifies this`requestedColorSpace, this`signalOverride
      ensures requestedColorSpace == colorSpace && OverrideConsistent()
    {
      requestedColorSpace := colorSpace;
      HandleOverride();
    }

    method ChangeTransferFunction(transferFunction: TransferFunction)
      modifies this`requestedTransferFunction, this`signalOverride
      ensures requestedTransferFunction == transferFunction && OverrideConsistent()
    {
      requestedTransferFunction := transferFunction;
      HandleOverride();
    }

    /** UpdateSettings: the device must be set up again when a reinitialisation was asked
      * for or the driver would now be asked for another pixel format. */
    predicate UpdateSettings()
      reads this
    {
      requiresReinit || EffectiveRequest(signalOverride, requestedPixelFormat) != desiredPixelFormat
    }

    /** After any of the Change setters, the device is set up again exactly when a
      * reinitialisation is pending or the requested pixel format is not the one the
      * driver was asked for. */
    lemma SettingsFollowRequest()
      requires OverrideConsistent()
      ensures UpdateSettings() <==> requiresReinit || requestedPixelFormat != desiredPixelFormat
    {
      OverrideAsksForRequest(requestedPixelFormat, requestedColorSpace, requestedTransferFunction);
    }

    /** InColorSpace: the requested colour space, unless that defers to the signal, in
      * which case the format's, or the default without a format. */
    function InColorSpace(): (colorSpace: ColorSpace)
      reads this
      ensures requestedColorSpace != ColorSpaceUseDeviceSignal ==> colorSpace == requestedColorSpace
      ensures requestedColorSpace == ColorSpaceUseDeviceSignal && format.Some? ==> colorSpace == format.value.colorSpace
      ensures requestedColorSpace == ColorSpaceUseDeviceSignal && format.None? ==> colorSpace == ColorSpaceUseDeviceSignal
    {
      if requestedColorSpace != ColorSpaceUseDeviceSignal then requestedColorSpace
      else if format.Some? then format.value.colorSpace
      else ColorSpaceUseDeviceSignal
    }

    /** GetFrameRate: the default rate while inactive or without a format; otherwise the
      * format's rate, doubled for interlaced video, with the cached drop-frame flag. */
    function GetFrameRate(isActive: bool): (r: FrameRate)
      reads this
      ensures !isActive || format.None? ==> r == FrameRate(0, 0, false)
      ensures isActive && format.Some? ==> r == RateOf(format.value, isDropFrame)
    {
      if !isActive || format.None? then FrameRate(0, 0, false) else RateOf(format.value, isDropFrame)
    }

    /** OnVideoFormatChanged: the new format is stored and the old queue disposed; a new,
      * empty queue of QueueLength frames sized for the format replaces it and the
      * dropped-frame count restarts. A format whose frame buffer size is negative makes
      * the allocation throw, which is caught: the disposed queue then stays. */
    method OnVideoFormatChanged(newFormat: InputVideoFormat) returns (fault: Option<Fault>)
      requires Valid()
      modifies Repr
      ensures Valid() && fresh(Repr - old(Repr))
      ensures format == Some(newFormat)
      ensures fault.None? <==> newFormat.byteWidth * newFormat.byteHeight >= 0
      ensures fault.Some? ==> fault.value == ArgumentOutOfRange && queue == old(queue) && droppedFrameCount == old(droppedFrameCount)
      ensures fault.None? ==>
        queue != null && fresh(queue) && queue.Capacity() == queueLength && QueuedFrames() == []
        && queue.allocator == FrameAllocator(newFormat.byteWidth, newFormat.byteHeight) && droppedFrameCount == 0
      ensures old(queue) != null ==>
        forall i :: 0 <= i < |old(queue.slots)| ==> !old(queue.slots)[i].textureCreated && !old(queue.slots)[i].audioCreated
      ensures memcpy == old(memcpy) && isDropFrame == old(isDropFrame) && timestamp == old(timestamp)
    {
      format := Some(newFormat);
      if queue != null {
        queue.Dispose();
      }
      if newFormat.byteWidth * newFormat.byteHeight < 0 {
        return Some(ArgumentOutOfRange);
      }
      var q := new FrameQueue(queueLength, FrameAllocator(newFormat.byteWidth, newFormat.byteHeight));
      queue := q;
      Repr := Repr + q.Repr;
      droppedFrameCount := 0;
      fault := None;
    }

    /** OnFrameArrived: ignored without a queue. Otherwise the frame is enqueued (the copy
      * engine is made on first use) and copied in; overwriting a frame that was queued
      * but never shown counts a dropped frame, with 32-bit wrap-around. A copy that
      * throws is caught, after the frame was enqueued and counted. */
    method OnFrameArrived(video: InputVideoFrame, audio: Option<InputAudioFrame>, processorCount: int)
      returns (dropped: bool, fault: Option<Fault>)
      requires Valid() && video.frameDuration >= 0 && 1 <= processorCount <= 1024
      modifies this`droppedFrameCount, this`isDropFrame, this`memcpy, QueueFootprint(), NextBuffers()
      ensures Valid()
      ensures dropped <==> old(queue != null && OverwritesUnpresented(queue))
      ensures droppedFrameCount == CountDrop(old(droppedFrameCount), dropped)
      ensures old(queue) == null ==> fault.None? && memcpy == old(memcpy) && isDropFrame == old(isDropFrame)
      ensures old(queue) != null ==> memcpy != null && (old(memcpy) != null ==> memcpy == old(memcpy))
      ensures old(queue) != null ==>
        var frames := QueuedFrames();
        |frames| > 0
        && frames[..|frames| - 1] == old(if queue != null && queue.count == |queue.slots| then QueuedFrames()[1..] else QueuedFrames())
        && (fault.None? ==>
              frames[|frames| - 1].status == Queued && frames[|frames| - 1].frameDuration == video.frameDuration
              && isDropFrame == frames[|frames| - 1].timecode.isDropFrame)
        && (fault.Some? ==> isDropFrame == old(isDropFrame))
    {
      if queue == null {
        return false, None;
      }
      MakeMemcpy(processorCount);
      ghost var slot := queue.end;
      var frame;
      dropped, frame := EnqueueArrived();
      assert frame.texture == queue.slots[slot].texture && frame.audio == queue.slots[slot].audio;
      fault := CopyArrived(frame, video, audio);
    }

    /** The copy engine is made on the first frame and kept after. */
    method MakeMemcpy(processorCount: int)
      requires Valid() && 1 <= processorCount <= 1024
      modifies this`memcpy
      ensures Valid()
      ensures memcpy != null && (old(memcpy) != null ==> memcpy == old(memcpy))
    {
      if memcpy == null {
        memcpy := new ThreadedMemcpy(processorCount);
      }
    }

    /** The enqueue of an arrived frame: the slot past the back, which is the front when
      * the queue is full; overwriting a frame still Queued counts as a drop. */
    method EnqueueArrived() returns (dropped: bool, frame: BufferedFrame)
      requires Valid() && queue != null
      modifies queue, this`droppedFrameCount
      ensures Valid() && queue.slots == old(queue.slots) && frame == queue.slots[old(queue.end)]
      ensures dropped <==> old(OverwritesUnpresented(queue))
      ensures droppedFrameCount == CountDrop(old(droppedFrameCount), dropped)
      ensures QueuedFrames() == old(if queue.count == |queue.slots| then QueuedFrames()[1..] else QueuedFrames()) + [frame]
    {
      var overwrote;
      overwrote, frame := queue.Enqueue();
      dropped := overwrote && frame.status == Queued;
      droppedFrameCount := CountDrop(droppedFrameCount, dropped);
    }

    /** The copy of an arrived frame into its slot, which stays a valid frame of the
      * queue. */
    method CopyArrived(frame: BufferedFrame, video: InputVideoFrame, audio: Option<InputAudioFrame>)
      returns (fault: Option<Fault>)
      requires Valid() && queue != null && memcpy != null && frame in queue.slots && video.frameDuration >= 0
      modifies frame, frame.texture, frame.audio, this`isDropFrame
      ensures Valid()
      ensures fault.None? ==>
        frame.status == Queued && frame.frameDuration == video.frameDuration && isDropFrame == frame.timecode.isDropFrame
      ensures fault.Some? ==> frame.status == old(frame.status) && isDropFrame == old(isDropFrame)
    {
      fault := frame.CopyFrom(video, audio, memcpy);
      assert forall i :: 0 <= i < |queue.slots| ==> queue.slots[i].Valid();
      if fault.None? {
        isDropFrame := frame.timecode.isDropFrame;
      }
    }

    /** PresentFrame: a frame shown for the first time (still Queued) restarts the elapsed
      * time and hands its audio on; the unpack pass follows the given time into the
      * frame, or the elapsed time; the frame becomes Presented and the elapsed time
      * grows by the frame's delta time. */
    method PresentFrame(frame: BufferedFrame, timeInFrame: Option<int>, deltaFlicks: int, hasAudioCallback: bool)
      returns (audio: Option<SynchronizedAudio>)
      requires Valid() && frame in Repr
      modifies this`frameElapsed, this`unpackPass, frame`status
      ensures Valid()
      ensures frame.status == Presented
      ensures var elapsed := if old(frame.status) == Queued then 0 else old(frameElapsed);
        unpackPass == UnpackPass(frame.fieldDominance, if timeInFrame.Some? then timeInFrame.value else elapsed, frame.frameDuration)
        && frameElapsed == elapsed + deltaFlicks
      ensures audio == if old(frame.status) == Queued then
        PresentAudio(frame.audioLength, frame.audioSampleType, frame.audioChannelCount, hasAudioCallback) else None
    {
      audio := None;
      if frame.status == Queued {
        frameElapsed := 0;
        audio := PresentAudio(frame.audioLength, frame.audioSampleType, frame.audioChannelCount, hasAudioCallback);
      }
      var time := if timeInFrame.Some? then timeInFrame.value else frameElapsed;
      unpackPass := UnpackPass(frame.fieldDominance, time, frame.frameDuration);
      frame.status := Presented;
      frameElapsed := frameElapsed + deltaFlicks;
    }

    /** PerformUpdate, past the base device's update: nothing happens while inactive or
      * without a queue. Otherwise the queue is resized to QueueLength, keeping the
      * newest frames. An empty queue resets the timestamp and shows nothing; otherwise
      * the second oldest frame is chosen, or the only one, its timecode becomes the
      * timestamp, and it is shown unless the device is synchronised. */
    method PerformUpdate(isActive: bool, deltaFlicks: int, hasAudioCallback: bool)
      returns (presented: BufferedFrame?, audio: Option<SynchronizedAudio>)
      requires Valid()
      modifies Repr
      ensures Valid() && fresh(Repr - old(Repr))
      ensures queue == old(queue) && format == old(format) && droppedFrameCount == old(droppedFrameCount)
      ensures !isActive || queue == null ==>
        presented == null && audio.None? && timestamp == old(timestamp) && unchanged(old(Repr))
      ensures isActive && queue != null ==>
        queue.Capacity() == queueLength
        && |QueuedFrames()| == Min(|old(QueuedFrames())|, queueLength)
        && QueuedFrames() == old(QueuedFrames())[|old(QueuedFrames())| - |QueuedFrames()|..]
      ensures isActive && queue != null && QueuedFrames() == [] ==>
        presented == null && audio.None? && timestamp == DefaultTimecode
      ensures isActive && queue != null && QueuedFrames() != [] ==>
        var frames := QueuedFrames();
        var chosen := if |frames| > 1 then frames[1] else frames[0];
        timestamp == chosen.timecode
        && (isSynchronized ==> presented == null && audio.None?)
        && (!isSynchronized ==>
              presented == chosen && chosen.status == Presented
              && (audio.Some? ==> audio == PresentAudio(chosen.audioLength, chosen.audioSampleType, chosen.audioChannelCount, hasAudioCallback)))
    {
      presented, audio := null, None;
      if !isActive || queue == null {
        return;
      }
      var _ := queue.SetCapacity(queueLength);
      Repr := Repr + queue.Repr;
      presented, audio := PresentOldest(deltaFlicks, hasAudioCallback);
    }

    /** The frame choice of PerformUpdate on the resized queue. */
    method PresentOldest(deltaFlicks: int, hasAudioCallback: bool)
      returns (presented: BufferedFrame?, audio: Option<SynchronizedAudio>)
      requires Valid() && queue != null
      modifies this`timestamp, this`frameElapsed, this`unpackPass, queue.slots
      ensures Valid() && QueuedFrames() == old(QueuedFrames())
      ensures QueuedFrames() == [] ==> presented == null && audio.None? && timestamp == DefaultTimecode
      ensures QueuedFrames() != [] ==>
        var frames := QueuedFrames();
        var chosen := if |frames| > 1 then frames[1] else frames[0];
        timestamp == chosen.timecode
        && (isSynchronized ==> presented == null && audio.None?)
        && (!isSynchronized ==>
              presented == chosen && chosen.status == Presented
              && audio == if old(chosen.status) == Queued then
                PresentAudio(chosen.audioLength, chosen.audioSampleType, chosen.audioChannelCount, hasAudioCallback) else None)
    {
      presented, audio := null, None;
      if queue.count == 0 {
        timestamp := DefaultTimecode;
        return;
      }
      var r;
      if queue.count > 1 {
        r := queue.Get(1);
      } else {
        r := queue.Front();
      }
      var frame := r.value;
      timestamp := frame.timecode;
      if isSynchronized {
        return;
      }
      audio := PresentFrame(frame, None, deltaFlicks, hasAudioCallback);
      presented := frame;
    }

    /** PresentAt: DataMissing, showing nothing, while inactive, not synchronised or
      * without a queue. Otherwise the queue is searched at the presentation time, with
      * the format's frame duration and field order, and the frame found is shown at the
      * time into it that the search gives. */
    method PresentAt(isActive: bool, presentationFlicks: int, deltaFlicks: int, hasAudioCallback: bool)
      returns (status: SampleStatus, audio: Option<SynchronizedAudio>)
      requires Valid()
      modifies this`frameElapsed, this`unpackPass, FrameSlots()
      ensures Valid() && QueuedFrames() == old(QueuedFrames())
      ensures !isActive || !isSynchronized || queue == null ==>
        status == DataMissing && audio.None? && frameElapsed == old(frameElapsed) && unpackPass == old(unpackPass)
        && unchanged(FrameSlots())
      ensures isActive && isSynchronized && queue != null ==>
        var frames := old(QueuedFrames());
        var r := old(SampleSearch(Samples(QueuedFrames()), presentationFlicks, format.value.frameDuration, format.value.fieldDominance));
        status == r.status
        && (status == DataMissing ==>
              audio.None? && frameElapsed == old(frameElapsed) && unpackPass == old(unpackPass) && unchanged(FrameSlots()))
        && (status != DataMissing ==>
              var frame := frames[r.index];
              frame.status == Presented
              && unpackPass == UnpackPass(frame.fieldDominance, r.timeInFrame, frame.frameDuration)
              && frameElapsed == (if old(frame.status) == Queued then 0 else old(frameElapsed)) + deltaFlicks
              && audio == (if old(frame.status) == Queued then
                PresentAudio(frame.audioLength, frame.audioSampleType, frame.audioChannelCount, hasAudioCallback) else None)
              && forall i :: 0 <= i < |queue.slots| && queue.slots[i] != frame ==> unchanged(queue.slots[i]))
    {
      audio := None;
      if !isActive || !isSynchronized || queue == null {
        return DataMissing, audio;
      }
      var frames := queue.Contents();
      var sample, timeInFrame;
      status, sample, timeInFrame := TryGetSample(frames, presentationFlicks, format.value.frameDuration, format.value.fieldDominance);
      if status != DataMissing {
        audio := PresentFrame(sample, Some(timeInFrame), deltaFlicks, hasAudioCallback);
      }
    }

    /** The frames of the queue, the objects whose status a presentation changes. */
    ghost function FrameSlots(): set<object>
      reads this, queue
    {
      if queue == null then {} else set i | 0 <= i < |queue.slots| :: queue.slots[i]
    }

    /** TryGetBufferRange as written: for an active device with a queue, the timecodes
      * of the oldest and newest frames, read with Front and Back, which throw on an
      * empty queue; otherwise no range. */
    method TryGetBufferRangeAsWritten(isActive: bool) returns (r: Result<BufferRange>)
      requires Valid()
      ensures !isActive || queue == null ==> r == Success(NoRange)
      ensures isActive && queue != null && QueuedFrames() == [] ==> r == Failure(InvalidOperation)
      ensures isActive && QueuedFrames() != [] ==>
        r == Success(Range(QueuedFrames()[0].timecode, QueuedFrames()[|QueuedFrames()| - 1].timecode))
    {
      if isActive && queue != null {
        var front := queue.Front();
        if front.Failure? {
          return Failure(front.error);
        }
        var back := queue.Back();
        return Success(Range(front.value.timecode, back.value.timecode));
      }
      return Success(NoRange);
    }

    /** TryGetBufferRange with the empty queue reported as no range: it never fails, and
      * it reports a range exactly for an active device with queued frames. */
    method TryGetBufferRange(isActive: bool) returns (range: BufferRange)
      requires Valid()
      ensures range.Range? <==> isActive && QueuedFrames() != []
      ensures range.Range? ==>
        range.oldest == QueuedFrames()[0].timecode && range.newest == QueuedFrames()[|QueuedFrames()| - 1].timecode
    {
      if isActive && queue != null && queue.count > 0 {
        var front := queue.Front();
        var back := queue.Back();
        return Range(front.value.timecode, back.value.timecode);
      }
      return NoRange;
    }
  }

  /** Between a format change and the first frame the queue is empty, and TryGetBufferRange
    * as written throws there, on an active device, where the corrected one reports no
    * range. */
  method AsWrittenBufferRangeThrowsBeforeFirstFrame(device: InputDevice, format: InputVideoFormat)
    returns (asWritten: Result<BufferRange>, corrected: BufferRange)
    requires device.Valid() && format.byteWidth * format.byteHeight >= 0
    modifies device.Repr
    ensures asWritten == Failure(InvalidOperation) && corrected == NoRange
  {
    var _ := device.OnVideoFormatChanged(format);
    asWritten := device.TryGetBufferRangeAsWritten(true);
    corrected := device.TryGetBufferRange(true);
  }
}
