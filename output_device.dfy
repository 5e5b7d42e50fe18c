/** The playout device (DeckLinkOutputDevice.cs): the settings it asks the driver for
  * and the change detector that decides when the driver must be recreated, the video
  * mode (its own or the one of an input device it follows), the keying and link modes,
  * the timecode stamped on each frame, and the queue of GPU readbacks that feeds the
  * driver. The driver's answers (its frame duration and scan mode, the keying and link
  * calls) are the plugin record and method parameters; the readbacks' states are a
  * snapshot passed to the drain. */
module OutputDevices {
  import opened Wrappers
  import opened Arithmetic
  import opened PixelFormats
  import opened VideoSignals
  import opened VideoModeTable
  import opened ConnectorMappings
  import opened Timecodes
  import opened BufferedFrames
  import opened GpuReadbackPools
  import opened InputDevices

  /** OutputTimecodeMode; the TimecodeSource and TimecodeSynchronizer modes only exist
    * in builds with Live Capture. */
  type OutputTimecodeMode = int

  const TimecodeAuto: OutputTimecodeMode := 0
  const TimecodeSameAsInput: OutputTimecodeMode := 4
  const TimecodeSource: OutputTimecodeMode := 6
  const TimecodeSynchronizer: OutputTimecodeMode := 7

  /** SyncMode. */
  type SyncMode = int

  const ManualMode: SyncMode := 0
  const AsyncMode: SyncMode := 1

  /** DefaultVideoMode: 1080p at 24 frames a second. */
  const DefaultVideoMode: VideoMode := VideoMode(ResHD1080, Fps24, Progressive, 0x3234_7073)

  /** DefaultVideoMode is the registered mode for its triple. */
  lemma DefaultVideoModeIsRegistered()
    ensures TripleLookup(ResHD1080, Fps24, Progressive) == Some(DefaultVideoMode)
  {
    assert DefaultVideoMode == Hd1080pModes[1];
    assert DefaultVideoMode in Modes;
    TripleLookupExact(ResHD1080, Fps24, Progressive, DefaultVideoMode);
  }

  /** What the driver-side device reports: its frame duration in flicks, whether the
    * mode is progressive, the frame's dimensions and the size in bytes of its backing
    * frame. */
  datatype OutputPlugin = OutputPlugin(
    frameDuration: int,
    isProgressive: bool,
    width: int,
    height: int,
    backingBytes: int)

  /** BufferedFrameData: a frame waiting for its GPU readback. */
  datatype FrameData = FrameData(frameCount: int, request: Request, timecode: Option<Timecode>)

  /** The state of the readbacks when the queue is drained: those that report an error
    * at once, those that are done, and those that report an error only once waited
    * for. */
  datatype Readbacks = Readbacks(errored: set<Request>, done: set<Request>, failsOnWait: set<Request>)

  /** What a drain of the queue leaves: the frames fed, in order, the frames still
    * queued, and the exception that ended it, if any. */
  datatype Drained = Drained(fed: seq<FrameData>, rest: seq<FrameData>, fault: Option<Fault>)

  /** IsKeyingAvailable: keying needs a pixel format with an alpha channel. */
  predicate IsKeyingAvailable(requestedPixelFormat: PixelFormat)
  {
    requestedPixelFormat == ARGB8Bit || requestedPixelFormat == BGRA8Bit
  }

  /** Only the two 8-bit RGB formats with alpha make keying available; the YUV formats,
    * the 10- and 12-bit formats and the best-quality choice do not. */
  lemma KeyingAvailableFormats(format: PixelFormat)
    ensures IsKeyingAvailable(format) <==> format in {ARGB8Bit, BGRA8Bit}
    ensures !IsKeyingAvailable(YUV8Bit) && !IsKeyingAvailable(YUV10Bit) && !IsKeyingAvailable(UseBestQuality)
    ensures !IsKeyingAvailable(RGB10Bit) && !IsKeyingAvailable(RGB12Bit)
  {
  }

  /** Whether a readback counts as failed: at once, or after waiting for it in a
    * synchronous drain. */
  predicate HasError(request: Request, waited: bool, readbacks: Readbacks)
  {
    request in readbacks.errored || (waited && request in readbacks.failsOnWait)
  }

  /** The timecode a frame is fed with: its own, or one built from the frame counter,
    * which divides by the frame duration. */
  function FedTimecode(frame: FrameData, frameCount: int, frameDuration: int): (r: Result<Timecode>)
    requires frameDuration >= 0
    ensures frame.timecode.Some? ==> r == Success(frame.timecode.value)
    ensures frame.timecode.None? ==> (r.Failure? <==> frameDuration == 0)
    ensures r.Failure? ==> r.error == DivideByZero
    ensures frame.timecode.None? && r.Success? ==>
      r.value.flicks == frameCount * frameDuration && r.value.frameDuration == frameDuration && !r.value.isDropFrame
  {
    if frame.timecode.Some? then Success(frame.timecode.value)
    else FromFlicks(frameDuration, frameCount * frameDuration, false)
  }

  /** The loop of ProcessFrameQueue, oldest frame first: a failed readback is dropped; in
    * an asynchronous drain an unfinished readback ends the loop; otherwise the frame is
    * fed, its lock released and the counter advanced. A frame without a timecode when
    * the duration is 0 throws, and the loop ends there. */
  function Drain(queue: seq<FrameData>, sync: bool, readbacks: Readbacks, frameDuration: int): (d: Drained)
    ensures |d.fed| + |d.rest| <= |queue|
    decreases |queue|
  {
    if queue == [] then Drained([], [], None)
    else
      var frame := queue[0];
      if frame.request in readbacks.errored then Drain(queue[1..], sync, readbacks, frameDuration)
      else if !sync && frame.request !in readbacks.done then Drained([], queue, None)
      else if HasError(frame.request, sync, readbacks) then Drain(queue[1..], sync, readbacks, frameDuration)
      else if !Stampable(frame, frameDuration) then Drained([], queue, Some(DivideByZero))
      else
        var d := Drain(queue[1..], sync, readbacks, frameDuration);
        Drained([frame] + d.fed, d.rest, d.fault)
  }

  /** Whether a timecode can be given to the frame: it has its own, or the duration to
    * build one from the frame counter is positive. */
  predicate Stampable(frame: FrameData, frameDuration: int)
  {
    frame.timecode.Some? || frameDuration > 0
  }

  /** Whether every frame can be given a timecode. */
  predicate AllStampable(frames: seq<FrameData>, frameDuration: int)
  {
    forall k :: 0 <= k < |frames| ==> Stampable(frames[k], frameDuration)
  }

  /** The frames a drain keeps, in queue order: those whose readback did not fail. */
  function Kept(frames: seq<FrameData>, sync: bool, readbacks: Readbacks): (kept: seq<FrameData>)
    ensures |kept| <= |frames|
    ensures forall i :: 0 <= i < |kept| ==> kept[i] in frames && !HasError(kept[i].request, sync, readbacks)
  {
    if frames == [] then []
    else if HasError(frames[0].request, sync, readbacks) then Kept(frames[1..], sync, readbacks)
    else [frames[0]] + Kept(frames[1..], sync, readbacks)
  }

  /** The frame numbers the drain releases. */
  function FedFrames(fed: seq<FrameData>): (s: set<int>)
    ensures forall i :: 0 <= i < |fed| ==> fed[i].frameCount in s
    ensures forall n :: n in s ==> exists i :: 0 <= i < |fed| && fed[i].frameCount == n
  {
    set i | 0 <= i < |fed| :: fed[i].frameCount
  }

  /** What the drain leaves is the tail of the queue: every frame before it was either
    * dropped or fed. Without an exception, a synchronous drain empties the queue and an
    * asynchronous one stops at a readback that is neither failed nor done; the exception
    * is a division by zero, at a frame without a timecode when the duration is 0. */
  lemma {:induction false} DrainLeavesTail(queue: seq<FrameData>, sync: bool, readbacks: Readbacks, frameDuration: int)
    ensures var d := Drain(queue, sync, readbacks, frameDuration);
      d.rest == queue[|queue| - |d.rest|..]
      && (d.fault.None? && sync ==> d.rest == [])
      && (d.fault.None? && !sync && d.rest != [] ==>
            d.rest[0].request !in readbacks.done && d.rest[0].request !in readbacks.errored)
      && (d.fault.Some? ==> d.fault.value == DivideByZero && frameDuration <= 0 && d.rest != [] && d.rest[0].timecode.None?)
    decreases |queue|
  {
    if queue == [] {
      return;
    }
    var frame, tail := queue[0], queue[1..];
    var stops := !(frame.request in readbacks.errored || sync || frame.request in readbacks.done)
      || (!HasError(frame.request, sync, readbacks) && !Stampable(frame, frameDuration));
    if !stops {
      var e := Drain(tail, sync, readbacks, frameDuration);
      if HasError(frame.request, sync, readbacks) {
        DrainDrops(queue, sync, readbacks, frameDuration);
      } else {
        DrainFeeds(queue, sync, readbacks, frameDuration);
      }
      DrainLeavesTail(tail, sync, readbacks, frameDuration);
      assert tail[|tail| - |e.rest|..] == queue[|queue| - |e.rest|..];
    }
  }

  /** A step of the drain at a failed readback: the frame is dropped. */
  lemma DrainDrops(queue: seq<FrameData>, sync: bool, readbacks: Readbacks, frameDuration: int)
    requires queue != []
    requires queue[0].request in readbacks.errored
      || ((sync || queue[0].request in readbacks.done) && HasError(queue[0].request, sync, readbacks))
    ensures Drain(queue, sync, readbacks, frameDuration) == Drain(queue[1..], sync, readbacks, frameDuration)
  {
  }

  /** A step of the drain at a readback that is done and did not fail: the frame is fed
    * and the rest of the queue drained. */
  lemma DrainFeeds(queue: seq<FrameData>, sync: bool, readbacks: Readbacks, frameDuration: int)
    requires queue != [] && Stampable(queue[0], frameDuration)
    requires !HasError(queue[0].request, sync, readbacks) && (sync || queue[0].request in readbacks.done)
    ensures var e := Drain(queue[1..], sync, readbacks, frameDuration);
      Drain(queue, sync, readbacks, frameDuration) == Drained([queue[0]] + e.fed, e.rest, e.fault)
  {
  }

  /** FIFO order: the fed frames are exactly the frames kept from the part of the queue
    * the drain consumed, in queue order; so no failed readback is ever fed. */
  lemma {:induction false} DrainFeedsInOrder(queue: seq<FrameData>, sync: bool, readbacks: Readbacks, frameDuration: int)
    ensures var d := Drain(queue, sync, readbacks, frameDuration);
      d.fed == Kept(queue[..|queue| - |d.rest|], sync, readbacks)
    decreases |queue|
  {
    if queue == [] {
      return;
    }
    var d := Drain(queue, sync, readbacks, frameDuration);
    var frame, tail := queue[0], queue[1..];
    var stops := !(frame.request in readbacks.errored || sync || frame.request in readbacks.done)
      || (!HasError(frame.request, sync, readbacks) && !Stampable(frame, frameDuration));
    if stops {
      assert queue[..|queue| - |d.rest|] == [];
      return;
    }
    var n := |queue| - |d.rest|;
    var e := Drain(tail, sync, readbacks, frameDuration);
    if HasError(frame.request, sync, readbacks) {
      DrainDrops(queue, sync, readbacks, frameDuration);
    } else {
      DrainFeeds(queue, sync, readbacks, frameDuration);
    }
    DrainFeedsInOrder(tail, sync, readbacks, frameDuration);
    assert queue[..n] == [frame] + tail[..n - 1];
  }

  /** Adding a fed frame adds its number to the released ones. */
  lemma FedFramesAppend(fed: seq<FrameData>, x: FrameData)
    ensures FedFrames(fed + [x]) == FedFrames(fed) + {x.frameCount}
  {
    var s := fed + [x];
    assert s[|fed|] == x;
    forall n | n in FedFrames(s)
      ensures n in FedFrames(fed) + {x.frameCount}
    {
      var i :| 0 <= i < |s| && s[i].frameCount == n;
      if i < |fed| {
        assert s[i] == fed[i];
      }
    }
    forall i | 0 <= i < |fed|
      ensures fed[i].frameCount in FedFrames(s)
    {
      assert s[i] == fed[i];
    }
  }

  class OutputDevice {
    var sameVideoModeAsInput: bool
    var sameVideoModeAsInputDevice: InputDevice?
    var sdkDisplayMode: int
    var requestedPixelFormat: PixelFormat
    var requestedColorSpace: ColorSpace
    var requestedTransferFunction: TransferFunction
    var requestedSyncMode: SyncMode
    var currentPixelFormat: PixelFormat
    var currentColorSpace: ColorSpace
    var currentTransferFunction: TransferFunction
    var currentSyncMode: SyncMode
    var keyingMode: KeyingMode
    var linkMode: LinkMode
    var timecodeMode: OutputTimecodeMode
    var timecodeOverride: Option<Timecode>
    var plugin: Option<OutputPlugin>
    /** m_FormatName, held as the mode it names; None is the empty name. */
    var formatName: Option<VideoMode>
    /** Whether the odd field of an interlaced frame is cached (m_OddField is set). */
    var oddField: bool
    var frameCount: int
    var frameQueue: seq<FrameData>
    var requiresReinit: bool
    var resourcesUpdated: bool
    var keyingIsInitialized: bool
    var oldSdkDisplayMode: Option<int>
    var pool: PooledReadback

    /** The readback pool is consistent and the driver reports no negative duration. */
    ghost predicate Valid()
      reads this, pool
    {
      pool.Valid() && (plugin.Some? ==> plugin.value.frameDuration >= 0)
    }

    /** A new component: the default mode, YUV 8-bit in BT.709 with HLG, no keying, a
      * single link, no plugin, and the default mode recorded as last polled. */
    constructor()
      ensures Valid() && fresh(pool)
      ensures !sameVideoModeAsInput && sameVideoModeAsInputDevice == null && sdkDisplayMode == DefaultVideoMode.sdkValue
      ensures requestedPixelFormat == YUV8Bit && requestedColorSpace == BT709 && requestedTransferFunction == HLG
      ensures currentPixelFormat == YUV8Bit && currentColorSpace == BT709 && currentTransferFunction == HLG
      ensures requestedSyncMode == ManualMode && currentSyncMode == ManualMode
      ensures keyingMode == KeyingNone && linkMode == LinkSingle && timecodeMode == TimecodeAuto
      ensures timecodeOverride.None? && plugin.None? && formatName.None? && !oddField && frameCount == 0
      ensures frameQueue == [] && !requiresReinit && !resourcesUpdated && !keyingIsInitialized
      ensures oldSdkDisplayMode == Some(DefaultVideoMode.sdkValue)
      ensures pool.entries == [] && pool.inUse == map[]
    {
      sameVideoModeAsInput := false;
      sameVideoModeAsInputDevice := null;
      sdkDisplayMode := DefaultVideoMode.sdkValue;
      requestedPixelFormat := YUV8Bit;
      requestedColorSpace := BT709;
      requestedTransferFunction := HLG;
      requestedSyncMode := ManualMode;
      currentPixelFormat := YUV8Bit;
      currentColorSpace := BT709;
      currentTransferFunction := HLG;
      currentSyncMode := ManualMode;
      keyingMode := KeyingNone;
      linkMode := LinkSingle;
      timecodeMode := TimecodeAuto;
      timecodeOverride := None;
      plugin := None;
      formatName := None;
      oddField := false;
      frameCount := 0;
      frameQueue := [];
      requiresReinit := false;
      resourcesUpdated := false;
      keyingIsInitialized := false;
      oldSdkDisplayMode := Some(DefaultVideoMode.sdkValue);
      pool := new PooledReadback();
    }

    /** The driver runs with every requested setting and needs no reinitialisation. */
    predicate SettingsCurrent()
      reads this
    {
      requestedPixelFormat == currentPixelFormat && requestedColorSpace == currentColorSpace
      && requestedTransferFunction == currentTransferFunction && currentSyncMode == requestedSyncMode
      && !requiresReinit
    }

    /** The UpdateSettings getter: an update is due exactly when a requested setting
      * differs from the one in use or a reinitialisation is pending; when none is due,
      * the resources are marked as not updated. */
    method UpdateSettings() returns (update: bool)
      modifies this`resourcesUpdated
      ensures !update <==>
        requestedPixelFormat == currentPixelFormat && requestedColorSpace == currentColorSpace
        && requestedTransferFunction == currentTransferFunction && currentSyncMode == requestedSyncMode
        && !requiresReinit
      ensures !update ==> !resourcesUpdated
      ensures update ==> resourcesUpdated == old(resourcesUpdated)
    {
      if SettingsCurrent() {
        resourcesUpdated := false;
        return false;
      }
      return true;
    }

    /** A successful UpdateResources: DestroyResources, then CreatePlugin, then
      * InitializeKeyingPlugin when the driver finds the configuration valid; the pending
      * reinitialisation is cleared, so no further update is due. Whether the
      * configuration is valid, whether the card can key in the mode and whether the
      * driver accepts keying are the driver's answers. */
    method ApplySettings(created: OutputPlugin, validConfiguration: bool, keyingCompatible: bool, initializeSucceeds: bool)
      requires created.frameDuration >= 0 && pool.Valid()
      modifies this`currentPixelFormat, this`currentColorSpace, this`currentTransferFunction, this`currentSyncMode
      modifies this`plugin, this`frameCount, this`requiresReinit, this`resourcesUpdated
      modifies this`frameQueue, this`oddField, this`keyingIsInitialized, pool
      ensures Valid() && SettingsCurrent() && resourcesUpdated
      ensures plugin == Some(created) && frameCount == 0
      ensures currentPixelFormat == requestedPixelFormat && currentColorSpace == requestedColorSpace
      ensures currentTransferFunction == requestedTransferFunction && currentSyncMode == requestedSyncMode
      ensures frameQueue == [] && !oddField && pool.entries == [] && pool.inUse == map[]
      ensures validConfiguration && requestedColorSpace != BT2020 ==>
        (keyingIsInitialized <==> keyingMode != KeyingNone && keyingCompatible && initializeSucceeds)
      ensures !validConfiguration || requestedColorSpace == BT2020 ==> keyingIsInitialized == old(keyingIsInitialized)
    {
      DestroyResources();
      CreatePlugin(created);
      if validConfiguration {
        InitializeKeyingPlugin(keyingCompatible, initializeSucceeds);
      }
      requiresReinit := false;
      resourcesUpdated := true;
    }

    /** DestroyResources: the frame queue is emptied, the cached odd field released and
      * the readback pool disposed. */
    method DestroyResources()
      requires pool.Valid()
      modifies this`frameQueue, this`oddField, pool
      ensures frameQueue == [] && !oddField && pool.Valid() && pool.entries == [] && pool.inUse == map[]
    {
      oddField := false;
      frameQueue := [];
      pool.Dispose();
    }

    /** CreatePlugin: the new plugin runs with the requested settings, from frame 0. */
    method CreatePlugin(created: OutputPlugin)
      modifies this`currentPixelFormat, this`currentColorSpace, this`currentTransferFunction, this`currentSyncMode
      modifies this`plugin, this`frameCount
      ensures plugin == Some(created) && frameCount == 0
      ensures currentPixelFormat == requestedPixelFormat && currentColorSpace == requestedColorSpace
      ensures currentTransferFunction == requestedTransferFunction && currentSyncMode == requestedSyncMode
    {
      currentSyncMode := requestedSyncMode;
      plugin := Some(created);
      frameCount := 0;
      currentPixelFormat := requestedPixelFormat;
      currentColorSpace := requestedColorSpace;
      currentTransferFunction := requestedTransferFunction;
    }

    /** InitializeKeyingPlugin: keying is not compatible with BT.2020, which leaves the
      * keying flag alone; otherwise keying is initialised exactly when a keying mode is
      * set, the card can key in it and the driver accepts. */
    method InitializeKeyingPlugin(keyingCompatible: bool, initializeSucceeds: bool)
      modifies this`keyingIsInitialized
      ensures currentColorSpace != BT2020 ==>
        (keyingIsInitialized <==> keyingMode != KeyingNone && keyingCompatible && initializeSucceeds)
      ensures currentColorSpace == BT2020 ==> keyingIsInitialized == old(keyingIsInitialized)
    {
      if currentColorSpace == BT2020 {
        return;
      }
      keyingIsInitialized := false;
      if keyingMode != KeyingNone && keyingCompatible {
        var _ := InitializeKeying(initializeSucceeds);
      }
    }

    /** ChangePixelFormat records the request; a format other than the one in use makes
      * an update due. */
    method ChangePixelFormat(pixelFormat: PixelFormat)
      modifies this`requestedPixelFormat
      ensures requestedPixelFormat == pixelFormat
      ensures pixelFormat != currentPixelFormat ==> !SettingsCurrent()
    {
      requestedPixelFormat := pixelFormat;
    }

    /** ChangeColorSpace records the request; a colour space other than the one in use
      * makes an update due. */
    method ChangeColorSpace(colorSpace: ColorSpace)
      modifies this`requestedColorSpace
      ensures requestedColorSpace == colorSpace
      ensures colorSpace != currentColorSpace ==> !SettingsCurrent()
    {
      requestedColorSpace := colorSpace;
    }

    /** ChangeTransferFunction records the request; a transfer function other than the
      * one in use makes an update due. */
    method ChangeTransferFunction(transferFunction: TransferFunction)
      modifies this`requestedTransferFunction
      ensures requestedTransferFunction == transferFunction
      ensures transferFunction != currentTransferFunction ==> !SettingsCurrent()
    {
      requestedTransferFunction := transferFunction;
    }

    /** FrameDuration: 0 without a plugin; the plugin's frame duration for progressive
      * video and the field duration, half of it truncated, for interlaced video. */
    function FrameDuration(): (d: int)
      reads this
      ensures plugin.None? ==> d == 0
      ensures plugin.Some? && plugin.value.isProgressive ==> d == plugin.value.frameDuration
      ensures plugin.Some? && !plugin.value.isProgressive && plugin.value.frameDuration >= 0 ==>
        0 <= d && 2 * d <= plugin.value.frameDuration <= 2 * d + 1
    {
      if plugin.None? then 0
      else if plugin.value.isProgressive then plugin.value.frameDuration
      else TDiv(plugin.value.frameDuration, 2)
    }

    /** The FormatName setter: a new name is stored, and asks for a reinitialisation
      * unless the mode follows an input device. */
    method SetFormatName(value: Option<VideoMode>)
      modifies this`formatName, this`requiresReinit
      ensures formatName == value
      ensures requiresReinit == (old(requiresReinit) || (value != old(formatName) && !sameVideoModeAsInput))
    {
      if value != formatName {
        formatName := value;
        if !sameVideoModeAsInput {
          requiresReinit := true;
        }
      }
    }

    /** ChangeVideoConfiguration as written: the result says whether the triple is a
      * registered mode. A registered mode other than the current one, or any call while
      * the mode follows an input device, stops following it, stores the mode's code and
      * name and asks for a reinitialisation; a triple that is no mode while following
      * an input device reads the missing mode and throws, after following has stopped. */
    method ChangeVideoConfigurationAsWritten(resolution: Resolution, frameRate: VideoModeTable.FrameRate, scanMode: ScanMode)
      returns (r: Result<bool>)
      modifies this`sameVideoModeAsInput, this`sdkDisplayMode, this`formatName, this`requiresReinit
      ensures var mode := TripleLookup(resolution, frameRate, scanMode);
        (r.Failure? <==> mode.None? && old(sameVideoModeAsInput))
        && (r.Failure? ==>
              r.error == InvalidOperation && !sameVideoModeAsInput && sdkDisplayMode == old(sdkDisplayMode)
              && formatName == old(formatName) && requiresReinit == old(requiresReinit))
        && (r.Success? ==> r.value == mode.Some?)
        && (r.Success? && ((mode.Some? && old(sdkDisplayMode) != mode.value.sdkValue) || old(sameVideoModeAsInput)) ==>
              !sameVideoModeAsInput && sdkDisplayMode == mode.value.sdkValue && formatName == mode && requiresReinit)
        && (r.Success? && !((mode.Some? && old(sdkDisplayMode) != mode.value.sdkValue) || old(sameVideoModeAsInput)) ==>
              sameVideoModeAsInput == old(sameVideoModeAsInput) && sdkDisplayMode == old(sdkDisplayMode)
              && formatName == old(formatName) && requiresReinit == old(requiresReinit))
    {
      var mode := TripleLookup(resolution, frameRate, scanMode);
      var modeIsValid := mode.Some?;
      if (modeIsValid && sdkDisplayMode != mode.value.sdkValue) || sameVideoModeAsInput {
        sameVideoModeAsInput := false;
        if mode.None? {
          return Failure(InvalidOperation);
        }
        sdkDisplayMode := mode.value.sdkValue;
        SetFormatName(mode);
        requiresReinit := true;
      }
      return Success(modeIsValid);
    }

    /** ChangeVideoConfiguration with the guard grouped as intended: only a registered
      * mode is applied, when it differs from the current one or the mode follows an
      * input device; a triple that is no mode changes nothing and reports false. */
    method ChangeVideoConfiguration(resolution: Resolution, frameRate: VideoModeTable.FrameRate, scanMode: ScanMode)
      returns (valid: bool)
      modifies this`sameVideoModeAsInput, this`sdkDisplayMode, this`formatName, this`requiresReinit
      ensures var mode := TripleLookup(resolution, frameRate, scanMode);
        (valid <==> mode.Some?)
        && (valid ==> sdkDisplayMode == mode.value.sdkValue && SdkLookup(sdkDisplayMode) == mode && !sameVideoModeAsInput)
        && (valid && (old(sdkDisplayMode) != mode.value.sdkValue || old(sameVideoModeAsInput)) ==>
              formatName == mode && requiresReinit && !SettingsCurrent())
        && (!valid || (old(sdkDisplayMode) == mode.value.sdkValue && !old(sameVideoModeAsInput)) ==>
              sameVideoModeAsInput == old(sameVideoModeAsInput) && sdkDisplayMode == old(sdkDisplayMode)
              && formatName == old(formatName) && requiresReinit == old(requiresReinit))
    {
      var mode := TripleLookup(resolution, frameRate, scanMode);
      valid := mode.Some?;
      if valid {
        TripleLookupExact(resolution, frameRate, scanMode, mode.value);
        SdkLookupExact(mode.value.sdkValue, mode.value);
        if sdkDisplayMode != mode.value.sdkValue || sameVideoModeAsInput {
          sameVideoModeAsInput := false;
          sdkDisplayMode := mode.value.sdkValue;
          SetFormatName(mode);
          requiresReinit := true;
        }
      }
    }

    /** ChangeKeyingMode. Asking for the current mode changes nothing and reports false.
      * Otherwise the mode is stored and the device's state decides: an inactive device
      * reports true and applies it later; turning keying off disables it when it was
      * initialized; a mode the card's connector mapping cannot key, or BT.2020 output,
      * reports false; otherwise the mode is changed, or keying initialized. The driver's
      * answers are parameters. Settings needing a new driver are untouched. */
    method ChangeKeyingMode(mode: KeyingMode, isActive: bool, compatible: bool,
                            disableSucceeds: bool, changeSucceeds: bool, initializeSucceeds: bool)
      returns (ok: bool)
      modifies this`keyingMode, this`keyingIsInitialized
      ensures old(keyingMode) == mode ==> !ok && keyingIsInitialized == old(keyingIsInitialized)
      ensures keyingMode == mode
      ensures SettingsCurrent() == old(SettingsCurrent())
      ensures old(keyingMode) != mode && !isActive ==> ok && keyingIsInitialized == old(keyingIsInitialized)
      ensures old(keyingMode) != mode && isActive && mode == KeyingNone ==>
        ok == (!old(keyingIsInitialized) || disableSucceeds) && keyingIsInitialized == old(keyingIsInitialized)
      ensures old(keyingMode) != mode && isActive && mode != KeyingNone && (!compatible || currentColorSpace == BT2020) ==>
        !ok && keyingIsInitialized == old(keyingIsInitialized)
      ensures old(keyingMode) != mode && isActive && mode != KeyingNone && compatible && currentColorSpace != BT2020 ==>
        (old(keyingIsInitialized) ==> ok == changeSucceeds && keyingIsInitialized)
        && (!old(keyingIsInitialized) ==> ok == initializeSucceeds && keyingIsInitialized == initializeSucceeds)
      ensures ok && isActive && mode != KeyingNone ==> compatible && currentColorSpace != BT2020
    {
      if keyingMode == mode {
        return false;
      }
      keyingMode := mode;
      if !isActive {
        return true;
      }
      if mode == KeyingNone {
        return if keyingIsInitialized then disableSucceeds else true;
      }
      if !compatible {
        return false;
      }
      if currentColorSpace == BT2020 {
        return false;
      }
      if keyingIsInitialized {
        ok := changeSucceeds;
      } else {
        ok := InitializeKeying(initializeSucceeds);
      }
    }

    /** InitializeKeying: keying is initialized exactly when the driver accepts it. */
    method InitializeKeying(initializeSucceeds: bool) returns (ok: bool)
      modifies this`keyingIsInitialized
      ensures ok == initializeSucceeds && keyingIsInitialized == ok
    {
      keyingIsInitialized := initializeSucceeds;
      ok := keyingIsInitialized;
    }

    /** ChangeLinkMode as written: the current mode reports false; otherwise the mode is
      * stored, an inactive device reports true, and so does a mode the card cannot
      * link; otherwise the driver's answer. */
    method ChangeLinkModeAsWritten(mode: LinkMode, isActive: bool, compatible: bool, setSucceeds: bool)
      returns (ok: bool)
      modifies this`linkMode
      ensures linkMode == mode
      ensures ok <==> old(linkMode) != mode && (!isActive || !compatible || setSucceeds)
    {
      if linkMode == mode {
        return false;
      }
      linkMode := mode;
      if !isActive {
        return true;
      }
      if !compatible {
        return true;
      }
      return setSucceeds;
    }

    /** ChangeLinkMode as intended: an active device whose card cannot link in the
      * requested mode reports false, as it does for an incompatible keying mode; the
      * mode is still stored for a later reinitialisation. Settings needing a new driver
      * are untouched. */
    method ChangeLinkMode(mode: LinkMode, isActive: bool, compatible: bool, setSucceeds: bool)
      returns (ok: bool)
      modifies this`linkMode
      ensures linkMode == mode
      ensures SettingsCurrent() == old(SettingsCurrent())
      ensures ok <==> old(linkMode) != mode && (!isActive || (compatible && setSucceeds))
      ensures ok && isActive ==> compatible
    {
      if linkMode == mode {
        return false;
      }
      linkMode := mode;
      if !isActive {
        return true;
      }
      if !compatible {
        return false;
      }
      return setSucceeds;
    }

    /** ResolveSDKDisplayMode: the device's own mode, or, while following an input
      * device, that device's mode when it has a format with a known mode. */
    function ResolveSDKDisplayMode(): (r: Option<int>)
      reads this, sameVideoModeAsInputDevice
      ensures !sameVideoModeAsInput ==> r == Some(sdkDisplayMode)
      ensures sameVideoModeAsInput && sameVideoModeAsInputDevice == null ==> r.None?
      ensures sameVideoModeAsInput && sameVideoModeAsInputDevice != null ==>
        (r.Some? <==> sameVideoModeAsInputDevice.format.Some? && sameVideoModeAsInputDevice.format.value.mode.Some?)
        && (r.Some? ==> r.value == sameVideoModeAsInputDevice.format.value.mode.value.sdkValue)
    {
      if sameVideoModeAsInput then
        if sameVideoModeAsInputDevice == null then None
        else
          var format := sameVideoModeAsInputDevice.format;
          if format.Some? && format.value.mode.Some? then Some(format.value.mode.value.sdkValue) else None
      else Some(sdkDisplayMode)
    }

    /** The last poll saw the mode that resolves now. */
    predicate Polled()
      reads this, sameVideoModeAsInputDevice
    {
      oldSdkDisplayMode == ResolveSDKDisplayMode()
    }

    /** PollSameVideoModeAsInputDevice: the resolved mode is returned and recorded, and
      * reported as changed exactly when it differs from the one the last poll recorded;
      * so a poll right after another reports no change. */
    method PollSameVideoModeAsInputDevice() returns (mode: Option<int>, changed: bool)
      modifies this`oldSdkDisplayMode
      ensures mode == ResolveSDKDisplayMode() == old(ResolveSDKDisplayMode())
      ensures changed <==> old(oldSdkDisplayMode) != mode
      ensures Polled() && oldSdkDisplayMode == mode
      ensures old(Polled()) ==> !changed
    {
      mode := ResolveSDKDisplayMode();
      changed := oldSdkDisplayMode != mode;
      oldSdkDisplayMode := mode;
    }

    /** ChangeSameVideoModeAsInputDevice: the switch and the input device are stored and
      * the mode polled; a changed mode asks for a reinitialisation. The result says
      * whether the switch or the device changed. */
    method ChangeSameVideoModeAsInputDevice(enabled: bool, inputDevice: InputDevice?) returns (changedConfig: bool)
      modifies this`sameVideoModeAsInput, this`sameVideoModeAsInputDevice, this`oldSdkDisplayMode, this`requiresReinit
      ensures sameVideoModeAsInput == enabled && sameVideoModeAsInputDevice == inputDevice
      ensures changedConfig <==> old(sameVideoModeAsInput) != enabled || old(sameVideoModeAsInputDevice) != inputDevice
      ensures Polled()
      ensures requiresReinit == (old(requiresReinit) || old(oldSdkDisplayMode) != ResolveSDKDisplayMode())
    {
      var changedEnabled := sameVideoModeAsInput != enabled;
      var changedDevice := sameVideoModeAsInputDevice != inputDevice;
      sameVideoModeAsInput := enabled;
      sameVideoModeAsInputDevice := inputDevice;
      var _, changed := PollSameVideoModeAsInputDevice();
      if changed {
        requiresReinit := true;
      }
      changedConfig := changedEnabled || changedDevice;
    }

    /** SetTimecodeOverride: the override is stored, and from then on decides the
      * timecode whatever the timecode mode. */
    method SetTimecodeOverride(timecode: Option<Timecode>)
      modifies this`timecodeOverride
      ensures timecodeOverride == timecode
      ensures timecode.Some? ==> GetTimecode() == timecode
    {
      timecodeOverride := timecode;
    }

    /** GetTimecode: an override comes first; otherwise, in the SameAsInput mode while
      * the mode follows an input device, that device's timestamp; otherwise none, and
      * frames are numbered instead. */
    function GetTimecode(): (r: Option<Timecode>)
      reads this, sameVideoModeAsInputDevice
      ensures timecodeOverride.Some? ==> r == timecodeOverride
      ensures timecodeOverride.None? ==>
        (r.Some? <==> timecodeMode == TimecodeSameAsInput && sameVideoModeAsInput && sameVideoModeAsInputDevice != null)
      ensures timecodeOverride.None? && r.Some? ==> r.value == sameVideoModeAsInputDevice.timestamp
    {
      if timecodeOverride.Some? then timecodeOverride
      else if timecodeMode == TimecodeSameAsInput && sameVideoModeAsInput && sameVideoModeAsInputDevice != null then
        Some(sameVideoModeAsInputDevice.timestamp)
      else None
    }

    /** The Timestamp getter: the timecode GetTimecode gives, or else the one of the
      * current frame number at the plugin's frame duration, or the default timecode
      * without a plugin or with a zero duration. */
    function Timestamp(): (t: Timecode)
      requires plugin.Some? ==> plugin.value.frameDuration >= 0
      reads this, sameVideoModeAsInputDevice
      ensures GetTimecode().Some? ==> t == GetTimecode().value
      ensures GetTimecode().None? && (plugin.None? || plugin.value.frameDuration == 0) ==> t == DefaultTimecode
      ensures GetTimecode().None? && plugin.Some? && plugin.value.frameDuration != 0 ==>
        t.flicks == frameCount * plugin.value.frameDuration && t.frameDuration == plugin.value.frameDuration && !t.isDropFrame
    {
      var timecode := GetTimecode();
      if timecode.Some? then timecode.value
      else
        var frameDuration := if plugin.Some? then plugin.value.frameDuration else 0;
        if frameDuration == 0 then DefaultTimecode
        else FromFlicks(frameDuration, frameCount * frameDuration, false).value
    }

    /** EncodeFrameAndAddToQueue, past the GPU work: nothing happens for a frame of one
      * pixel or less; progressive video queues every frame; interlaced video caches the
      * first field and queues the combined frame with the second, so the queue grows on
      * every other call. A queued frame carries the frame number, the readback `request`
      * the GPU issues into a pooled buffer, which locks the frame number, and the
      * timecode GetTimecode gives. */
    method EncodeFrameAndAddToQueue(request: Request, done: set<Request>) returns (enqueued: bool)
      requires Valid() && plugin.Some?
      modifies this`oddField, this`frameQueue, pool
      ensures Valid()
      ensures plugin.value.width <= 1 || plugin.value.height <= 1 ==>
        !enqueued && oddField == old(oddField) && pool.inUse == old(pool.inUse) && pool.entries == old(pool.entries)
      ensures plugin.value.width > 1 && plugin.value.height > 1 ==>
        (enqueued, oddField) == FieldStep(old(oddField), plugin.value.isProgressive)
      ensures !enqueued ==> frameQueue == old(frameQueue)
      ensures enqueued ==>
        frameQueue == old(frameQueue) + [FrameData(frameCount, request, old(GetTimecode()))]
        && pool.inUse == old(pool.inUse)[frameCount := true]
    {
      enqueued := false;
      if plugin.value.width <= 1 || plugin.value.height <= 1 {
        return;
      }
      if !plugin.value.isProgressive {
        if !oddField {
          oddField := true;
          return;
        }
        oddField := false;
      }
      var issued := pool.RequestGPUReadBack(frameCount, plugin.value.backingBytes, done, request);
      frameQueue := frameQueue + [FrameData(frameCount, issued, GetTimecode())];
      enqueued := true;
    }

    /** ProcessFrameQueue, proved against Drain: the frames fed, the frames left and the
      * exception are the drain's; the k-th fed frame is fed under frame number
      * old(frameCount) + k, so with the timecode FedTimecode gives it, and its lock is
      * released. */
    method ProcessFrameQueue(sync: bool, readbacks: Readbacks) returns (fed: seq<FrameData>, fault: Option<Fault>)
      requires Valid() && plugin.Some?
      modifies this`frameQueue, this`frameCount, pool
      ensures Valid()
      ensures var d := Drain(old(frameQueue), sync, readbacks, plugin.value.frameDuration);
        fed == d.fed && frameQueue == d.rest && fault == d.fault
      ensures frameCount == old(frameCount) + |fed| && AllStampable(fed, plugin.value.frameDuration)
      ensures pool.inUse == old(pool.inUse) - FedFrames(fed)
      ensures pool.entries == old(pool.entries)
    {
      var frameDuration := plugin.value.frameDuration;
      ghost var target := Drain(frameQueue, sync, readbacks, frameDuration);
      fed, fault := [], None;
      while |frameQueue| > 0
        invariant Valid() && pool.entries == old(pool.entries)
        invariant pool.inUse == old(pool.inUse) - FedFrames(fed)
        invariant frameCount == old(frameCount) + |fed| && AllStampable(fed, frameDuration)
        invariant var d := Drain(frameQueue, sync, readbacks, frameDuration);
          target == Drained(fed + d.fed, d.rest, d.fault)
        decreases |frameQueue|
      {
        var frame := frameQueue[0];
        if frame.request in readbacks.errored {
          DrainDrops(frameQueue, sync, readbacks, frameDuration);
          frameQueue := frameQueue[1..];
          continue;
        }
        if !sync && frame.request !in readbacks.done {
          assert Drain(frameQueue, sync, readbacks, frameDuration) == Drained([], frameQueue, None);
          assert fed + [] == fed;
          break;
        }
        if HasError(frame.request, sync, readbacks) {
          DrainDrops(frameQueue, sync, readbacks, frameDuration);
          frameQueue := frameQueue[1..];
          continue;
        }
        var timecode := FedTimecode(frame, frameCount, frameDuration);
        if timecode.Failure? {
          assert Drain(frameQueue, sync, readbacks, frameDuration) == Drained([], frameQueue, Some(DivideByZero));
          assert fed + [] == fed;
          fault := Some(timecode.error);
          return;
        }
        ghost var e := Drain(frameQueue[1..], sync, readbacks, frameDuration);
        assert Drain(frameQueue, sync, readbacks, frameDuration) == Drained([frame] + e.fed, e.rest, e.fault);
        assert fed + ([frame] + e.fed) == (fed + [frame]) + e.fed;
        Advance(frame.frameCount);
        FedFramesAppend(fed, frame);
        fed := fed + [frame];
      }
      if frameQueue == [] {
        assert fed + [] == fed;
      }
    }

    /** The end of a feed: the frame's lock is released, the counter advanced and the
      * frame dequeued. */
    method Advance(frameNumber: int)
      requires Valid() && frameQueue != []
      modifies this`frameQueue, this`frameCount, pool
      ensures Valid() && pool.entries == old(pool.entries)
      ensures pool.inUse == old(pool.inUse) - {frameNumber}
      ensures frameCount == old(frameCount) + 1 && frameQueue == old(frameQueue[1..])
    {
      pool.BMDRelease(frameNumber);
      frameCount := frameCount + 1;
      frameQueue := frameQueue[1..];
    }
  }

  /** One call's effect on the field cache: whether a frame is queued, and whether a
    * field is cached afterwards. */
  function FieldStep(oddField: bool, isProgressive: bool): (r: (bool, bool))
    ensures isProgressive ==> r == (true, oddField)
    ensures !isProgressive ==> r.1 == !oddField && r.0 == oddField
  {
    if isProgressive then (true, oddField)
    else if !oddField then (false, true)
    else (true, false)
  }

  /** The frames queued by n calls from a given field-cache state, and the state after
    * them. */
  function QueuedOver(n: nat, oddField: bool, isProgressive: bool): (r: (nat, bool))
  {
    if n == 0 then (0, oddField)
    else
      var step := FieldStep(oddField, isProgressive);
      var rest := QueuedOver(n - 1, step.1, isProgressive);
      ((if step.0 then 1 else 0) + rest.0, rest.1)
  }

  /** Progressive video queues a frame per call; interlaced video, starting with no
    * field cached, queues one frame for every two calls and holds a field after an odd
    * number of them. */
  lemma {:induction false} FieldsAlternateOutput(n: nat, oddField: bool)
    ensures QueuedOver(n, oddField, true) == (n, oddField)
    ensures !oddField ==> QueuedOver(n, false, false) == (n / 2, n % 2 == 1)
    ensures oddField ==> QueuedOver(n, true, false) == ((n + 1) / 2, n % 2 == 0)
  {
    if n > 0 {
      FieldsAlternateOutput(n - 1, oddField);
      FieldsAlternateOutput(n - 1, !oddField);
    }
  }
}
