/** The managed side of a capture device (DeckLinkInputDevicePlugin.cs): the format
  * record built from what the driver reports, and the static dictionary that routes
  * the driver's callbacks to the plugin registered under the callback's device index.
  * The native device is its handle, an integer that is 0 when creation failed. */
module InputPlugins {
  import opened Wrappers
  import opened Arithmetic
  import opened BcdTimecode
  import opened PixelFormats
  import opened VideoSignals
  import opened VideoModeTable

  /** InputVideoFormatData, the struct the driver fills in. */
  datatype InputVideoFormatData = InputVideoFormatData(
    deviceIndex: int,
    mode: int,
    width: int,
    height: int,
    frameRateNumerator: int,
    frameRateDenominator: int,
    fieldDominance: int,
    formatCode: int,
    colorSpaceCode: int,
    transferFunction: int,
    formatName: string)

  /** InputVideoFormat: the format the managed code works with. */
  datatype InputVideoFormat = InputVideoFormat(
    mode: Option<VideoMode>,
    width: int,
    height: int,
    byteWidth: int,
    byteHeight: int,
    byteDepth: int,
    frameRateNumerator: int,
    frameRateDenominator: int,
    frameDuration: int,
    fieldDominance: FieldDominance,
    pixelFormat: PixelFormat,
    colorSpace: ColorSpace,
    transferFunction: TransferFunction,
    formatName: string,
    message: string)

  /** The InputVideoFormat constructor: the mode is looked up by its SDK code and may be
    * missing; the byte layout comes from the pixel format; a frame lasts
    * FlicksPerSecond * denominator / numerator flicks, truncated, or 0 without a
    * positive numerator; every other field is copied. */
  function MakeInputVideoFormat(data: InputVideoFormatData, message: string): (f: InputVideoFormat)
    ensures f.mode.Some? ==> f.mode.value in Modes && f.mode.value.sdkValue == data.mode
    ensures f.mode == SdkLookup(data.mode)
    ensures f.byteWidth == ByteWidth(data.formatCode, data.width)
    ensures f.byteHeight == ByteHeight(data.formatCode, data.height)
    ensures f.byteDepth == ByteDepth(data.formatCode)
    ensures data.frameRateNumerator <= 0 ==> f.frameDuration == 0
    ensures data.frameRateNumerator > 0 && data.frameRateDenominator >= 0 ==>
      f.frameDuration >= 0
      && f.frameDuration * data.frameRateNumerator <= FlicksPerSecond * data.frameRateDenominator
      < (f.frameDuration + 1) * data.frameRateNumerator
    ensures f.width == data.width && f.height == data.height && f.pixelFormat == data.formatCode
    ensures f.frameRateNumerator == data.frameRateNumerator && f.frameRateDenominator == data.frameRateDenominator
    ensures f.fieldDominance == data.fieldDominance && f.colorSpace == data.colorSpaceCode
    ensures f.transferFunction == data.transferFunction && f.formatName == data.formatName && f.message == message
  {
    var mode := SdkLookup(data.mode);
    assert mode.Some? ==> mode.value in Modes by {
      if mode.Some? {
        SdkLookupExact(data.mode, mode.value);
      }
    }
    var duration :=
      if data.frameRateNumerator > 0 then TDiv(FlicksPerSecond * data.frameRateDenominator, data.frameRateNumerator)
      else 0;
    assert data.frameRateNumerator > 0 && data.frameRateDenominator >= 0 ==>
      duration >= 0 && duration * data.frameRateNumerator <= FlicksPerSecond * data.frameRateDenominator
      < (duration + 1) * data.frameRateNumerator by {
      if data.frameRateNumerator > 0 && data.frameRateDenominator >= 0 {
        MulNonneg(FlicksPerSecond, data.frameRateDenominator);
        FramePeriod(FlicksPerSecond * data.frameRateDenominator, data.frameRateNumerator);
      }
    }
    InputVideoFormat(
      mode, data.width, data.height,
      ByteWidth(data.formatCode, data.width), ByteHeight(data.formatCode, data.height), ByteDepth(data.formatCode),
      data.frameRateNumerator, data.frameRateDenominator, duration,
      data.fieldDominance, data.formatCode, data.colorSpaceCode, data.transferFunction, data.formatName, message)
  }

  /** The format carries a mode exactly when the SDK code is that mode's row of the
    * table: a known code is never lost, and no other mode is reported. */
  lemma FormatModeIsRow(data: InputVideoFormatData, message: string, m: VideoMode)
    ensures MakeInputVideoFormat(data, message).mode == Some(m) <==> m in Modes && m.sdkValue == data.mode
  {
    SdkLookupExact(data.mode, m);
  }

  /** The truncated quotient of a non-negative numerator is the largest multiple of the
    * divisor that fits. */
  lemma FramePeriod(n: int, d: int)
    requires n >= 0 && d > 0
    ensures TDiv(n, d) >= 0 && TDiv(n, d) * d <= n < (TDiv(n, d) + 1) * d
  {
    DivNonneg(n, d);
    assert n == (n / d) * d + n % d;
  }

  /** At the 59.94 Hz of the mode table (60000/1001 frames a second) a frame is a whole
    * number of flicks, 11 771 760, so the truncation loses nothing. */
  lemma FrameDurationsOfCommonRates(data: InputVideoFormatData)
    requires data.frameRateDenominator == 1001 && data.frameRateNumerator == 60000
    ensures MakeInputVideoFormat(data, "").frameDuration == 11_771_760
  {
    assert FlicksPerSecond * 1001 == 11_771_760 * 60000;
  }

  /** A driver-side device: its native handle and the device index it was created with. */
  class InputDevicePlugin {
    var device: int
    var deviceIndex: int

    constructor(deviceIndex: int)
      ensures this.deviceIndex == deviceIndex && device == 0
    {
      this.deviceIndex := deviceIndex;
      device := 0;
    }

    /** Dispose, as the rest of the model uses it: a plugin still holding its index
      * leaves the dictionary, whether or not the native device was created; the native
      * device is destroyed; the handle becomes 0 and the index -1, so a second call
      * does nothing. */
    method Dispose(registry: PluginRegistry)
      modifies this, registry
      ensures (registry.indexToPlugin, device, deviceIndex)
        == Disposed(old(registry.indexToPlugin), old(device), old(deviceIndex))
    {
      if deviceIndex != -1 {
        registry.indexToPlugin := registry.indexToPlugin - {deviceIndex};
        device := 0;
        deviceIndex := -1;
      }
    }
  }

  /** The static s_IndexToPlugin dictionary. */
  class PluginRegistry {
    var indexToPlugin: map<int, InputDevicePlugin>

    constructor()
      ensures indexToPlugin == map[]
    {
      indexToPlugin := map[];
    }
  }

  /** Dictionary.Add: a second entry under the same index throws ArgumentException. */
  function Register(m: map<int, InputDevicePlugin>, index: int, plugin: InputDevicePlugin): (r: Result<map<int, InputDevicePlugin>>)
    ensures r.Failure? <==> index in m
    ensures r.Failure? ==> r.error == Argument
    ensures r.Success? ==> index in r.value && r.value[index] == plugin && r.value - {index} == m
  {
    if index in m then Failure(Argument) else Success(m[index := plugin])
  }

  /** The dictionary and the plugin's handle and index after Dispose. */
  function Disposed(m: map<int, InputDevicePlugin>, device: int, deviceIndex: int): (r: (map<int, InputDevicePlugin>, int, int))
  {
    if deviceIndex != -1 then (m - {deviceIndex}, 0, -1) else (m, device, deviceIndex)
  }

  /** Dispose as the source writes it: only a plugin whose native device was created
    * leaves the dictionary. */
  function DisposedAsWritten(m: map<int, InputDevicePlugin>, device: int, deviceIndex: int): (r: (map<int, InputDevicePlugin>, int, int))
  {
    if device != 0 then (m - {deviceIndex}, 0, -1) else (m, device, deviceIndex)
  }

  /** The driver's callbacks (OnFrameError, OnVideoFormatChanged, OnFrameArrived) reach
    * the plugin registered under their device index, and no plugin for any other. */
  function Dispatch(m: map<int, InputDevicePlugin>, index: int): (r: Option<InputDevicePlugin>)
    ensures r.Some? <==> index in m
    ensures r.Some? ==> r.value == m[index]
  {
    if index in m then Some(m[index]) else None
  }

  /** Create registers the new plugin under its index, with the handle the driver
    * returned, and builds the selected format from what the driver reported; an index
    * already in the dictionary makes the registration throw. */
  method Create(registry: PluginRegistry, deviceIndex: int, nativeHandle: int, outFormat: InputVideoFormatData)
    returns (r: Result<InputDevicePlugin>, selectedFormat: Option<InputVideoFormat>)
    modifies registry
    ensures r.Failure? <==> deviceIndex in old(registry.indexToPlugin)
    ensures r.Failure? ==> r.error == Argument && registry.indexToPlugin == old(registry.indexToPlugin) && selectedFormat.None?
    ensures r.Success? ==>
      fresh(r.value) && r.value.device == nativeHandle && r.value.deviceIndex == deviceIndex
      && Register(old(registry.indexToPlugin), deviceIndex, r.value) == Success(registry.indexToPlugin)
      && selectedFormat == Some(MakeInputVideoFormat(outFormat, ""))
  {
    var plugin := new InputDevicePlugin(deviceIndex);
    var added := Register(registry.indexToPlugin, deviceIndex, plugin);
    if added.Failure? {
      return Failure(added.error), None;
    }
    registry.indexToPlugin := added.value;
    plugin.device := nativeHandle;
    return Success(plugin), Some(MakeInputVideoFormat(outFormat, ""));
  }

  /** Create followed by Dispose gives the dictionary back as it was, so the device can
    * be created again under the same index, whatever handle the driver returned. */
  lemma CreateThenDisposeRestores(m: map<int, InputDevicePlugin>, index: int, plugin: InputDevicePlugin, other: InputDevicePlugin, handle: int)
    requires index !in m && index != -1
    ensures var created := Register(m, index, plugin).value;
      Dispatch(created, index) == Some(plugin)
      && (forall k :: k != index ==> Dispatch(created, k) == Dispatch(m, k))
      && Disposed(created, handle, index).0 == m
      && Register(Disposed(created, handle, index).0, index, other).Success?
  {
    var created := Register(m, index, plugin).value;
    assert created - {index} == m;
  }

  /** As written, a plugin whose native device could not be created stays in the
    * dictionary after Dispose, and creating the device again under the same index, as
    * a reinitialisation does, throws. */
  lemma AsWrittenRecreateAfterFailedOpenThrows(plugin: InputDevicePlugin, other: InputDevicePlugin)
    ensures var created := Register(map[], 0, plugin).value;
      var disposed := DisposedAsWritten(created, 0, 0);
      Dispatch(disposed.0, 0) == Some(plugin)
      && Register(disposed.0, 0, other) == Failure(Argument)
  {
  }
}
