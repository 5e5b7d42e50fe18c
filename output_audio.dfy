/** The audio side of an output device (DeckLinkOutputDeviceAudio.cs): which audio the
  * device sends, how many channels it announces to the card, and the hooks set up and
  * torn down around a session. The engine's audio settings, the AudioRenderer and
  * Application.isPlaying are parameters. */
module OutputAudio {

  type AudioOutputMode = int

  const Disabled: AudioOutputMode := 0
  const AudioListener: AudioOutputMode := 1
  const SameAsInput: AudioOutputMode := 2
  const MainOutput: AudioOutputMode := 3

  /** The engine's speaker modes (UnityEngine.AudioSpeakerMode). */
  type SpeakerMode = int

  const Raw: SpeakerMode := 0
  const Mono: SpeakerMode := 1
  const Stereo: SpeakerMode := 2
  const Quad: SpeakerMode := 3
  const Surround: SpeakerMode := 4
  const Mode5point1: SpeakerMode := 5
  const Mode7point1: SpeakerMode := 6
  const Prologic: SpeakerMode := 7

  /** audioChannelCountMap: the speaker modes the card can be told about, with their
    * channel counts. */
  const ChannelCounts: map<SpeakerMode, int> :=
    map[Mono := 1, Stereo := 2, Quad := 4, Surround := 5, Mode5point1 := 6, Mode7point1 := 8, Prologic := 2]

  /** What the device announces to the card when it starts. */
  datatype AudioData = AudioData(enableAudio: bool, channelCount: int, sampleRate: int)

  /** GetEnableAudioAndSampleRate: audio is on unless the mode is Disabled or the speaker
    * mode has no entry in the table; the channel count is the table's, or 0 when audio
    * is off; the engine's output sample rate is passed through. */
  function GetEnableAudioAndSampleRate(mode: AudioOutputMode, speakerMode: SpeakerMode, outputSampleRate: int): (r: AudioData)
    ensures r.enableAudio <==> mode != Disabled && speakerMode in ChannelCounts
    ensures r.enableAudio ==> r.channelCount == ChannelCounts[speakerMode]
    ensures !r.enableAudio ==> r.channelCount == 0
    ensures r.sampleRate == outputSampleRate
  {
    var enable := mode != Disabled;
    if enable && speakerMode in ChannelCounts then AudioData(true, ChannelCounts[speakerMode], outputSampleRate)
    else AudioData(false, 0, outputSampleRate)
  }

  /** Audio is announced exactly when it has channels, and never more than eight. */
  lemma EnabledIffChannels(mode: AudioOutputMode, speakerMode: SpeakerMode, outputSampleRate: int)
    ensures var r := GetEnableAudioAndSampleRate(mode, speakerMode, outputSampleRate);
      (r.enableAudio <==> r.channelCount > 0) && 0 <= r.channelCount <= 8
  {
    var r := GetEnableAudioAndSampleRate(mode, speakerMode, outputSampleRate);
    if r.enableAudio {
      assert speakerMode in {Mono, Stereo, Quad, Surround, Mode5point1, Mode7point1, Prologic};
    }
  }

  /** Raw is the one engine speaker mode the card is never told about. */
  lemma RawDisablesAudio(mode: AudioOutputMode, outputSampleRate: int)
    ensures !GetEnableAudioAndSampleRate(mode, Raw, outputSampleRate).enableAudio
    ensures forall s :: Mono <= s <= Prologic ==> s in ChannelCounts
  {
  }

  /** The hooks an output device holds on the engine's audio: the AudioRenderer flag it
    * keeps, the AudioOutputDevice component on the listener (alive or not), and the
    * number of callbacks registered on the input device it takes audio from. The count
    * of renderer starts and stops stands for the calls into the engine. */
  datatype Hooks = Hooks(
    rendererStarted: bool,
    listenerDevice: bool,
    listenerDevicesAdded: nat,
    inputCallbacks: nat,
    rendererStops: nat)

  /** SetupAudioOutput on the state before it: an AudioListener without a listener does
    * nothing; with one, a new component is attached; MainOutput records whether the
    * renderer started; SameAsInput with an input device registers the callback. */
  function Setup(h: Hooks, mode: AudioOutputMode, hasListener: bool, hasInputDevice: bool, rendererStart: bool): (r: Hooks)
    ensures r.rendererStops == h.rendererStops
    ensures r.listenerDevicesAdded == h.listenerDevicesAdded + (if mode == AudioListener && hasListener then 1 else 0)
    ensures r.inputCallbacks == h.inputCallbacks + (if mode == SameAsInput && hasInputDevice then 1 else 0)
    ensures mode != MainOutput ==> r.rendererStarted == h.rendererStarted
    ensures mode == MainOutput ==> r.rendererStarted == rendererStart
    ensures mode == AudioListener && hasListener ==> r.listenerDevice
    ensures !(mode == AudioListener && hasListener) ==> r.listenerDevice == h.listenerDevice
  {
    if mode == AudioListener && !hasListener then h
    else if mode == AudioListener then h.(listenerDevice := true, listenerDevicesAdded := h.listenerDevicesAdded + 1)
    else if mode == MainOutput then h.(rendererStarted := rendererStart)
    else if mode == SameAsInput && hasInputDevice then h.(inputCallbacks := h.inputCallbacks + 1)
    else h
  }

  /** CleanupAudioOutput: exactly one of three undoings, tried in order: stop the renderer
    * (MainOutput, started), destroy the listener component (AudioListener, outside play
    * mode, component alive), or remove the callback (SameAsInput with an input device).
    * The started flag is not cleared. */
  function Cleanup(h: Hooks, mode: AudioOutputMode, hasInputDevice: bool, isPlaying: bool): (r: Hooks)
    ensures r.rendererStarted == h.rendererStarted && r.listenerDevicesAdded == h.listenerDevicesAdded
    ensures r.rendererStops == h.rendererStops + (if mode == MainOutput && h.rendererStarted then 1 else 0)
    ensures r.listenerDevice <==> h.listenerDevice && (isPlaying || mode != AudioListener)
    ensures r.inputCallbacks ==
      if mode == SameAsInput && hasInputDevice && h.inputCallbacks > 0 then h.inputCallbacks - 1 else h.inputCallbacks
  {
    if mode == MainOutput && h.rendererStarted then h.(rendererStops := h.rendererStops + 1)
    else if !isPlaying && mode == AudioListener && h.listenerDevice then h.(listenerDevice := false)
    else if mode == SameAsInput && hasInputDevice then
      h.(inputCallbacks := if h.inputCallbacks > 0 then h.inputCallbacks - 1 else 0)
    else h
  }

  /** A session that starts from no hooks and is cleaned up with the same settings leaves
    * no callback registered on the input device, stops the renderer exactly when it
    * started, and, outside play mode, leaves no listener component alive. */
  lemma CleanupUndoesSetup(mode: AudioOutputMode, hasListener: bool, hasInputDevice: bool, rendererStart: bool, isPlaying: bool)
    ensures var s := Setup(Hooks(false, false, 0, 0, 0), mode, hasListener, hasInputDevice, rendererStart);
      var c := Cleanup(s, mode, hasInputDevice, isPlaying);
      c.inputCallbacks == 0
      && (c.rendererStops == 1 <==> mode == MainOutput && rendererStart)
      && (!isPlaying ==> !c.listenerDevice)
  {
  }

  /** The audio half of an output device: its settings and hooks. */
  class OutputDeviceAudio {
    var mode: AudioOutputMode
    var hasListener: bool
    var hasInputDevice: bool
    var hooks: Hooks

    constructor(mode: AudioOutputMode, hasListener: bool, hasInputDevice: bool)
      ensures this.mode == mode && this.hasListener == hasListener && this.hasInputDevice == hasInputDevice
      ensures hooks == Hooks(false, false, 0, 0, 0)
    {
      this.mode := mode;
      this.hasListener := hasListener;
      this.hasInputDevice := hasInputDevice;
      hooks := Hooks(false, false, 0, 0, 0);
    }

    /** SetupAudioOutput, with the result of AudioRenderer.Start as a parameter. */
    method SetupAudioOutput(rendererStart: bool)
      modifies this`hooks
      ensures hooks == Setup(old(hooks), mode, hasListener, hasInputDevice, rendererStart)
    {
      if mode == AudioListener && !hasListener {
        return;
      }
      if mode == AudioListener {
        hooks := hooks.(listenerDevice := true, listenerDevicesAdded := hooks.listenerDevicesAdded + 1);
      } else if mode == MainOutput {
        hooks := hooks.(rendererStarted := rendererStart);
      } else if mode == SameAsInput && hasInputDevice {
        hooks := hooks.(inputCallbacks := hooks.inputCallbacks + 1);
      }
    }

    /** CleanupAudioOutput, with Application.isPlaying as a parameter. Removing a
      * callback that is not registered does nothing. */
    method CleanupAudioOutput(isPlaying: bool)
      modifies this`hooks
      ensures hooks == Cleanup(old(hooks), mode, hasInputDevice, isPlaying)
    {
      if mode == MainOutput && hooks.rendererStarted {
        hooks := hooks.(rendererStops := hooks.rendererStops + 1);
      } else if !isPlaying && mode == AudioListener && hooks.listenerDevice {
        hooks := hooks.(listenerDevice := false);
      } else if mode == SameAsInput && hasInputDevice && hooks.inputCallbacks > 0 {
        hooks := hooks.(inputCallbacks := hooks.inputCallbacks - 1);
      }
    }
  }
}
