/** VideoModeRegistry and its SupportMap (DeckLinkDeviceEnumerator.cs). The registry keeps
  * two dictionaries over the table of modes, one by SDK code and one per scan mode by
  * (resolution, frame rate), and a SupportMap loaded with the whole table. A SupportMap
  * answers which resolutions, frame rates and scan modes a list of modes offers, from one
  * bitfield of frame rates per resolution and one per scan mode and resolution. */
module VideoModeRegistries {
  import opened Wrappers
  import opened VideoModeTable

  const NumResolutions := 19
  const NumScanModes := 2

  /** BitFieldGet. The source tests `(bitField & flag) > 0` on a signed 32-bit int; the
    * positions are frame rates, below 16, where that is a test for a set bit. */
  predicate BitFieldGet(bits: bv32, position: FrameRate)
  {
    bits & (1 << position) != 0
  }

  /** BitFieldSet sets one bit and leaves the others as they were. */
  function BitFieldSet(bits: bv32, position: FrameRate): (r: bv32)
    ensures BitFieldGet(r, position) && r != 0
  {
    bits | (1 << position)
  }

  /** BitFieldSet leaves the other bits as they were. */
  lemma BitFieldSetKeepsOthers(bits: bv32, position: FrameRate, other: FrameRate)
    requires other != position
    ensures BitFieldGet(BitFieldSet(bits, position), other) == BitFieldGet(bits, other)
  {
  }

  /** The contents of a SupportMap: the frame rates per resolution, the frame rates per
    * scan mode and resolution, and the number of modes registered. */
  datatype SupportBits = SupportBits(resolutionBits: seq<bv32>, scanBits: seq<seq<bv32>>, registered: int)

  ghost predicate Shaped(s: SupportBits)
  {
    |s.resolutionBits| == NumResolutions && |s.scanBits| == NumScanModes
    && |s.scanBits[Progressive]| == NumResolutions && |s.scanBits[Interlaced]| == NumResolutions
  }

  const EmptyRow: seq<bv32> := [0, 0, 0, 0, 0, 0, 0, 0, 0, 0, 0, 0, 0, 0, 0, 0, 0, 0, 0]

  /** A SupportMap with nothing registered, as allocated or cleared. */
  const NoSupport: SupportBits := SupportBits(EmptyRow, [EmptyRow, EmptyRow], 0)

  /** IsSupported(resolution): some frame rate of the resolution is registered. */
  predicate SupportsResolution(s: SupportBits, res: Resolution)
    requires Shaped(s)
  {
    s.resolutionBits[res] != 0
  }

  /** IsSupported(resolution, frameRate). */
  predicate SupportsRate(s: SupportBits, res: Resolution, rate: FrameRate)
    requires Shaped(s)
  {
    BitFieldGet(s.resolutionBits[res], rate)
  }

  /** IsSupported(resolution, frameRate, scanMode). */
  predicate SupportsScan(s: SupportBits, res: Resolution, rate: FrameRate, scan: ScanMode)
    requires Shaped(s)
  {
    BitFieldGet(s.scanBits[scan][res], rate)
  }

  /** RegisterMode: the mode's frame rate bit is set for its resolution and for its scan
    * mode and resolution, and the count grows by one. */
  function Registered(s: SupportBits, m: VideoMode): (r: SupportBits)
    requires Shaped(s)
    ensures Shaped(r)
  {
    SupportBits(
      s.resolutionBits[m.resolution := BitFieldSet(s.resolutionBits[m.resolution], m.frameRate)],
      s.scanBits[m.scanMode := s.scanBits[m.scanMode][m.resolution := BitFieldSet(s.scanBits[m.scanMode][m.resolution], m.frameRate)]],
      s.registered + 1)
  }

  /** The modes registered one after the other, in order. */
  function RegisteredAll(s: SupportBits, ms: seq<VideoMode>): (r: SupportBits)
    requires Shaped(s)
    ensures Shaped(r)
    decreases |ms|
  {
    if |ms| == 0 then s else Registered(RegisteredAll(s, ms[..|ms| - 1]), ms[|ms| - 1])
  }

  /** LoadModes: cleared, then every mode registered. */
  function Loaded(ms: seq<VideoMode>): (r: SupportBits)
    ensures Shaped(r)
  {
    RegisteredAll(NoSupport, ms)
  }

  /** Clear as written: only the frame rates per resolution and the count are reset; the
    * frame rates per scan mode keep what earlier loads registered. */
  function ClearedAsWritten(s: SupportBits): (r: SupportBits)
    requires Shaped(s)
    ensures Shaped(r) && r.registered == 0 && r.scanBits == s.scanBits
    ensures forall res: Resolution :: !SupportsResolution(r, res)
  {
    s.(resolutionBits := EmptyRow, registered := 0)
  }

  /** LoadModes as written, on a SupportMap that was loaded before. */
  function LoadedAsWritten(s: SupportBits, ms: seq<VideoMode>): (r: SupportBits)
    requires Shaped(s)
    ensures Shaped(r)
  {
    RegisteredAll(ClearedAsWritten(s), ms)
  }

  /** The modes of LoadSDKModeValues: the codes the registry knows, in order; unknown codes
    * are skipped. */
  function KnownModes(values: seq<int>): (ms: seq<VideoMode>)
    ensures |ms| <= |values|
    decreases |values|
  {
    if |values| == 0 then []
    else if SdkLookup(values[|values| - 1]).Some? then
      KnownModes(values[..|values| - 1]) + [SdkLookup(values[|values| - 1]).value]
    else KnownModes(values[..|values| - 1])
  }

  lemma KnownModesStep(values: seq<int>, i: nat)
    requires i < |values|
    ensures KnownModes(values[..i + 1]) ==
      if SdkLookup(values[i]).Some? then KnownModes(values[..i]) + [SdkLookup(values[i]).value]
      else KnownModes(values[..i])
  {
    assert values[..i + 1][..i] == values[..i];
  }

  lemma LoadedStep(ms: seq<VideoMode>, m: VideoMode)
    ensures Loaded(ms + [m]) == Registered(Loaded(ms), m)
  {
    assert (ms + [m])[..|ms|] == ms;
  }

  /** A mode is among the known modes of a list of codes exactly when its code is in the
    * list. */
  lemma {:induction false} KnownModesExact(values: seq<int>, m: VideoMode)
    ensures m in KnownModes(values) <==> m in Modes && m.sdkValue in values
    decreases |values|
  {
    if |values| > 0 {
      var init := values[..|values| - 1];
      var last := values[|values| - 1];
      KnownModesExact(init, m);
      SdkLookupExact(last, m);
      assert values == init + [last];
      assert m.sdkValue in values <==> m.sdkValue in init || m.sdkValue == last;
    }
  }

  /** One registration adds exactly the mode's resolution, (resolution, frame rate) and
    * triple to what is supported. */
  lemma RegisteredExact(s: SupportBits, m: VideoMode, res: Resolution, rate: FrameRate, scan: ScanMode)
    requires Shaped(s)
    ensures SupportsResolution(Registered(s, m), res) <==> SupportsResolution(s, res) || m.resolution == res
    ensures SupportsRate(Registered(s, m), res, rate) <==>
      SupportsRate(s, res, rate) || (m.resolution == res && m.frameRate == rate)
    ensures SupportsScan(Registered(s, m), res, rate, scan) <==>
      SupportsScan(s, res, rate, scan) || SameTriple(m, VideoMode(res, rate, scan, 0))
  {
    if rate != m.frameRate {
      BitFieldSetKeepsOthers(s.resolutionBits[m.resolution], m.frameRate, rate);
      BitFieldSetKeepsOthers(s.scanBits[m.scanMode][m.resolution], m.frameRate, rate);
    }
  }

  /** After registering a list of modes, a resolution, a (resolution, frame rate) or a
    * triple is supported exactly when it was before or some mode of the list has it; the
    * count grows by the length of the list. */
  lemma {:induction false} RegisteredAllExact(s: SupportBits, ms: seq<VideoMode>, res: Resolution, rate: FrameRate, scan: ScanMode)
    requires Shaped(s)
    ensures RegisteredAll(s, ms).registered == s.registered + |ms|
    ensures SupportsResolution(RegisteredAll(s, ms), res) <==>
      SupportsResolution(s, res) || exists m :: m in ms && m.resolution == res
    ensures SupportsRate(RegisteredAll(s, ms), res, rate) <==>
      SupportsRate(s, res, rate) || exists m :: m in ms && m.resolution == res && m.frameRate == rate
    ensures SupportsScan(RegisteredAll(s, ms), res, rate, scan) <==>
      SupportsScan(s, res, rate, scan) || exists m :: m in ms && SameTriple(m, VideoMode(res, rate, scan, 0))
    decreases |ms|
  {
    if |ms| > 0 {
      var init := ms[..|ms| - 1];
      var last := ms[|ms| - 1];
      RegisteredAllExact(s, init, res, rate, scan);
      RegisteredExact(RegisteredAll(s, init), last, res, rate, scan);
      assert ms == init + [last];
      assert forall m :: m in ms <==> m in init || m == last;
    }
  }

  /** The SupportMap of a list of modes supports exactly what the list offers, and counts
    * its modes. */
  lemma LoadedExact(ms: seq<VideoMode>, res: Resolution, rate: FrameRate, scan: ScanMode)
    ensures Loaded(ms).registered == |ms|
    ensures SupportsResolution(Loaded(ms), res) <==> exists m :: m in ms && m.resolution == res
    ensures SupportsRate(Loaded(ms), res, rate) <==>
      exists m :: m in ms && m.resolution == res && m.frameRate == rate
    ensures SupportsScan(Loaded(ms), res, rate, scan) <==>
      exists m :: m in ms && SameTriple(m, VideoMode(res, rate, scan, 0))
  {
    RegisteredAllExact(NoSupport, ms, res, rate, scan);
  }

  /** The three queries agree with one another: a supported triple has a supported frame
    * rate, and a supported frame rate a supported resolution. */
  ghost predicate Consistent(s: SupportBits)
    requires Shaped(s)
  {
    (forall res: Resolution, rate: FrameRate, scan: ScanMode ::
       SupportsScan(s, res, rate, scan) ==> SupportsRate(s, res, rate))
    && (forall res: Resolution, rate: FrameRate :: SupportsRate(s, res, rate) ==> SupportsResolution(s, res))
  }

  lemma LoadedIsConsistent(ms: seq<VideoMode>)
    ensures Consistent(Loaded(ms))
  {
    forall res: Resolution, rate: FrameRate, scan: ScanMode
      ensures (SupportsScan(Loaded(ms), res, rate, scan) ==> SupportsRate(Loaded(ms), res, rate))
        && (SupportsRate(Loaded(ms), res, rate) ==> SupportsResolution(Loaded(ms), res))
    {
      LoadedExact(ms, res, rate, scan);
    }
  }

  /** A SupportMap loaded with rows supports a triple exactly when the search by triple
    * finds a row for it. */
  lemma LoadedMatchesFind(ms: seq<VideoMode>, res: Resolution, rate: FrameRate, scan: ScanMode)
    requires UniqueTriples(ms)
    ensures SupportsScan(Loaded(ms), res, rate, scan) <==> FindTriple(ms, res, rate, scan).Some?
  {
    LoadedExact(ms, res, rate, scan);
    if FindTriple(ms, res, rate, scan).Some? {
      FindTripleExact(ms, res, rate, scan, FindTriple(ms, res, rate, scan).value);
    } else if exists m :: m in ms && SameTriple(m, VideoMode(res, rate, scan, 0)) {
      var m :| m in ms && SameTriple(m, VideoMode(res, rate, scan, 0));
      FindTripleExact(ms, res, rate, scan, m);
    }
  }

  /** The registry's own SupportMap, loaded with the whole table, supports a triple exactly
    * when GetMode finds a mode for it. */
  lemma TableSupportMatchesGetMode(res: Resolution, rate: FrameRate, scan: ScanMode)
    ensures SupportsScan(Loaded(Modes), res, rate, scan) <==> TripleLookup(res, rate, scan).Some?
  {
    ModesWellFormed();
    LoadedMatchesFind(Modes, res, rate, scan);
  }

  /** A device's SupportMap, loaded with the codes it reports, supports a triple exactly
    * when the code of a table mode with that triple is among them. */
  lemma DeviceSupportExact(values: seq<int>, res: Resolution, rate: FrameRate, scan: ScanMode)
    ensures SupportsScan(Loaded(KnownModes(values)), res, rate, scan) <==>
      exists m :: m in Modes && m.sdkValue in values && SameTriple(m, VideoMode(res, rate, scan, 0))
  {
    LoadedExact(KnownModes(values), res, rate, scan);
    forall m ensures m in KnownModes(values) <==> m in Modes && m.sdkValue in values {
      KnownModesExact(values, m);
    }
  }

  const Hd1080i50: VideoMode := VideoMode(ResHD1080, Fps50, Interlaced, 0x4869_3530)
  const Hd1080p50: VideoMode := VideoMode(ResHD1080, Fps50, Progressive, 0x4870_3530)

  /** As written, a SupportMap reloaded for a device offering only 1080p50, after one
    * offering 1080i50, still answers that 1080 at 50 fps is offered interlaced: GetScanModes
    * lists Interlaced for the second device. Cleared properly it does not. */
  lemma AsWrittenReloadKeepsStaleScanModes()
    ensures var s := LoadedAsWritten(LoadedAsWritten(NoSupport, [Hd1080i50]), [Hd1080p50]);
      SupportsRate(s, ResHD1080, Fps50) && SupportsScan(s, ResHD1080, Fps50, Interlaced)
      && !Consistent(ClearedAsWritten(LoadedAsWritten(NoSupport, [Hd1080i50])))
    ensures !SupportsScan(Loaded([Hd1080p50]), ResHD1080, Fps50, Interlaced)
  {
    var s1 := LoadedAsWritten(NoSupport, [Hd1080i50]);
    RegisteredAllExact(ClearedAsWritten(NoSupport), [Hd1080i50], ResHD1080, Fps50, Interlaced);
    var s2 := LoadedAsWritten(s1, [Hd1080p50]);
    RegisteredAllExact(ClearedAsWritten(s1), [Hd1080p50], ResHD1080, Fps50, Interlaced);
    assert !SupportsRate(ClearedAsWritten(s1), ResHD1080, Fps50);
    LoadedExact([Hd1080p50], ResHD1080, Fps50, Interlaced);
  }

  class SupportMap {
    const resolutionBits: array<bv32>
    /** The jagged int[2][] of the source: one row of bitfields per scan mode. */
    const scanBits: seq<array<bv32>>
    var registered: int

    ghost predicate Valid()
      reads this
    {
      resolutionBits.Length == NumResolutions && |scanBits| == NumScanModes
      && scanBits[Progressive].Length == NumResolutions && scanBits[Interlaced].Length == NumResolutions
      && resolutionBits != scanBits[Progressive] && resolutionBits != scanBits[Interlaced]
      && scanBits[Progressive] != scanBits[Interlaced]
    }

    ghost function State(): (s: SupportBits)
      requires Valid()
      reads this, resolutionBits, scanBits
      ensures Shaped(s)
    {
      SupportBits(resolutionBits[..], [scanBits[Progressive][..], scanBits[Interlaced][..]], registered)
    }

    /** The constructor allocates the bitfields, all zero. */
    constructor()
      ensures Valid() && State() == NoSupport
      ensures fresh(resolutionBits) && fresh(scanBits[Progressive]) && fresh(scanBits[Interlaced])
    {
      resolutionBits := new bv32[NumResolutions](_ => 0);
      var progressive := new bv32[NumResolutions](_ => 0);
      var interlaced := new bv32[NumResolutions](_ => 0);
      scanBits := [progressive, interlaced];
      registered := 0;
      new;
      assert resolutionBits[..] == progressive[..] == interlaced[..] == EmptyRow;
    }

    method RegisterMode(m: VideoMode)
      requires Valid()
      modifies this, resolutionBits, scanBits[m.scanMode]
      ensures Valid() && State() == Registered(old(State()), m)
    {
      var resolutionBitField := resolutionBits[m.resolution];
      resolutionBits[m.resolution] := BitFieldSet(resolutionBitField, m.frameRate);
      var row := scanBits[m.scanMode];
      var scanBitField := row[m.resolution];
      row[m.resolution] := BitFieldSet(scanBitField, m.frameRate);
      registered := registered + 1;
      assert [scanBits[Progressive][..], scanBits[Interlaced][..]]
        == old([scanBits[Progressive][..], scanBits[Interlaced][..]])[m.scanMode := row[..]];
    }

    /** Clear, corrected: every bitfield is reset, the frame rates per scan mode too. */
    method Clear()
      requires Valid()
      modifies this, resolutionBits, scanBits[Progressive], scanBits[Interlaced]
      ensures Valid() && State() == NoSupport
    {
      forall i | 0 <= i < resolutionBits.Length {
        resolutionBits[i] := 0;
      }
      forall i | 0 <= i < scanBits[Progressive].Length {
        scanBits[Progressive][i] := 0;
      }
      forall i | 0 <= i < scanBits[Interlaced].Length {
        scanBits[Interlaced][i] := 0;
      }
      registered := 0;
      assert resolutionBits[..] == scanBits[Progressive][..] == scanBits[Interlaced][..] == EmptyRow;
    }

    /** LoadModes: cleared, then every mode registered in order. */
    method LoadModes(ms: seq<VideoMode>)
      requires Valid()
      modifies this, resolutionBits, scanBits[Progressive], scanBits[Interlaced]
      ensures Valid() && State() == Loaded(ms)
    {
      Clear();
      for i := 0 to |ms|
        invariant Valid() && State() == RegisteredAll(NoSupport, ms[..i])
      {
        RegisterMode(ms[i]);
        assert ms[..i + 1][..i] == ms[..i];
      }
      assert ms[..|ms|] == ms;
    }

    /** LoadSDKModeValues: cleared, then the mode of every code the registry knows
      * registered in order. */
    method LoadSDKModeValues(values: seq<int>, registry: VideoModeRegistry)
      requires Valid() && registry.Valid()
      modifies this, resolutionBits, scanBits[Progressive], scanBits[Interlaced]
      ensures Valid() && State() == Loaded(KnownModes(values))
    {
      Clear();
      for i := 0 to |values|
        invariant Valid() && State() == Loaded(KnownModes(values[..i]))
      {
        RegisterSDKModeValue(values[i], registry);
        KnownModesStep(values, i);
        if SdkLookup(values[i]).Some? {
          LoadedStep(KnownModes(values[..i]), SdkLookup(values[i]).value);
        }
      }
      assert values[..|values|] == values;
    }

    /** The body of LoadSDKModeValues' loop: the mode the registry gives the code is
      * registered; an unknown code is skipped. */
    method RegisterSDKModeValue(v: int, registry: VideoModeRegistry)
      requires Valid() && registry.Valid()
      modifies this, resolutionBits, scanBits[Progressive], scanBits[Interlaced]
      ensures Valid()
      ensures State() == if SdkLookup(v).Some? then Registered(old(State()), SdkLookup(v).value) else old(State())
    {
      var mode := registry.GetModeFromSDK(v);
      RegisterFound(mode);
    }

    /** Registers the mode a lookup found; nothing when it found none. */
    method RegisterFound(mode: Option<VideoMode>)
      requires Valid()
      modifies this, resolutionBits, scanBits[Progressive], scanBits[Interlaced]
      ensures Valid()
      ensures State() == if mode.Some? then Registered(old(State()), mode.value) else old(State())
    {
      if mode.Some? {
        RegisterMode(mode.value);
      }
    }

    function IsEmpty(): bool
      reads this
    {
      registered == 0
    }

    /** GetFrameRates: the registered frame rates of the resolution, in ascending order. */
    method GetFrameRates(res: Resolution) returns (frameRates: seq<FrameRate>)
      requires Valid()
      ensures forall rate: FrameRate :: rate in frameRates <==> SupportsRate(State(), res, rate)
      ensures forall i, j :: 0 <= i < j < |frameRates| ==> frameRates[i] < frameRates[j]
    {
      frameRates := [];
      var bitField := resolutionBits[res];
      if bitField == 0 {
        return;
      }
      for i := 0 to 16
        invariant forall rate: FrameRate :: rate in frameRates <==> rate < i && BitFieldGet(bitField, rate)
        invariant forall k :: 0 <= k < |frameRates| ==> frameRates[k] < i
        invariant forall k, j :: 0 <= k < j < |frameRates| ==> frameRates[k] < frameRates[j]
      {
        if BitFieldGet(bitField, i) {
          frameRates := frameRates + [i];
        }
      }
    }

    /** GetScanModes: nothing for an unsupported resolution; otherwise the scan modes the
      * (resolution, frame rate) is registered with, in ascending order. */
    method GetScanModes(res: Resolution, rate: FrameRate) returns (scanModes: seq<ScanMode>)
      requires Valid()
      ensures !SupportsResolution(State(), res) ==> scanModes == []
      ensures SupportsResolution(State(), res) ==>
        forall scan: ScanMode :: scan in scanModes <==> SupportsScan(State(), res, rate, scan)
      ensures forall i, j :: 0 <= i < j < |scanModes| ==> scanModes[i] < scanModes[j]
    {
      scanModes := [];
      var resolutionBitField := resolutionBits[res];
      if resolutionBitField == 0 {
        return;
      }
      for i := 0 to NumScanModes
        invariant forall scan: ScanMode :: scan in scanModes <==> scan < i && BitFieldGet(scanBits[scan][res], rate)
        invariant forall k :: 0 <= k < |scanModes| ==> scanModes[k] < i
        invariant forall k, j :: 0 <= k < j < |scanModes| ==> scanModes[k] < scanModes[j]
      {
        var scanBitField := scanBits[i][res];
        if BitFieldGet(scanBitField, rate) {
          scanModes := scanModes + [i];
        }
      }
    }
  }

  /** The dictionary by SDK code holds the first `n` rows of the table under their codes,
    * and nothing else. */
  ghost predicate IndexesCodes(sdkToMode: map<int, VideoMode>, table: seq<VideoMode>, n: nat)
    requires n <= |table|
  {
    sdkToMode.Keys == (set j | 0 <= j < n :: table[j].sdkValue)
    && forall j :: 0 <= j < n ==> sdkToMode[table[j].sdkValue] == table[j]
  }

  /** The dictionaries by (resolution, frame rate), one per scan mode, hold the first `n`
    * rows of the table under their keys, and nothing else. */
  ghost predicate IndexesTriples(combination: seq<map<(Resolution, FrameRate), VideoMode>>, table: seq<VideoMode>, n: nat)
    requires n <= |table|
  {
    |combination| == NumScanModes
    && (forall scan: ScanMode :: combination[scan].Keys ==
          (set j | 0 <= j < n && table[j].scanMode == scan :: (table[j].resolution, table[j].frameRate)))
    && forall j :: 0 <= j < n ==>
         combination[table[j].scanMode][(table[j].resolution, table[j].frameRate)] == table[j]
  }

  /** Rows with unique codes and triples, put in the dictionaries in order, never meet a key
    * already there. */
  lemma NextKeysAreNew(sdkToMode: map<int, VideoMode>, combination: seq<map<(Resolution, FrameRate), VideoMode>>,
                       table: seq<VideoMode>, n: nat)
    requires UniqueSdk(table) && UniqueTriples(table)
    requires n < |table| && IndexesCodes(sdkToMode, table, n) && IndexesTriples(combination, table, n)
    ensures table[n].sdkValue !in sdkToMode
    ensures (table[n].resolution, table[n].frameRate) !in combination[table[n].scanMode]
  {
  }

  /** The loop of the registry's constructor: every row goes into the dictionary by code and
    * into the dictionary of its scan mode by (resolution, frame rate). With unique codes and
    * triples no addition meets a key already there, so there is one entry per row in each:
    * the constructor's count assertions hold. */
  method IndexModes(table: seq<VideoMode>) returns (sdkToMode: map<int, VideoMode>, combination: seq<map<(Resolution, FrameRate), VideoMode>>)
    requires UniqueSdk(table) && UniqueTriples(table)
    ensures IndexesCodes(sdkToMode, table, |table|) && IndexesTriples(combination, table, |table|)
    ensures |sdkToMode| == |table| && |combination[Progressive]| + |combination[Interlaced]| == |table|
  {
    sdkToMode := map[];
    combination := [map[], map[]];
    for i := 0 to |table|
      invariant IndexesCodes(sdkToMode, table, i) && IndexesTriples(combination, table, i)
      invariant |sdkToMode| == i && |combination[Progressive]| + |combination[Interlaced]| == i
    {
      sdkToMode, combination := IndexRow(sdkToMode, combination, table, i);
    }
  }

  /** One step of the constructor's loop: row `n` goes into both dictionaries, under keys
    * not yet there. */
  method IndexRow(sdkToMode: map<int, VideoMode>, combination: seq<map<(Resolution, FrameRate), VideoMode>>,
                  table: seq<VideoMode>, n: nat)
    returns (codes: map<int, VideoMode>, triples: seq<map<(Resolution, FrameRate), VideoMode>>)
    requires UniqueSdk(table) && UniqueTriples(table)
    requires n < |table| && IndexesCodes(sdkToMode, table, n) && IndexesTriples(combination, table, n)
    ensures IndexesCodes(codes, table, n + 1) && IndexesTriples(triples, table, n + 1)
    ensures |codes| == |sdkToMode| + 1
    ensures |triples[Progressive]| + |triples[Interlaced]| == |combination[Progressive]| + |combination[Interlaced]| + 1
  {
    var mode := table[n];
    NextKeysAreNew(sdkToMode, combination, table, n);
    codes := sdkToMode[mode.sdkValue := mode];
    var scanMap := combination[mode.scanMode];
    triples := combination[mode.scanMode := scanMap[(mode.resolution, mode.frameRate) := mode]];
    CodesStep(sdkToMode, table, n);
    TriplesStep(combination, table, n);
  }

  lemma CodesStep(sdkToMode: map<int, VideoMode>, table: seq<VideoMode>, n: nat)
    requires UniqueSdk(table) && n < |table| && IndexesCodes(sdkToMode, table, n)
    ensures IndexesCodes(sdkToMode[table[n].sdkValue := table[n]], table, n + 1)
  {
    var codes := sdkToMode[table[n].sdkValue := table[n]];
    assert codes.Keys == sdkToMode.Keys + {table[n].sdkValue};
    assert (set j | 0 <= j < n + 1 :: table[j].sdkValue) == (set j | 0 <= j < n :: table[j].sdkValue) + {table[n].sdkValue};
  }

  lemma TriplesStep(combination: seq<map<(Resolution, FrameRate), VideoMode>>, table: seq<VideoMode>, n: nat)
    requires UniqueTriples(table) && n < |table| && IndexesTriples(combination, table, n)
    ensures var m := table[n];
      IndexesTriples(combination[m.scanMode := combination[m.scanMode][(m.resolution, m.frameRate) := m]], table, n + 1)
  {
    var m := table[n];
    var triples := combination[m.scanMode := combination[m.scanMode][(m.resolution, m.frameRate) := m]];
    forall scan: ScanMode
      ensures triples[scan].Keys ==
        (set j | 0 <= j < n + 1 && table[j].scanMode == scan :: (table[j].resolution, table[j].frameRate))
    {
      var before := set j | 0 <= j < n && table[j].scanMode == scan :: (table[j].resolution, table[j].frameRate);
      if scan == m.scanMode {
        assert triples[scan].Keys == combination[scan].Keys + {(m.resolution, m.frameRate)};
        assert (set j | 0 <= j < n + 1 && table[j].scanMode == scan :: (table[j].resolution, table[j].frameRate))
          == before + {(m.resolution, m.frameRate)};
      } else {
        assert (set j | 0 <= j < n + 1 && table[j].scanMode == scan :: (table[j].resolution, table[j].frameRate))
          == before;
      }
    }
  }

  /** The constructor's loop over the table of modes. */
  method IndexModeTable() returns (sdkToMode: map<int, VideoMode>, combination: seq<map<(Resolution, FrameRate), VideoMode>>)
    ensures IndexesCodes(sdkToMode, Modes, |Modes|) && IndexesTriples(combination, Modes, |Modes|)
    ensures |sdkToMode| == |Modes| && |combination[Progressive]| + |combination[Interlaced]| == |Modes|
  {
    ModesUnique();
    sdkToMode, combination := IndexModes(Modes);
  }

  /** Looking a code up in the dictionary agrees with searching the rows. */
  lemma DictionaryAgreesOnCode(sdkToMode: map<int, VideoMode>, table: seq<VideoMode>, v: int)
    requires UniqueSdk(table) && IndexesCodes(sdkToMode, table, |table|)
    ensures FindSdk(table, v) == if v in sdkToMode then Some(sdkToMode[v]) else None
  {
    if v in sdkToMode {
      var j :| 0 <= j < |table| && table[j].sdkValue == v;
      FindSdkExact(table, v, table[j]);
    } else if FindSdk(table, v).Some? {
      FindSdkExact(table, v, FindSdk(table, v).value);
    }
  }

  /** Looking a triple up in the dictionaries agrees with searching the rows. */
  lemma DictionaryAgreesOnTriple(combination: seq<map<(Resolution, FrameRate), VideoMode>>, table: seq<VideoMode>,
                                 res: Resolution, rate: FrameRate, scan: ScanMode)
    requires UniqueTriples(table) && IndexesTriples(combination, table, |table|)
    ensures FindTriple(table, res, rate, scan) ==
      if (res, rate) in combination[scan] then Some(combination[scan][(res, rate)]) else None
  {
    if (res, rate) in combination[scan] {
      var j :| 0 <= j < |table| && table[j].scanMode == scan && (table[j].resolution, table[j].frameRate) == (res, rate);
      FindTripleExact(table, res, rate, scan, table[j]);
    } else if FindTriple(table, res, rate, scan).Some? {
      FindTripleExact(table, res, rate, scan, FindTriple(table, res, rate, scan).value);
    }
  }

  class VideoModeRegistry {
    const sdkToMode: map<int, VideoMode>
    const combination: seq<map<(Resolution, FrameRate), VideoMode>>
    const support: SupportMap

    ghost predicate Valid()
      reads this
    {
      IndexesCodes(sdkToMode, Modes, |Modes|) && IndexesTriples(combination, Modes, |Modes|)
    }

    /** The constructor indexes every mode of the table by code and by triple, and loads
    * the SupportMap with the whole table. */
    constructor()
      ensures Valid() && |sdkToMode| == |Modes| && |combination[Progressive]| + |combination[Interlaced]| == |Modes|
      ensures support.Valid() && support.State() == Loaded(Modes)
      ensures fresh(support) && fresh(support.resolutionBits)
      ensures fresh(support.scanBits[Progressive]) && fresh(support.scanBits[Interlaced])
    {
      var codes, triples := IndexModeTable();
      sdkToMode, combination := codes, triples;
      support := new SupportMap();
      new;
      support.LoadModes(Modes);
    }

    /** GetModeFromSDK, by dictionary lookup: the mode the table gives the code. */
    function GetModeFromSDK(sdkModeValue: int): (r: Option<VideoMode>)
      requires Valid()
      reads this
      ensures r == SdkLookup(sdkModeValue)
    {
      ModesWellFormed();
      DictionaryAgreesOnCode(sdkToMode, Modes, sdkModeValue);
      if sdkModeValue == |Modes| then None
      else if sdkModeValue in sdkToMode then Some(sdkToMode[sdkModeValue])
      else None
    }

    /** GetMode, by dictionary lookup: the mode the table gives the triple. */
    function GetMode(res: Resolution, rate: FrameRate, scan: ScanMode): (r: Option<VideoMode>)
      requires Valid()
      reads this
      ensures r == TripleLookup(res, rate, scan)
    {
      ModesWellFormed();
      DictionaryAgreesOnTriple(combination, Modes, res, rate, scan);
      if (res, rate) in combination[scan] then Some(combination[scan][(res, rate)]) else None
    }
  }
}
