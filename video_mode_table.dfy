/** The video modes of DeckLinkDeviceEnumerator.cs: the resolution, frame rate and scan
  * mode enumerations, and the fixed table (VideoModeRegistry.s_Modes) pairing each
  * supported combination with the Blackmagic SDK's display mode code, a four-character
  * code packed into an int. */
module VideoModeTable {
  import opened Wrappers

  /** VideoMode.Resolution: 19 values numbered from 0 in declaration order. */
  type Resolution = r: int | 0 <= r < 19

  const ResNTSC: Resolution := 0
  const ResPAL: Resolution := 1
  const ResHD1080: Resolution := 2
  const ResHD720: Resolution := 3
  const Res2K: Resolution := 4
  const Res2KDci: Resolution := 5
  const Res2160: Resolution := 6
  const Res4KDci: Resolution := 7
  const Res4320: Resolution := 8
  const Res8KDci: Resolution := 9
  const Res640x480: Resolution := 10
  const Res800x600: Resolution := 11
  const Res1440x900: Resolution := 12
  const Res1440x1080: Resolution := 13
  const Res1600x1200: Resolution := 14
  const Res1920x1200: Resolution := 15
  const Res1920x1440: Resolution := 16
  const Res2560x1440: Resolution := 17
  const Res2560x1600: Resolution := 18

  /** VideoMode.FrameRate: 16 values numbered from 0 in declaration order. */
  type FrameRate = f: int | 0 <= f < 16

  const Fps2398: FrameRate := 0
  const Fps24: FrameRate := 1
  const Fps25: FrameRate := 2
  const Fps2997: FrameRate := 3
  const Fps30: FrameRate := 4
  const Fps4795: FrameRate := 5
  const Fps48: FrameRate := 6
  const Fps50: FrameRate := 7
  const Fps5994: FrameRate := 8
  const Fps60: FrameRate := 9
  const Fps9590: FrameRate := 10
  const Fps96: FrameRate := 11
  const Fps98: FrameRate := 12
  const Fps100: FrameRate := 13
  const Fps11988: FrameRate := 14
  const Fps120: FrameRate := 15

  /** VideoMode.ScanMode. */
  type ScanMode = s: int | 0 <= s < 2

  const Progressive: ScanMode := 0
  const Interlaced: ScanMode := 1

  /** A VideoMode. Its `index` is its position in the table, so the model knows a mode by
    * its value and its position by the table. */
  datatype VideoMode = VideoMode(resolution: Resolution, frameRate: FrameRate, scanMode: ScanMode, sdkValue: int)

  predicate SameTriple(m: VideoMode, n: VideoMode)
  {
    m.resolution == n.resolution && m.frameRate == n.frameRate && m.scanMode == n.scanMode
  }

  /** No two rows share an SDK code: the registry's dictionary from code to mode gets no
    * duplicate key. */
  predicate UniqueSdk(ms: seq<VideoMode>)
  {
    forall i, j :: 0 <= i < j < |ms| ==> ms[i].sdkValue != ms[j].sdkValue
  }

  /** No two rows share a resolution, frame rate and scan mode: the registry's dictionaries
    * from the triple to the mode get no duplicate key. */
  predicate UniqueTriples(ms: seq<VideoMode>)
  {
    forall i, j :: 0 <= i < j < |ms| ==> !SameTriple(ms[i], ms[j])
  }

  /** The two ASCII digits the SDK codes of the conventionally named modes end with, one
    * pair per frame rate; 98 fps has no mode. */
  function RateCode(f: FrameRate): (r: Option<int>)
    ensures r.Some? <==> f != Fps98
  {
    if f == Fps2398 then Some(0x3233)        // "23"
    else if f == Fps24 then Some(0x3234)     // "24"
    else if f == Fps25 then Some(0x3235)     // "25"
    else if f == Fps2997 then Some(0x3239)   // "29"
    else if f == Fps30 then Some(0x3330)     // "30"
    else if f == Fps4795 then Some(0x3437)   // "47"
    else if f == Fps48 then Some(0x3438)     // "48"
    else if f == Fps50 then Some(0x3530)     // "50"
    else if f == Fps5994 then Some(0x3539)   // "59"
    else if f == Fps60 then Some(0x3630)     // "60"
    else if f == Fps9590 then Some(0x3935)   // "95"
    else if f == Fps96 then Some(0x3936)     // "96"
    else if f == Fps100 then Some(0x3130)    // "10"
    else if f == Fps11988 then Some(0x3131)  // "11"
    else if f == Fps120 then Some(0x3132)    // "12"
    else None
  }

  /** The codes of the HD, 2K, UHD, DCI and 8K modes name the frame rate in their last two
    * characters ("Hp50" is 1080p50, "4k96" is 2160p96). The 1080p 23.98 and 24 modes are
    * the exception: their codes "23ps" and "24ps" carry the rate in front. */
  predicate FollowsRateConvention(m: VideoMode)
  {
    var conventional := ResHD1080 <= m.resolution <= Res8KDci
      && !(m.resolution == ResHD1080 && m.scanMode == Progressive && m.frameRate <= Fps24);
    conventional ==> RateCode(m.frameRate) == Some(m.sdkValue % 0x1_0000)
  }

  /** The family a code belongs to, read from its first two characters: the groups of rows
    * of the table, numbered in order; -1 for a code of no group. */
  function SdkFamily(v: int): (k: int)
    ensures k >= 0 ==> v >= 0x3139_0000
    ensures -1 <= k <= 12
  {
    var h := v / 0x1_0000;
    if h == 0x6e74 || h == 0x7061 then 0                     // "nt", "pa"
    else if h == 0x3233 || h == 0x3234 || h == 0x4870 then 1 // "23", "24", "Hp"
    else if h == 0x4869 then 2                               // "Hi"
    else if h == 0x6870 then 3                               // "hp"
    else if h == 0x326b then 4                               // "2k"
    else if h == 0x3264 then 5                               // "2d"
    else if h == 0x346b then 6                               // "4k"
    else if h == 0x3464 then 7                               // "4d"
    else if h == 0x386b then 8                               // "8k"
    else if h == 0x3864 then 9                               // "8d"
    else if h == 0x7376 || h == 0x7378 || h == 0x7667 || h == 0x7778 then 10
    else if h == 0x3139 || h == 0x7578 || h == 0x7775 then 11
    else if h == 0x7771 then 12
    else -1
  }

  /** The same groups, read from the resolution and the scan mode. */
  function TripleFamily(m: VideoMode): (k: int)
    ensures 0 <= k <= 12
  {
    if m.resolution <= ResPAL then 0
    else if m.resolution == ResHD1080 then (if m.scanMode == Progressive then 1 else 2)
    else if m.resolution <= Res8KDci then m.resolution
    else if m.resolution <= Res1440x1080 then 10
    else if m.resolution <= Res1920x1440 then 11
    else 12
  }

  /** A group of rows of the table: no duplicate code or triple inside it, every row in
    * family `k` both by its code and by its triple, and every code following the frame
    * rate convention. */
  predicate WellFormedGroup(g: seq<VideoMode>, k: int)
  {
    UniqueSdk(g) && UniqueTriples(g) && GroupRows(g, k)
  }

  predicate GroupRows(g: seq<VideoMode>, k: int)
  {
    forall i :: 0 <= i < |g| ==>
      SdkFamily(g[i].sdkValue) == k && TripleFamily(g[i]) == k && FollowsRateConvention(g[i])
  }


  const NtscPalModes: seq<VideoMode> := [
    VideoMode(ResNTSC, Fps5994, Interlaced, 0x6e74_7363),
    VideoMode(ResNTSC, Fps2398, Interlaced, 0x6e74_3233),
    VideoMode(ResPAL, Fps50, Interlaced, 0x7061_6c20),
    VideoMode(ResNTSC, Fps5994, Progressive, 0x6e74_7370),
    VideoMode(ResPAL, Fps50, Progressive, 0x7061_6c70)
  ]

  const Hd1080pModesAsWritten: seq<VideoMode> := [
    VideoMode(ResHD1080, Fps2398, Progressive, 0x3233_7073),
    VideoMode(ResHD1080, Fps24, Progressive, 0x3234_7073),
    VideoMode(ResHD1080, Fps25, Progressive, 0x4870_3235),
    VideoMode(ResHD1080, Fps2997, Progressive, 0x4870_3239),
    VideoMode(ResHD1080, Fps30, Progressive, 0x4870_3330),
    VideoMode(ResHD1080, Fps4795, Progressive, 0x4870_3437),
    VideoMode(ResHD1080, Fps48, Progressive, 0x4870_3438),
    VideoMode(ResHD1080, Fps50, Progressive, 0x4870_3530),
    VideoMode(ResHD1080, Fps5994, Progressive, 0x4870_3539),
    VideoMode(ResHD1080, Fps60, Progressive, 0x4870_3630),
    VideoMode(ResHD1080, Fps9590, Progressive, 0x4870_3936),
    VideoMode(ResHD1080, Fps96, Progressive, 0x4870_3130),
    VideoMode(ResHD1080, Fps11988, Progressive, 0x4870_3131),
    VideoMode(ResHD1080, Fps120, Progressive, 0x4870_3132)
  ]

  const Hd1080iModes: seq<VideoMode> := [
    VideoMode(ResHD1080, Fps50, Interlaced, 0x4869_3530),
    VideoMode(ResHD1080, Fps5994, Interlaced, 0x4869_3539),
    VideoMode(ResHD1080, Fps60, Interlaced, 0x4869_3630)
  ]

  const Hd720Modes: seq<VideoMode> := [
    VideoMode(ResHD720, Fps50, Progressive, 0x6870_3530),
    VideoMode(ResHD720, Fps5994, Progressive, 0x6870_3539),
    VideoMode(ResHD720, Fps60, Progressive, 0x6870_3630)
  ]

  const TwoKModes: seq<VideoMode> := [
    VideoMode(Res2K, Fps2398, Progressive, 0x326b_3233),
    VideoMode(Res2K, Fps24, Progressive, 0x326b_3234),
    VideoMode(Res2K, Fps25, Progressive, 0x326b_3235)
  ]

  const TwoKDciModes: seq<VideoMode> := [
    VideoMode(Res2KDci, Fps2398, Progressive, 0x3264_3233),
    VideoMode(Res2KDci, Fps24, Progressive, 0x3264_3234),
    VideoMode(Res2KDci, Fps25, Progressive, 0x3264_3235),
    VideoMode(Res2KDci, Fps2997, Progressive, 0x3264_3239),
    VideoMode(Res2KDci, Fps30, Progressive, 0x3264_3330),
    VideoMode(Res2KDci, Fps4795, Progressive, 0x3264_3437),
    VideoMode(Res2KDci, Fps48, Progressive, 0x3264_3438),
    VideoMode(Res2KDci, Fps50, Progressive, 0x3264_3530),
    VideoMode(Res2KDci, Fps5994, Progressive, 0x3264_3539),
    VideoMode(Res2KDci, Fps60, Progressive, 0x3264_3630),
    VideoMode(Res2KDci, Fps9590, Progressive, 0x3264_3935),
    VideoMode(Res2KDci, Fps96, Progressive, 0x3264_3936),
    VideoMode(Res2KDci, Fps100, Progressive, 0x3264_3130),
    VideoMode(Res2KDci, Fps11988, Progressive, 0x3264_3131),
    VideoMode(Res2KDci, Fps120, Progressive, 0x3264_3132)
  ]

  const Uhd2160Modes: seq<VideoMode> := [
    VideoMode(Res2160, Fps2398, Progressive, 0x346b_3233),
    VideoMode(Res2160, Fps24, Progressive, 0x346b_3234),
    VideoMode(Res2160, Fps25, Progressive, 0x346b_3235),
    VideoMode(Res2160, Fps2997, Progressive, 0x346b_3239),
    VideoMode(Res2160, Fps30, Progressive, 0x346b_3330),
    VideoMode(Res2160, Fps4795, Progressive, 0x346b_3437),
    VideoMode(Res2160, Fps48, Progressive, 0x346b_3438),
    VideoMode(Res2160, Fps50, Progressive, 0x346b_3530),
    VideoMode(Res2160, Fps5994, Progressive, 0x346b_3539),
    VideoMode(Res2160, Fps60, Progressive, 0x346b_3630),
    VideoMode(Res2160, Fps9590, Progressive, 0x346b_3935),
    VideoMode(Res2160, Fps96, Progressive, 0x346b_3936),
    VideoMode(Res2160, Fps100, Progressive, 0x346b_3130),
    VideoMode(Res2160, Fps11988, Progressive, 0x346b_3131),
    VideoMode(Res2160, Fps120, Progressive, 0x346b_3132)
  ]

  const FourKDciModes: seq<VideoMode> := [
    VideoMode(Res4KDci, Fps2398, Progressive, 0x3464_3233),
    VideoMode(Res4KDci, Fps24, Progressive, 0x3464_3234),
    VideoMode(Res4KDci, Fps25, Progressive, 0x3464_3235),
    VideoMode(Res4KDci, Fps2997, Progressive, 0x3464_3239),
    VideoMode(Res4KDci, Fps30, Progressive, 0x3464_3330),
    VideoMode(Res4KDci, Fps4795, Progressive, 0x3464_3437),
    VideoMode(Res4KDci, Fps48, Progressive, 0x3464_3438),
    VideoMode(Res4KDci, Fps50, Progressive, 0x3464_3530),
    VideoMode(Res4KDci, Fps5994, Progressive, 0x3464_3539),
    VideoMode(Res4KDci, Fps60, Progressive, 0x3464_3630),
    VideoMode(Res4KDci, Fps9590, Progressive, 0x3464_3935),
    VideoMode(Res4KDci, Fps96, Progressive, 0x3464_3936),
    VideoMode(Res4KDci, Fps100, Progressive, 0x3464_3130),
    VideoMode(Res4KDci, Fps11988, Progressive, 0x3464_3131),
    VideoMode(Res4KDci, Fps120, Progressive, 0x3464_3132)
  ]

  const Uhd4320Modes: seq<VideoMode> := [
    VideoMode(Res4320, Fps2398, Progressive, 0x386b_3233),
    VideoMode(Res4320, Fps24, Progressive, 0x386b_3234),
    VideoMode(Res4320, Fps25, Progressive, 0x386b_3235),
    VideoMode(Res4320, Fps2997, Progressive, 0x386b_3239),
    VideoMode(Res4320, Fps30, Progressive, 0x386b_3330),
    VideoMode(Res4320, Fps4795, Progressive, 0x386b_3437),
    VideoMode(Res4320, Fps48, Progressive, 0x386b_3438),
    VideoMode(Res4320, Fps50, Progressive, 0x386b_3530),
    VideoMode(Res4320, Fps5994, Progressive, 0x386b_3539),
    VideoMode(Res4320, Fps60, Progressive, 0x386b_3630)
  ]

  const EightKDciModes: seq<VideoMode> := [
    VideoMode(Res8KDci, Fps2398, Progressive, 0x3864_3233),
    VideoMode(Res8KDci, Fps24, Progressive, 0x3864_3234),
    VideoMode(Res8KDci, Fps25, Progressive, 0x3864_3235),
    VideoMode(Res8KDci, Fps2997, Progressive, 0x3864_3239),
    VideoMode(Res8KDci, Fps30, Progressive, 0x3864_3330),
    VideoMode(Res8KDci, Fps4795, Progressive, 0x3864_3437),
    VideoMode(Res8KDci, Fps48, Progressive, 0x3864_3438),
    VideoMode(Res8KDci, Fps50, Progressive, 0x3864_3530),
    VideoMode(Res8KDci, Fps5994, Progressive, 0x3864_3539),
    VideoMode(Res8KDci, Fps60, Progressive, 0x3864_3630)
  ]

  const PcModesA: seq<VideoMode> := [
    VideoMode(Res640x480, Fps60, Progressive, 0x7667_6136),
    VideoMode(Res800x600, Fps60, Progressive, 0x7376_6736),
    VideoMode(Res1440x900, Fps50, Progressive, 0x7778_6735),
    VideoMode(Res1440x900, Fps60, Progressive, 0x7778_6736),
    VideoMode(Res1440x1080, Fps50, Progressive, 0x7378_6735),
    VideoMode(Res1440x1080, Fps60, Progressive, 0x7378_6736)
  ]

  const PcModesB: seq<VideoMode> := [
    VideoMode(Res1600x1200, Fps50, Progressive, 0x7578_6735),
    VideoMode(Res1600x1200, Fps60, Progressive, 0x7578_6736),
    VideoMode(Res1920x1200, Fps50, Progressive, 0x7775_7835),
    VideoMode(Res1920x1200, Fps60, Progressive, 0x7775_7836),
    VideoMode(Res1920x1440, Fps50, Progressive, 0x3139_3435),
    VideoMode(Res1920x1440, Fps60, Progressive, 0x3139_3436)
  ]

  const PcModesC: seq<VideoMode> := [
    VideoMode(Res2560x1440, Fps50, Progressive, 0x7771_6835),
    VideoMode(Res2560x1440, Fps60, Progressive, 0x7771_6836),
    VideoMode(Res2560x1600, Fps50, Progressive, 0x7771_7835),
    VideoMode(Res2560x1600, Fps60, Progressive, 0x7771_7836)
  ]

  /** The HD 1080p rows with the codes their frame rates call for: 95.90 fps is "Hp95"
    * and 96 fps is "Hp96". As written, these two rows carry "Hp96" and "Hp10". */
  const Hd1080pModes: seq<VideoMode> :=
    Hd1080pModesAsWritten[10 := VideoMode(ResHD1080, Fps9590, Progressive, 0x4870_3935)]
                         [11 := VideoMode(ResHD1080, Fps96, Progressive, 0x4870_3936)]

  /** VideoModeRegistry.s_Modes, group after group, with the HD 1080p codes corrected. */
  const Modes: seq<VideoMode> :=
    NtscPalModes + Hd1080pModes + Hd1080iModes + Hd720Modes + TwoKModes + TwoKDciModes
    + Uhd2160Modes + FourKDciModes + Uhd4320Modes + EightKDciModes + PcModesA + PcModesB + PcModesC

  /** No two rows of the table share a code or a triple. */
  lemma ModesUnique()
    ensures UniqueSdk(Modes) && UniqueTriples(Modes)
  {
    ModesWellFormed();
  }

  lemma NtscPalModesDistinct() ensures UniqueSdk(NtscPalModes) && UniqueTriples(NtscPalModes) {}
  lemma Hd1080pModesDistinct() ensures UniqueSdk(Hd1080pModes) && UniqueTriples(Hd1080pModes) {}
  lemma Hd1080iModesDistinct() ensures UniqueSdk(Hd1080iModes) && UniqueTriples(Hd1080iModes) {}
  lemma Hd720ModesDistinct() ensures UniqueSdk(Hd720Modes) && UniqueTriples(Hd720Modes) {}
  lemma TwoKModesDistinct() ensures UniqueSdk(TwoKModes) && UniqueTriples(TwoKModes) {}
  lemma TwoKDciModesDistinct() ensures UniqueSdk(TwoKDciModes) && UniqueTriples(TwoKDciModes) {}
  lemma Uhd2160ModesDistinct() ensures UniqueSdk(Uhd2160Modes) && UniqueTriples(Uhd2160Modes) {}
  lemma FourKDciModesDistinct() ensures UniqueSdk(FourKDciModes) && UniqueTriples(FourKDciModes) {}
  lemma Uhd4320ModesDistinct() ensures UniqueSdk(Uhd4320Modes) && UniqueTriples(Uhd4320Modes) {}
  lemma EightKDciModesDistinct() ensures UniqueSdk(EightKDciModes) && UniqueTriples(EightKDciModes) {}
  lemma PcModesADistinct() ensures UniqueSdk(PcModesA) && UniqueTriples(PcModesA) {}
  lemma PcModesBDistinct() ensures UniqueSdk(PcModesB) && UniqueTriples(PcModesB) {}
  lemma PcModesCDistinct() ensures UniqueSdk(PcModesC) && UniqueTriples(PcModesC) {}
  lemma NtscPalModesInFamily() ensures GroupRows(NtscPalModes, 0) {}
  lemma Hd1080pModesInFamily() ensures GroupRows(Hd1080pModes, 1) {}
  lemma Hd1080iModesInFamily() ensures GroupRows(Hd1080iModes, 2) {}
  lemma Hd720ModesInFamily() ensures GroupRows(Hd720Modes, 3) {}
  lemma TwoKModesInFamily() ensures GroupRows(TwoKModes, 4) {}
  lemma TwoKDciModesInFamily() ensures GroupRows(TwoKDciModes, 5) {}
  lemma Uhd2160ModesInFamily() ensures GroupRows(Uhd2160Modes, 6) {}
  lemma FourKDciModesInFamily() ensures GroupRows(FourKDciModes, 7) {}
  lemma Uhd4320ModesInFamily() ensures GroupRows(Uhd4320Modes, 8) {}
  lemma EightKDciModesInFamily() ensures GroupRows(EightKDciModes, 9) {}
  lemma PcModesAInFamily() ensures GroupRows(PcModesA, 10) {}
  lemma PcModesBInFamily() ensures GroupRows(PcModesB, 11) {}
  lemma PcModesCInFamily() ensures GroupRows(PcModesC, 12) {}

  /** Every row lies in a family below `k` and follows the frame rate convention. */
  predicate FamiliesBelow(ms: seq<VideoMode>, k: int)
  {
    forall i :: 0 <= i < |ms| ==>
      0 <= SdkFamily(ms[i].sdkValue) < k && TripleFamily(ms[i]) < k && FollowsRateConvention(ms[i])
  }

  /** Appending the group of family `k` to rows of lower families keeps codes and triples
    * unique: rows of different families differ in both. */
  lemma {:induction false} AppendGroup(a: seq<VideoMode>, b: seq<VideoMode>, k: int)
    requires UniqueSdk(a) && UniqueTriples(a) && FamiliesBelow(a, k) && WellFormedGroup(b, k)
    ensures UniqueSdk(a + b) && UniqueTriples(a + b) && FamiliesBelow(a + b, k + 1)
  {
    var c := a + b;
    forall i, j | 0 <= i < j < |c|
      ensures c[i].sdkValue != c[j].sdkValue && !SameTriple(c[i], c[j])
    {
      if i >= |a| {
        assert c[i] == b[i - |a|] && c[j] == b[j - |a|];
      } else if j >= |a| {
        assert c[i] == a[i] && c[j] == b[j - |a|];
      }
    }
    forall i | 0 <= i < |c|
      ensures 0 <= SdkFamily(c[i].sdkValue) < k + 1 && TripleFamily(c[i]) < k + 1 && FollowsRateConvention(c[i])
    {
      if i >= |a| {
        assert c[i] == b[i - |a|];
      }
    }
  }

  /** The assertions of the registry's constructor hold of the table: no SDK code and no
    * (resolution, frame rate, scan mode) appears twice, and every code follows the frame
    * rate convention and differs from the "unknown mode" value, the table's length. */
  lemma {:induction false} ModesWellFormed()
    ensures UniqueSdk(Modes) && UniqueTriples(Modes)
    ensures forall i :: 0 <= i < |Modes| ==> FollowsRateConvention(Modes[i]) && Modes[i].sdkValue != |Modes|
  {
    NtscPalModesDistinct();
    NtscPalModesInFamily();
    Hd1080pModesDistinct();
    Hd1080pModesInFamily();
    Hd1080iModesDistinct();
    Hd1080iModesInFamily();
    Hd720ModesDistinct();
    Hd720ModesInFamily();
    TwoKModesDistinct();
    TwoKModesInFamily();
    TwoKDciModesDistinct();
    TwoKDciModesInFamily();
    Uhd2160ModesDistinct();
    Uhd2160ModesInFamily();
    FourKDciModesDistinct();
    FourKDciModesInFamily();
    Uhd4320ModesDistinct();
    Uhd4320ModesInFamily();
    EightKDciModesDistinct();
    EightKDciModesInFamily();
    PcModesADistinct();
    PcModesAInFamily();
    PcModesBDistinct();
    PcModesBInFamily();
    PcModesCDistinct();
    PcModesCInFamily();
    var p := NtscPalModes;
    AppendGroup(p, Hd1080pModes, 1);
    p := p + Hd1080pModes;
    AppendGroup(p, Hd1080iModes, 2);
    p := p + Hd1080iModes;
    AppendGroup(p, Hd720Modes, 3);
    p := p + Hd720Modes;
    AppendGroup(p, TwoKModes, 4);
    p := p + TwoKModes;
    AppendGroup(p, TwoKDciModes, 5);
    p := p + TwoKDciModes;
    AppendGroup(p, Uhd2160Modes, 6);
    p := p + Uhd2160Modes;
    AppendGroup(p, FourKDciModes, 7);
    p := p + FourKDciModes;
    AppendGroup(p, Uhd4320Modes, 8);
    p := p + Uhd4320Modes;
    AppendGroup(p, EightKDciModes, 9);
    p := p + EightKDciModes;
    AppendGroup(p, PcModesA, 10);
    p := p + PcModesA;
    AppendGroup(p, PcModesB, 11);
    p := p + PcModesB;
    AppendGroup(p, PcModesC, 12);
    p := p + PcModesC;
    assert p == Modes;
  }

  /** As written, the 1080p 95.90 row carries the code of 96 fps ("Hp96") and the 1080p 96
    * row the code of 100 fps ("Hp10"), so a device offering 1080p96 is read as 95.90 fps. */
  lemma AsWrittenHd1080pCodesAreShifted()
    ensures Hd1080pModesAsWritten[10].frameRate == Fps9590 && !FollowsRateConvention(Hd1080pModesAsWritten[10])
    ensures RateCode(Fps96) == Some(Hd1080pModesAsWritten[10].sdkValue % 0x1_0000)
    ensures Hd1080pModesAsWritten[11].frameRate == Fps96 && !FollowsRateConvention(Hd1080pModesAsWritten[11])
    ensures RateCode(Fps100) == Some(Hd1080pModesAsWritten[11].sdkValue % 0x1_0000)
  {
  }

  /** The search by SDK code: the first row with code `v`. */
  function FindSdk(ms: seq<VideoMode>, v: int): (r: Option<VideoMode>)
    ensures r.Some? ==> r.value.sdkValue == v
  {
    if |ms| == 0 then None
    else if ms[0].sdkValue == v then Some(ms[0])
    else FindSdk(ms[1..], v)
  }

  /** The search by triple: the first row with that resolution, frame rate and scan mode. */
  function FindTriple(ms: seq<VideoMode>, res: Resolution, rate: FrameRate, scan: ScanMode): (r: Option<VideoMode>)
    ensures r.Some? ==> r.value == VideoMode(res, rate, scan, r.value.sdkValue)
  {
    if |ms| == 0 then None
    else if SameTriple(ms[0], VideoMode(res, rate, scan, 0)) then Some(ms[0])
    else FindTriple(ms[1..], res, rate, scan)
  }

  lemma UniqueTail(ms: seq<VideoMode>)
    requires |ms| > 0
    ensures UniqueSdk(ms) ==> UniqueSdk(ms[1..]) && forall m :: m in ms[1..] ==> m.sdkValue != ms[0].sdkValue
    ensures UniqueTriples(ms) ==> UniqueTriples(ms[1..]) && forall m :: m in ms[1..] ==> !SameTriple(ms[0], m)
  {
    if UniqueSdk(ms) {
      forall m | m in ms[1..] ensures m.sdkValue != ms[0].sdkValue {
        var j :| 0 <= j < |ms[1..]| && ms[1..][j] == m;
        assert ms[j + 1] == m;
      }
    }
    if UniqueTriples(ms) {
      forall m | m in ms[1..] ensures !SameTriple(ms[0], m) {
        var j :| 0 <= j < |ms[1..]| && ms[1..][j] == m;
        assert ms[j + 1] == m;
      }
    }
  }

  /** In rows with unique codes, the search by code finds a row exactly when the row has
    * that code. */
  lemma {:induction false} FindSdkExact(ms: seq<VideoMode>, v: int, m: VideoMode)
    requires UniqueSdk(ms)
    ensures FindSdk(ms, v) == Some(m) <==> m in ms && m.sdkValue == v
  {
    if |ms| > 0 {
      UniqueTail(ms);
      FindSdkExact(ms[1..], v, m);
      assert ms == [ms[0]] + ms[1..];
    }
  }

  /** In rows with unique triples, the search by triple finds a row exactly when the row
    * has that triple. */
  lemma {:induction false} FindTripleExact(ms: seq<VideoMode>, res: Resolution, rate: FrameRate, scan: ScanMode, m: VideoMode)
    requires UniqueTriples(ms)
    ensures FindTriple(ms, res, rate, scan) == Some(m) <==>
      m in ms && m.resolution == res && m.frameRate == rate && m.scanMode == scan
  {
    if |ms| > 0 {
      UniqueTail(ms);
      FindTripleExact(ms[1..], res, rate, scan, m);
      assert ms == [ms[0]] + ms[1..];
    }
  }

  /** GetModeFromSDK: the length of the table stands for the SDK's "unknown mode" and gives
    * nothing; otherwise the row with that code, or nothing. */
  function SdkLookup(v: int): (r: Option<VideoMode>)
    ensures r.Some? ==> r.value.sdkValue == v && v != |Modes|
  {
    if v == |Modes| then None else FindSdk(Modes, v)
  }

  /** GetMode: the row with that resolution, frame rate and scan mode, or nothing. */
  function TripleLookup(res: Resolution, rate: FrameRate, scan: ScanMode): (r: Option<VideoMode>)
    ensures r.Some? ==> r.value == VideoMode(res, rate, scan, r.value.sdkValue)
  {
    FindTriple(Modes, res, rate, scan)
  }

  /** GetModeFromSDK gives a mode exactly when the code is that mode's row. */
  lemma SdkLookupExact(v: int, m: VideoMode)
    ensures SdkLookup(v) == Some(m) <==> m in Modes && m.sdkValue == v
  {
    ModesWellFormed();
    FindSdkExact(Modes, v, m);
    if m in Modes {
      var i :| 0 <= i < |Modes| && Modes[i] == m;
    }
  }

  /** GetMode gives a mode exactly when the triple is that mode's row. */
  lemma TripleLookupExact(res: Resolution, rate: FrameRate, scan: ScanMode, m: VideoMode)
    ensures TripleLookup(res, rate, scan) == Some(m) <==>
      m in Modes && m.resolution == res && m.frameRate == rate && m.scanMode == scan
  {
    ModesWellFormed();
    FindTripleExact(Modes, res, rate, scan, m);
  }

  /** Each mode's code and triple lead back to it: GetModeFromSDK and GetMode invert the
    * table. */
  lemma ModesRoundTrip(m: VideoMode)
    requires m in Modes
    ensures SdkLookup(m.sdkValue) == Some(m)
    ensures TripleLookup(m.resolution, m.frameRate, m.scanMode) == Some(m)
  {
    SdkLookupExact(m.sdkValue, m);
    TripleLookupExact(m.resolution, m.frameRate, m.scanMode, m);
  }
}
