/** The connector mappings of a DeckLink card (DeckLinkManagerDeviceProfile.cs) and the
  * output keying and link modes each admits (OutputKeyingMode.cs, OutputLinkMode.cs).
  * Like the C# enums, mappings and modes are plain integers: a cast may hold any
  * value, and the switches send every unnamed value to their default case. */
module ConnectorMappings {

  type ConnectorMapping = int

  const FourSubDevicesHalfDuplex: ConnectorMapping := 0
  const OneSubDeviceFullDuplex: ConnectorMapping := 1
  const OneSubDeviceHalfDuplex: ConnectorMapping := 2
  const TwoSubDevicesFullDuplex: ConnectorMapping := 3
  const TwoSubDevicesHalfDuplex: ConnectorMapping := 4

  predicate IsNamedMapping(mapping: ConnectorMapping)
  {
    FourSubDevicesHalfDuplex <= mapping <= TwoSubDevicesHalfDuplex
  }

  /** The shape each mapping's documentation gives it: how many sub-devices the card
    * shows, and whether each of them does input and output at once. */
  function SubDeviceCount(mapping: ConnectorMapping): int
  {
    if mapping == FourSubDevicesHalfDuplex then 4
    else if mapping == OneSubDeviceFullDuplex || mapping == OneSubDeviceHalfDuplex then 1
    else if mapping == TwoSubDevicesFullDuplex || mapping == TwoSubDevicesHalfDuplex then 2
    else 0
  }

  predicate IsFullDuplex(mapping: ConnectorMapping)
  {
    mapping == OneSubDeviceFullDuplex || mapping == TwoSubDevicesFullDuplex
  }

  predicate IsHalfDuplex(mapping: ConnectorMapping)
  {
    IsNamedMapping(mapping) && !IsFullDuplex(mapping)
  }

  /** KeyingMode: flags of one bit each. */
  type KeyingMode = int

  const KeyingNone: KeyingMode := 1
  const KeyingExternal: KeyingMode := 2
  const KeyingInternal: KeyingMode := 4

  /** LinkMode: flags of one bit each. */
  type LinkMode = int

  const LinkSingle: LinkMode := 1
  const LinkDual: LinkMode := 2
  const LinkQuad: LinkMode := 4

  /** The enum values in declaration order, as the caches walk them. */
  const KeyingModes: seq<KeyingMode> := [KeyingNone, KeyingExternal, KeyingInternal]
  const LinkModes: seq<LinkMode> := [LinkSingle, LinkDual, LinkQuad]

  /** IsKeyingModeCompatible: keying needs a single sub-device, or sub-devices that
    * each do input and output; the four-sub-device mapping, which is documented as
    * not supporting keying, is refused. */
  function IsKeyingModeCompatible(mapping: ConnectorMapping): (compatible: bool)
    ensures compatible ==> IsNamedMapping(mapping) && mapping != FourSubDevicesHalfDuplex
  {
    if mapping == OneSubDeviceFullDuplex || mapping == OneSubDeviceHalfDuplex || mapping == TwoSubDevicesFullDuplex then true
    else false
  }

  /** IsLinkModeCompatible: only the mappings with a single sub-device. */
  function IsLinkModeCompatible(mapping: ConnectorMapping): (compatible: bool)
    ensures compatible ==> SubDeviceCount(mapping) == 1
  {
    if mapping == OneSubDeviceFullDuplex || mapping == OneSubDeviceHalfDuplex then true
    else false
  }

  /** Keying compatibility read off the shape of the mapping: one sub-device, or
    * full duplex. */
  lemma KeyingByShape(mapping: ConnectorMapping)
    ensures IsKeyingModeCompatible(mapping) <==> SubDeviceCount(mapping) == 1 || IsFullDuplex(mapping)
  {
  }

  /** Link compatibility read off the shape of the mapping: exactly one sub-device. */
  lemma LinkByShape(mapping: ConnectorMapping)
    ensures IsLinkModeCompatible(mapping) <==> SubDeviceCount(mapping) == 1
  {
  }

  /** Every mapping that admits link modes also admits keying. */
  lemma LinkCompatibleIsKeyingCompatible(mapping: ConnectorMapping)
    ensures IsLinkModeCompatible(mapping) ==> IsKeyingModeCompatible(mapping)
  {
  }

  /** The OR of the flags of a list of modes, as the caches build their masks. */
  function MaskOf(modes: seq<int>): (mask: bv8)
    requires forall i :: 0 <= i < |modes| ==> modes[i] in {1, 2, 4}
    ensures mask & 0xF8 == 0
    decreases |modes|
  {
    if |modes| == 0 then 0
    else MaskOf(modes[..|modes| - 1]) | FlagBits(modes[|modes| - 1])
  }

  /** A single-bit flag as a byte. */
  function FlagBits(flag: int): (bits: bv8)
    requires flag in {1, 2, 4}
    ensures bits == 1 || bits == 2 || bits == 4
  {
    if flag == 1 then 1 else if flag == 2 then 2 else 4
  }

  /** The flags are distinct single bits, so OR-ing them loses nothing: a flag's bit is
    * in the mask exactly when the flag is in the list. */
  lemma {:induction false} MaskIsLossless(modes: seq<int>, flag: int)
    requires forall i :: 0 <= i < |modes| ==> modes[i] in {1, 2, 4}
    requires flag in {1, 2, 4}
    ensures MaskOf(modes) & FlagBits(flag) != 0 <==> flag in modes
    decreases |modes|
  {
    if |modes| > 0 {
      var init := modes[..|modes| - 1];
      MaskIsLossless(init, flag);
      assert modes == init + [modes[|modes| - 1]];
      assert flag in modes <==> flag in init || flag == modes[|modes| - 1];
    }
  }
}
