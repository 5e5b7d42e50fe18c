/** The card side of DeckLinkManager (DeckLinkManagerDeviceDiscovery.cs): the table of
  * DeckLink cards the driver reported, the logical devices (sub-devices) each card
  * offers and how many of them are taken, the cached link and keying masks, and the
  * lookups that turn a device's position in the sorted name lists into a card and an
  * offset. The driver's answers (which modes a card's group supports, whether changing
  * the connector mapping succeeded) are parameters. The card dictionary is keyed
  * 0, 1, 2, ... in insertion order and is modelled as a sequence. */
module DeviceDiscovery {
  import opened Wrappers
  import opened ConnectorMappings
  import opened VideoDeviceTypes

  /** DeckLinkCard: one physical card and what is cached about it. */
  class DeckLinkCard {
    var name: string
    var groupID: int
    var compatibleConnectorMappings: seq<ConnectorMapping>
    var availableLogicalDevices: seq<string>
    var usedInputDevices: int
    var usedOutputDevices: int
    var compatibleLinkModes: bv8
    var compatibleKeyingModes: bv8
    var isKeyingCompatible: bool
    var isLinkModeCompatible: bool

    /** A new card has no mappings, no logical devices, empty masks, and counts as
      * compatible with both features until the caches say otherwise. */
    constructor(deviceName: string)
      ensures name == deviceName && groupID == 0
      ensures compatibleConnectorMappings == [] && availableLogicalDevices == []
      ensures usedInputDevices == 0 && usedOutputDevices == 0
      ensures compatibleLinkModes == 0 && compatibleKeyingModes == 0
      ensures isKeyingCompatible && isLinkModeCompatible
    {
      name := deviceName;
      groupID := 0;
      compatibleConnectorMappings := [];
      availableLogicalDevices := [];
      usedInputDevices, usedOutputDevices := 0, 0;
      compatibleLinkModes, compatibleKeyingModes := 0, 0;
      isKeyingCompatible, isLinkModeCompatible := true, true;
    }

    /** ResetValues clears the mappings, both masks and the group; the logical devices,
      * the used counts and the compatibility flags are kept. */
    method ResetValues()
      modifies this`compatibleConnectorMappings, this`compatibleLinkModes, this`compatibleKeyingModes, this`groupID
      ensures compatibleConnectorMappings == [] && compatibleLinkModes == 0 && compatibleKeyingModes == 0 && groupID == 0
    {
      compatibleConnectorMappings := [];
      compatibleLinkModes := 0;
      compatibleKeyingModes := 0;
      groupID := 0;
    }

    /** The logical devices of the card not taken by a device of the given type. */
    function Free(deviceType: DeviceType): int
      reads this
    {
      |availableLogicalDevices| - (if deviceType == Input then usedInputDevices else usedOutputDevices)
    }
  }

  /** Everything about a card but its used counts and its compatibility flags stays as
    * it was. */
  twostate predicate SameCardData(c: DeckLinkCard)
    reads c
  {
    c.name == old(c.name) && c.groupID == old(c.groupID)
    && c.compatibleConnectorMappings == old(c.compatibleConnectorMappings)
    && c.availableLogicalDevices == old(c.availableLogicalDevices)
    && c.compatibleLinkModes == old(c.compatibleLinkModes) && c.compatibleKeyingModes == old(c.compatibleKeyingModes)
  }

  /** The position of the first card that lists the logical device, or the number of
    * cards when none does: the card the nested foreach loops stop at. */
  function FirstListing(cards: seq<DeckLinkCard>, name: string): (k: int)
    reads cards
    ensures 0 <= k <= |cards|
    ensures forall j :: 0 <= j < k ==> name !in cards[j].availableLogicalDevices
    ensures k < |cards| ==> name in cards[k].availableLogicalDevices
    decreases |cards|
  {
    if cards == [] then 0
    else if name in cards[0].availableLogicalDevices then 0
    else 1 + FirstListing(cards[1..], name)
  }

  /** The free logical devices of the given type over a run of cards. */
  function FreeSum(cards: seq<DeckLinkCard>, deviceType: DeviceType): (sum: int)
    reads cards
    ensures (forall j :: 0 <= j < |cards| ==> cards[j].Free(deviceType) >= 0) ==> sum >= 0
    decreases |cards|
  {
    if cards == [] then 0
    else FreeSum(cards[..|cards| - 1], deviceType) + cards[|cards| - 1].Free(deviceType)
  }

  /** The offset of a logical device: the free devices of its type on every card before
    * the first card that lists it. */
  function FreeBefore(cards: seq<DeckLinkCard>, name: string, deviceType: DeviceType): (offset: int)
    reads cards
  {
    FreeSum(cards[..FirstListing(cards, name)], deviceType)
  }

  /** The offset as the foreach with its break computes it, card by card: a card that
    * lists the device ends the sum, any other card adds its free devices. */
  lemma {:induction false} FreeBeforeSteps(cards: seq<DeckLinkCard>, name: string, deviceType: DeviceType)
    requires cards != []
    ensures name in cards[0].availableLogicalDevices ==> FreeBefore(cards, name, deviceType) == 0
    ensures name !in cards[0].availableLogicalDevices ==>
      FreeBefore(cards, name, deviceType) == cards[0].Free(deviceType) + FreeBefore(cards[1..], name, deviceType)
  {
    if name !in cards[0].availableLogicalDevices {
      var k := FirstListing(cards[1..], name);
      assert cards[..k + 1][1..] == cards[1..][..k];
      FreeSumFront(cards[..k + 1], deviceType);
    }
  }

  /** A sum over a run of cards is its first card's share plus the sum over the rest. */
  lemma {:induction false} FreeSumFront(cards: seq<DeckLinkCard>, deviceType: DeviceType)
    requires cards != []
    ensures FreeSum(cards, deviceType) == cards[0].Free(deviceType) + FreeSum(cards[1..], deviceType)
    decreases |cards|
  {
    if |cards| > 1 {
      var init := cards[..|cards| - 1];
      FreeSumFront(init, deviceType);
      assert init[1..] == cards[1..][..|cards[1..]| - 1];
    }
  }

  /** When no card has more devices taken than it has, no offset is negative, and an
    * offset counts only devices on the cards before the one that lists the device. */
  lemma {:induction false} FreeBeforeBounds(cards: seq<DeckLinkCard>, name: string, deviceType: DeviceType)
    requires forall j :: 0 <= j < |cards| ==> 0 <= cards[j].Free(deviceType) <= |cards[j].availableLogicalDevices|
    ensures 0 <= FreeBefore(cards, name, deviceType) <= DeviceSum(cards[..FirstListing(cards, name)])
  {
    FreeSumAtMost(cards[..FirstListing(cards, name)], deviceType);
  }

  /** The logical devices over a run of cards. */
  function DeviceSum(cards: seq<DeckLinkCard>): (sum: nat)
    reads cards
    decreases |cards|
  {
    if cards == [] then 0 else DeviceSum(cards[..|cards| - 1]) + |cards[|cards| - 1].availableLogicalDevices|
  }

  /** When no card has more free devices than devices, neither has a run of cards. */
  lemma {:induction false} FreeSumAtMost(cards: seq<DeckLinkCard>, deviceType: DeviceType)
    requires forall j :: 0 <= j < |cards| ==> cards[j].Free(deviceType) <= |cards[j].availableLogicalDevices|
    ensures FreeSum(cards, deviceType) <= DeviceSum(cards)
    decreases |cards|
  {
    if cards != [] {
      FreeSumAtMost(cards[..|cards| - 1], deviceType);
    }
  }

  /** The modes of a list the driver reports compatible, in list order. */
  function Enabled(modes: seq<int>, compatible: set<int>): (enabled: seq<int>)
    ensures forall i :: 0 <= i < |enabled| ==> enabled[i] in modes && enabled[i] in compatible
    ensures forall x :: x in modes && x in compatible ==> x in enabled
    decreases |modes|
  {
    if modes == [] then []
    else
      var last := modes[|modes| - 1];
      Enabled(modes[..|modes| - 1], compatible) + (if last in compatible then [last] else [])
  }

  /** The link mask CacheCompatibleLinkModes stores, for the link modes the driver
    * reports compatible. */
  function LinkMask(compatible: set<int>): (mask: bv8)
  {
    MaskOf(Enabled(LinkModes, compatible))
  }

  /** The keying mask CacheCompatibleKeyingModes stores: None is never asked about. */
  function KeyingMask(compatible: set<int>): (mask: bv8)
  {
    MaskOf(Enabled(KeyingModes, compatible - {KeyingNone}))
  }

  /** The bit of a link mode is in the link mask exactly when the driver reports the
    * mode compatible, and no other bit is ever set. */
  lemma LinkMaskExact(compatible: set<int>, mode: int)
    requires mode in LinkModes
    ensures LinkMask(compatible) & FlagBits(mode) != 0 <==> mode in compatible
    ensures LinkMask(compatible) & 0xF8 == 0
  {
    MaskIsLossless(Enabled(LinkModes, compatible), mode);
  }

  /** The bit of a keying mode is in the keying mask exactly when the mode is not None
    * and the driver reports it compatible; so the None bit is never set. */
  lemma KeyingMaskExact(compatible: set<int>, mode: int)
    requires mode in KeyingModes
    ensures KeyingMask(compatible) & FlagBits(mode) != 0 <==> mode != KeyingNone && mode in compatible
    ensures KeyingMask(compatible) & 0xF8 == 0
  {
    MaskIsLossless(Enabled(KeyingModes, compatible - {KeyingNone}), mode);
  }

  /** One more mode looked at: its bit joins the mask when it is compatible. */
  lemma MaskStep(modes: seq<int>, mode: int, compatible: set<int>)
    requires forall i :: 0 <= i < |modes| ==> modes[i] in {1, 2, 4}
    requires mode in {1, 2, 4}
    ensures MaskOf(Enabled(modes + [mode], compatible))
      == MaskOf(Enabled(modes, compatible)) | (if mode in compatible then FlagBits(mode) else 0)
  {
    var e := Enabled(modes, compatible);
    assert (modes + [mode])[..|modes|] == modes;
    if mode in compatible {
      assert (e + [mode])[..|e|] == e;
    } else {
      assert e + [] == e;
    }
  }

  /** CacheLinkModeCompabilities: a card whose mapping did not change, or that has no
    * connector mappings at all, keeps link modes available; otherwise the mapping's
    * table decides, and link modes then need a single sub-device. */
  function LinkModeCompatibility(mappingChanged: bool, mappingCount: int, mapping: ConnectorMapping): (compatible: bool)
    ensures !mappingChanged ==> compatible
    ensures mappingCount == 0 ==> compatible
    ensures mappingChanged && mappingCount != 0 ==> (compatible <==> SubDeviceCount(mapping) == 1)
  {
    LinkByShape(mapping);
    if !mappingChanged || mappingCount == 0 then true else IsLinkModeCompatible(mapping)
  }

  /** CacheKeyingModeCompabilities: only a card whose mapping did not change and that
    * has no connector mappings keeps keying available unconditionally; in every other
    * case the mapping's table decides, and keying then needs one sub-device or full
    * duplex. */
  function KeyingModeCompatibility(mappingChanged: bool, mappingCount: int, mapping: ConnectorMapping): (compatible: bool)
    ensures !mappingChanged && mappingCount == 0 ==> compatible
    ensures mappingChanged || mappingCount != 0 ==>
      (compatible <==> SubDeviceCount(mapping) == 1 || IsFullDuplex(mapping))
  {
    KeyingByShape(mapping);
    if !mappingChanged && mappingCount == 0 then true else IsKeyingModeCompatible(mapping)
  }

  /** The two caches are built with different connectives: they agree when the mapping
    * changed on a card that has mappings, where link compatibility implies keying
    * compatibility; a card whose mapping did not change but that has mappings keeps
    * link modes while the four-sub-device mapping refuses it keying. */
  lemma CompatibilityCachesCompared(mapping: ConnectorMapping, mappingCount: int)
    ensures mappingCount != 0 ==>
      (LinkModeCompatibility(true, mappingCount, mapping) ==> KeyingModeCompatibility(true, mappingCount, mapping))
    ensures mappingCount != 0 ==>
      LinkModeCompatibility(false, mappingCount, FourSubDevicesHalfDuplex)
      && !KeyingModeCompatibility(false, mappingCount, FourSubDevicesHalfDuplex)
  {
    LinkCompatibleIsKeyingCompatible(mapping);
  }

  /** The foreach over a card's logical devices, stopping at the first name equal to
    * the one looked for. */
  method FindLogicalDevice(devices: seq<string>, name: string) returns (found: bool)
    ensures found <==> name in devices
  {
    var k := 0;
    while k < |devices|
      invariant 0 <= k <= |devices|
      invariant name !in devices[..k]
    {
      if devices[k] == name {
        return true;
      }
      k := k + 1;
    }
    assert devices[..k] == devices;
    return false;
  }

  /** The card-side fields of DeckLinkManager. */
  class DeckLinkManager {
    var cards: seq<DeckLinkCard>
    var inputDeviceNames: seq<string>
    var outputDeviceNames: seq<string>
    var devicesConnectorMapping: seq<ConnectorMapping>

    /** Each card is its own object, and every card has a connector mapping, as
      * InitializeAndRetrieveDeckLinkCards (lines 426-429) guarantees. */
    predicate Valid()
      reads this
    {
      |cards| <= |devicesConnectorMapping|
      && forall i, j :: 0 <= i < j < |cards| ==> cards[i] != cards[j]
    }

    /** The name list of a device type. */
    function Names(deviceType: DeviceType): seq<string>
      reads this
    {
      if deviceType == Input then inputDeviceNames else outputDeviceNames
    }

    /** CheckIfInputDeviceIsUsed: the card's input count goes up by one exactly when the
      * card lists the device, and by no more. */
    method CheckIfInputDeviceIsUsed(index: int, deviceName: string)
      requires 0 <= index < |cards|
      modifies (cards[index] as DeckLinkCard)`usedInputDevices
      ensures cards[index].usedInputDevices
        == old(cards[index].usedInputDevices) + (if deviceName in cards[index].availableLogicalDevices then 1 else 0)
    {
      var card := cards[index];
      var listed := FindLogicalDevice(card.availableLogicalDevices, deviceName);
      if listed {
        card.usedInputDevices := card.usedInputDevices + 1;
      }
    }

    /** CheckIfOutputDeviceIsUsed: the same for the card's output count. */
    method CheckIfOutputDeviceIsUsed(index: int, deviceName: string)
      requires 0 <= index < |cards|
      modifies (cards[index] as DeckLinkCard)`usedOutputDevices
      ensures cards[index].usedOutputDevices
        == old(cards[index].usedOutputDevices) + (if deviceName in cards[index].availableLogicalDevices then 1 else 0)
    {
      var card := cards[index];
      var listed := FindLogicalDevice(card.availableLogicalDevices, deviceName);
      if listed {
        card.usedOutputDevices := card.usedOutputDevices + 1;
      }
    }

    /** CacheCompatibleLinkModes: the mask is cleared, then every link mode the driver
      * reports compatible for the card's group is OR-ed in. */
    method CacheCompatibleLinkModes(index: int, compatible: set<int>)
      requires 0 <= index < |cards|
      modifies (cards[index] as DeckLinkCard)`compatibleLinkModes
      ensures cards[index].compatibleLinkModes == LinkMask(compatible)
    {
      var card := cards[index];
      card.compatibleLinkModes := 0;
      var i := 0;
      while i < |LinkModes|
        invariant 0 <= i <= |LinkModes|
        invariant card.compatibleLinkModes == MaskOf(Enabled(LinkModes[..i], compatible))
      {
        var mode := LinkModes[i];
        MaskStep(LinkModes[..i], mode, compatible);
        assert LinkModes[..i + 1] == LinkModes[..i] + [mode];
        if mode in compatible {
          card.compatibleLinkModes := card.compatibleLinkModes | FlagBits(mode);
        }
        i := i + 1;
      }
      assert LinkModes[..i] == LinkModes;
    }

    /** CacheCompatibleKeyingModes: the mask is cleared, None is skipped, and every
      * other keying mode the driver reports compatible is OR-ed in. */
    method CacheCompatibleKeyingModes(index: int, compatible: set<int>)
      requires 0 <= index < |cards|
      modifies (cards[index] as DeckLinkCard)`compatibleKeyingModes
      ensures cards[index].compatibleKeyingModes == KeyingMask(compatible)
    {
      var card := cards[index];
      card.compatibleKeyingModes := 0;
      var asked := compatible - {KeyingNone};
      var i := 0;
      while i < |KeyingModes|
        invariant 0 <= i <= |KeyingModes|
        invariant card.compatibleKeyingModes == MaskOf(Enabled(KeyingModes[..i], asked))
      {
        var mode := KeyingModes[i];
        MaskStep(KeyingModes[..i], mode, asked);
        assert KeyingModes[..i + 1] == KeyingModes[..i] + [mode];
        if mode == KeyingNone {
          i := i + 1;
          continue;
        }
        if mode in compatible {
          card.compatibleKeyingModes := card.compatibleKeyingModes | FlagBits(mode);
        }
        i := i + 1;
      }
      assert KeyingModes[..i] == KeyingModes;
    }

    /** CacheLinkModeCompabilities, with the card's own connector mapping. */
    method CacheLinkModeCompabilities(index: int, mappingChanged: bool)
      requires Valid() && 0 <= index < |cards|
      modifies (cards[index] as DeckLinkCard)`isLinkModeCompatible
      ensures cards[index].isLinkModeCompatible == LinkModeCompatibility(
        mappingChanged, |cards[index].compatibleConnectorMappings|, devicesConnectorMapping[index])
    {
      var card := cards[index];
      card.isLinkModeCompatible := if !mappingChanged || |card.compatibleConnectorMappings| == 0 then true
        else IsLinkModeCompatible(devicesConnectorMapping[index]);
    }

    /** CacheKeyingModeCompabilities, with the card's own connector mapping. */
    method CacheKeyingModeCompabilities(index: int, mappingChanged: bool)
      requires Valid() && 0 <= index < |cards|
      modifies (cards[index] as DeckLinkCard)`isKeyingCompatible
      ensures cards[index].isKeyingCompatible == KeyingModeCompatibility(
        mappingChanged, |cards[index].compatibleConnectorMappings|, devicesConnectorMapping[index])
    {
      var card := cards[index];
      card.isKeyingCompatible := if !mappingChanged && |card.compatibleConnectorMappings| == 0 then true
        else IsKeyingModeCompatible(devicesConnectorMapping[index]);
    }

    /** ChangedDevicesDuplexMode: an unknown card index changes nothing. Otherwise every
      * card's used counts go back to 0; the mapping counts as changed only when the
      * card lists it as compatible and the driver's ChangeAllDevicesConnectorMapping
      * (`driverChanges`) succeeds; and the card's two compatibility flags are cached
      * again from that. */
    method ChangedDevicesDuplexMode(connectorMapping: ConnectorMapping, index: int, driverChanges: bool)
      requires Valid()
      modifies cards
      ensures !(0 <= index < |cards|) ==> forall c :: c in cards ==> unchanged(c)
      ensures 0 <= index < |cards| ==>
        (forall c :: c in cards ==> SameCardData(c) && c.usedInputDevices == 0 && c.usedOutputDevices == 0)
        && (forall j :: 0 <= j < |cards| && j != index ==>
              cards[j].isKeyingCompatible == old(cards[j].isKeyingCompatible)
              && cards[j].isLinkModeCompatible == old(cards[j].isLinkModeCompatible))
        && var changed := connectorMapping in cards[index].compatibleConnectorMappings && driverChanges;
        var count := |cards[index].compatibleConnectorMappings|;
        cards[index].isLinkModeCompatible == LinkModeCompatibility(changed, count, devicesConnectorMapping[index])
        && cards[index].isKeyingCompatible == KeyingModeCompatibility(changed, count, devicesConnectorMapping[index])
    {
      if !(0 <= index < |cards|) {
        return;
      }
      var k := 0;
      while k < |cards|
        invariant 0 <= k <= |cards|
        invariant forall c :: c in cards ==> SameCardData(c)
        invariant forall j :: 0 <= j < |cards| ==>
          cards[j].isKeyingCompatible == old(cards[j].isKeyingCompatible)
          && cards[j].isLinkModeCompatible == old(cards[j].isLinkModeCompatible)
        invariant forall j :: 0 <= j < k ==> cards[j].usedInputDevices == 0 && cards[j].usedOutputDevices == 0
      {
        cards[k].usedInputDevices := 0;
        cards[k].usedOutputDevices := 0;
        k := k + 1;
      }
      var changed := false;
      var listed := connectorMapping in cards[index].compatibleConnectorMappings;
      if listed {
        changed := driverChanges;
      }
      CacheLinkModeCompabilities(index, changed);
      CacheKeyingModeCompabilities(index, changed);
    }

    /** The nested foreach of the two card lookups: the position of the first card that
      * lists the device, or the number of cards. */
    method FindListingCard(name: string) returns (k: int)
      ensures k == FirstListing(cards, name)
    {
      k := 0;
      while k < |cards|
        invariant 0 <= k <= |cards|
        invariant forall j :: 0 <= j < k ==> name !in cards[j].availableLogicalDevices
      {
        var listed := FindLogicalDevice(cards[k].availableLogicalDevices, name);
        if listed {
          return;
        }
        k := k + 1;
      }
    }

    /** GetOffsetFromDeviceIndex: 0 for a negative position or one past the end of the
      * type's name list; otherwise the free devices of that type on every card before
      * the first card that lists the device. */
    method GetOffsetFromDeviceIndex(deviceIndex: int, deviceType: DeviceType) returns (offset: int)
      ensures !(0 <= deviceIndex < |Names(deviceType)|) ==> offset == 0
      ensures 0 <= deviceIndex < |Names(deviceType)| ==>
        offset == FreeBefore(cards, Names(deviceType)[deviceIndex], deviceType)
    {
      if deviceIndex < 0 {
        return 0;
      }
      if deviceType == Input && deviceIndex >= |inputDeviceNames| {
        return 0;
      }
      if deviceType == Output && deviceIndex >= |outputDeviceNames| {
        return 0;
      }
      var deviceName := if deviceType == Input then inputDeviceNames[deviceIndex] else outputDeviceNames[deviceIndex];
      offset := 0;
      var k := 0;
      while k < |cards|
        invariant 0 <= k <= |cards|
        invariant forall j :: 0 <= j < k ==> deviceName !in cards[j].availableLogicalDevices
        invariant offset == FreeSum(cards[..k], deviceType)
      {
        if deviceName in cards[k].availableLogicalDevices {
          break;
        }
        assert cards[..k + 1][..k] == cards[..k];
        offset := offset + cards[k].Free(deviceType);
        k := k + 1;
      }
      assert k == FirstListing(cards, deviceName);
    }

    /** IsKeyingAndLinkModeSupported as written: -1 and positions past the end of the
      * output names give (false, false), but the guard lets the position equal to the
      * number of names through, as it does every position below -1, and reading the
      * name there throws. */
    method IsKeyingAndLinkModeSupportedAsWritten(logicalDeviceIndex: int) returns (r: Result<(bool, bool)>)
      ensures logicalDeviceIndex == -1 || logicalDeviceIndex > |outputDeviceNames| ==> r == Success((false, false))
      ensures logicalDeviceIndex < -1 || logicalDeviceIndex == |outputDeviceNames| ==> r == Failure(ArgumentOutOfRange)
      ensures 0 <= logicalDeviceIndex < |outputDeviceNames| ==>
        r == Success(CardSupport(cards, outputDeviceNames[logicalDeviceIndex]))
    {
      if logicalDeviceIndex == -1 || logicalDeviceIndex > |outputDeviceNames| {
        return Success((false, false));
      }
      if !(0 <= logicalDeviceIndex < |outputDeviceNames|) {
        return Failure(ArgumentOutOfRange);
      }
      var support := SupportOfListingCard(outputDeviceNames[logicalDeviceIndex]);
      return Success(support);
    }

    /** IsKeyingAndLinkModeSupported with the guard GetDeckLinkCardFromLogicalDevice
      * uses: every position from -1 up gives an answer, and one that names no output
      * device gives (false, false). */
    method IsKeyingAndLinkModeSupported(logicalDeviceIndex: int) returns (r: Result<(bool, bool)>)
      ensures r.Failure? <==> logicalDeviceIndex < -1
      ensures r.Failure? ==> r.error == ArgumentOutOfRange
      ensures logicalDeviceIndex == -1 || logicalDeviceIndex >= |outputDeviceNames| ==> r == Success((false, false))
      ensures 0 <= logicalDeviceIndex < |outputDeviceNames| ==>
        r == Success(CardSupport(cards, outputDeviceNames[logicalDeviceIndex]))
    {
      if logicalDeviceIndex == -1 || logicalDeviceIndex >= |outputDeviceNames| {
        return Success((false, false));
      }
      if logicalDeviceIndex < 0 {
        return Failure(ArgumentOutOfRange);
      }
      var support := SupportOfListingCard(outputDeviceNames[logicalDeviceIndex]);
      return Success(support);
    }

    /** The keying and link flags of the first card that lists the device. */
    method SupportOfListingCard(name: string) returns (support: (bool, bool))
      ensures support == CardSupport(cards, name)
    {
      var k := FindListingCard(name);
      if k < |cards| {
        return (cards[k].isKeyingCompatible, cards[k].isLinkModeCompatible);
      }
      return (false, false);
    }

    /** GetDeckLinkCardFromLogicalDevice: -1 and positions past the last output name
      * give no card; a position below -1 throws reading the name; otherwise the first
      * card that lists the device, or no card when none does. */
    method GetDeckLinkCardFromLogicalDevice(logicalDeviceIndex: int) returns (r: Result<DeckLinkCard?>)
      ensures r.Failure? <==> logicalDeviceIndex < -1
      ensures r.Failure? ==> r.error == ArgumentOutOfRange
      ensures logicalDeviceIndex == -1 || logicalDeviceIndex >= |outputDeviceNames| ==> r == Success(null)
      ensures 0 <= logicalDeviceIndex < |outputDeviceNames| ==>
        var name := outputDeviceNames[logicalDeviceIndex];
        var k := FirstListing(cards, name);
        r == Success(if k < |cards| then cards[k] else null)
        && (r.value != null ==> r.value in cards && name in r.value.availableLogicalDevices)
    {
      if logicalDeviceIndex == -1 || logicalDeviceIndex >= |outputDeviceNames| {
        return Success(null);
      }
      if logicalDeviceIndex < 0 {
        return Failure(ArgumentOutOfRange);
      }
      var k := FindListingCard(outputDeviceNames[logicalDeviceIndex]);
      if k < |cards| {
        return Success(cards[k]);
      }
      return Success(null);
    }
  }

  /** The keying and link flags of the first card that lists the device, or
    * (false, false) when no card does. */
  function CardSupport(cards: seq<DeckLinkCard>, name: string): (support: (bool, bool))
    reads cards
    ensures support.0 ==> exists j :: 0 <= j < |cards| && name in cards[j].availableLogicalDevices && cards[j].isKeyingCompatible
    ensures support.1 ==> exists j :: 0 <= j < |cards| && name in cards[j].availableLogicalDevices && cards[j].isLinkModeCompatible
  {
    var k := FirstListing(cards, name);
    if k < |cards| then (cards[k].isKeyingCompatible, cards[k].isLinkModeCompatible) else (false, false)
  }
}
