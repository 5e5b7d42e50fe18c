/** The device side of DeckLinkManager (DeckLinkManagerDeviceHandle.cs) and the record it
  * keeps per device (VideoDeviceGameObjectData.cs): which logical device (a position in
  * the sorted name list of its type) each input and output device is bound to. Under a
  * half-duplex connector mapping a logical device carries either an input or an output;
  * under full duplex it carries one of each. The device components are BaseDevice
  * objects; the scene objects that hold them are left out. */
module DeviceHandles {
  import opened Wrappers
  import opened ConnectorMappings
  import opened BaseDevices
  import opened VideoDeviceTypes

  /** VideoDeviceGameObjectData: a device, its name, and the logical device it is bound
    * to now and was bound to before. */
  class VideoDeviceGameObjectData {
    var name: string
    /** The DeviceType of the device component, fixed by its kind. */
    const deviceType: DeviceType
    var videoDevice: BaseDevice?
    var currentDeviceIndex: int
    var oldDeviceIndex: int

    /** LoadDevice: the record of a device component starts from the component's
      * selection and old selection. */
    constructor(name: string, deviceType: DeviceType, device: BaseDevice)
      ensures this.name == name && this.deviceType == deviceType && videoDevice == device
      ensures currentDeviceIndex == device.deviceSelection && oldDeviceIndex == device.oldDeviceSelection
    {
      this.name := name;
      this.deviceType := deviceType;
      videoDevice := device;
      currentDeviceIndex := device.deviceSelection;
      oldDeviceIndex := device.oldDeviceSelection;
    }

    /** The record and its device agree on the current and the old index. */
    predicate Agrees()
      reads this, videoDevice
    {
      videoDevice != null
      && videoDevice.deviceSelection == currentDeviceIndex && videoDevice.oldDeviceSelection == oldDeviceIndex
    }

    /** SetCurrentVideoDevice: the record takes both indices and mirrors them into the
      * device, the old selection first and then the selection, whose setter asks for a
      * life-cycle update (and a reinitialisation of an initialized device) when the
      * selection changes. Callers that leave out the old index pass -1. */
    method SetCurrentVideoDevice(index: int, oldIndex: int)
      requires videoDevice != null
      modifies this`currentDeviceIndex, this`oldDeviceIndex
      modifies videoDevice`oldDeviceSelection, videoDevice`deviceSelection
      modifies videoDevice`requiresReinit, videoDevice`lifeCycleNeedsUpdate
      ensures currentDeviceIndex == index && oldDeviceIndex == oldIndex && Agrees()
      ensures old(videoDevice.deviceSelection) == index ==>
        videoDevice.requiresReinit == old(videoDevice.requiresReinit)
        && videoDevice.lifeCycleNeedsUpdate == old(videoDevice.lifeCycleNeedsUpdate)
      ensures old(videoDevice.deviceSelection) != index ==>
        videoDevice.lifeCycleNeedsUpdate
        && videoDevice.requiresReinit == (old(videoDevice.requiresReinit) || videoDevice.initialized)
    {
      currentDeviceIndex := index;
      oldDeviceIndex := oldIndex;
      videoDevice.oldDeviceSelection := oldIndex;
      videoDevice.SetDeviceSelection(index);
    }

    /** Dispose: the record lets go of its device and of both indices. */
    method Dispose()
      requires videoDevice != null
      modifies this`videoDevice, this`currentDeviceIndex, this`oldDeviceIndex
      ensures videoDevice == null && currentDeviceIndex == -1 && oldDeviceIndex == -1
    {
      videoDevice := null;
      currentDeviceIndex := -1;
      oldDeviceIndex := -1;
    }
  }

  /** IsUniqueIndexDevice: a logical device carries a single device exactly under the
    * half-duplex mappings. */
  function IsUniqueIndexDevice(connectorMapping: ConnectorMapping): (unique: bool)
    ensures unique <==> IsHalfDuplex(connectorMapping)
    ensures unique ==> SubDeviceCount(connectorMapping) > 0 && !IsFullDuplex(connectorMapping)
  {
    connectorMapping == FourSubDevicesHalfDuplex
    || connectorMapping == OneSubDeviceHalfDuplex
    || connectorMapping == TwoSubDevicesHalfDuplex
  }

  /** List.Find by current index: the position of the first record bound to the index,
    * or the length of the list. */
  function FirstHolding(records: seq<VideoDeviceGameObjectData>, index: int): (k: int)
    reads records
    ensures 0 <= k <= |records|
    ensures forall j :: 0 <= j < k ==> records[j].currentDeviceIndex != index
    ensures k < |records| ==> records[k].currentDeviceIndex == index
    decreases |records|
  {
    if records == [] then 0
    else if records[0].currentDeviceIndex == index then 0
    else 1 + FirstHolding(records[1..], index)
  }

  /** List.Find by name. */
  function FirstNamed(records: seq<VideoDeviceGameObjectData>, name: string): (k: int)
    reads records
    ensures 0 <= k <= |records|
    ensures forall j :: 0 <= j < k ==> records[j].name != name
    ensures k < |records| ==> records[k].name == name
    decreases |records|
  {
    if records == [] then 0
    else if records[0].name == name then 0
    else 1 + FirstNamed(records[1..], name)
  }

  /** List.Find by old index. */
  function FirstWithOld(records: seq<VideoDeviceGameObjectData>, oldIndex: int): (k: int)
    reads records
    ensures 0 <= k <= |records|
    ensures forall j :: 0 <= j < k ==> records[j].oldDeviceIndex != oldIndex
    ensures k < |records| ==> records[k].oldDeviceIndex == oldIndex
    decreases |records|
  {
    if records == [] then 0
    else if records[0].oldDeviceIndex == oldIndex then 0
    else 1 + FirstWithOld(records[1..], oldIndex)
  }

  /** List.IndexOf: the first position of the name, or -1. */
  function IndexOf(names: seq<string>, name: string): (i: int)
    ensures -1 <= i < |names|
    ensures i == -1 <==> name !in names
    ensures i >= 0 ==> names[i] == name && name !in names[..i]
    decreases |names|
  {
    if names == [] then -1
    else if names[0] == name then 0
    else
      var i := IndexOf(names[1..], name);
      if i == -1 then -1
      else
        assert names[..i + 1] == [names[0]] + names[1..][..i];
        i + 1
  }

  /** The first holder of an index in two lists read one after the other: the first
    * holder in the first list, or else in the second. */
  lemma {:induction false} FirstHoldingConcat(a: seq<VideoDeviceGameObjectData>, b: seq<VideoDeviceGameObjectData>, index: int)
    ensures FirstHolding(a + b, index)
      == if FirstHolding(a, index) < |a| then FirstHolding(a, index) else |a| + FirstHolding(b, index)
    decreases |a|
  {
    if a == [] {
      assert a + b == b;
    } else {
      FirstHoldingConcat(a[1..], b, index);
      assert (a + b)[1..] == a[1..] + b;
    }
  }

  /** The current indices of a list of records. */
  function Currents(records: seq<VideoDeviceGameObjectData>): (s: seq<int>)
    reads records
    ensures |s| == |records|
  {
    seq(|records|, k reads records requires 0 <= k < |records| => records[k].currentDeviceIndex)
  }

  /** The k-th current index is that of the k-th record. */
  lemma CurrentsAt(records: seq<VideoDeviceGameObjectData>, k: int)
    requires 0 <= k < |records|
    ensures Currents(records)[k] == records[k].currentDeviceIndex
  {
  }

  /** The old indices of a list of records. */
  function Olds(records: seq<VideoDeviceGameObjectData>): (s: seq<int>)
    reads records
    ensures |s| == |records|
  {
    seq(|records|, k reads records requires 0 <= k < |records| => records[k].oldDeviceIndex)
  }

  /** The indices after a rebinding: position u, when there is one, cleared to -1,
    * then position p set to v; every other position kept. */
  function Rebound(c: seq<int>, u: int, p: int, v: int): (d: seq<int>)
    requires 0 <= p < |c| && 0 <= u <= |c|
    ensures |d| == |c| && d[p] == v && (u < |c| && u != p ==> d[u] == -1)
    ensures forall j :: 0 <= j < |c| && j != p && j != u ==> d[j] == c[j]
  {
    (if u < |c| then c[u := -1] else c)[p := v]
  }

  /** FirstHolding, read on the current indices of the records. */
  lemma FirstHoldingCurrents(records: seq<VideoDeviceGameObjectData>, index: int)
    ensures var u := FirstHolding(records, index);
      (forall j :: 0 <= j < u ==> Currents(records)[j] != index)
      && (u < |records| ==> Currents(records)[u] == index)
  {
  }

  /** No element occurs twice. */
  predicate Distinct<T(==)>(s: seq<T>)
  {
    forall i, j :: 0 <= i < j < |s| ==> s[i] != s[j]
  }

  /** The two parts of a list without repetition have none and share nothing. */
  lemma DistinctParts<T>(a: seq<T>, b: seq<T>)
    requires Distinct(a + b)
    ensures Distinct(a) && Distinct(b) && forall x :: x in a ==> x !in b
  {
    forall i, j | 0 <= i < |a| && 0 <= j < |b|
      ensures a[i] != b[j]
    {
      assert (a + b)[i] == a[i] && (a + b)[|a| + j] == b[j];
    }
    forall i, j | 0 <= i < j < |a|
      ensures a[i] != a[j]
    {
      assert (a + b)[i] == a[i] && (a + b)[j] == a[j];
    }
    forall i, j | 0 <= i < j < |b|
      ensures b[i] != b[j]
    {
      assert (a + b)[|a| + i] == b[i] && (a + b)[|a| + j] == b[j];
    }
  }

  /** A new element can join a list without repetition anywhere. */
  lemma DistinctInsert<T>(a: seq<T>, b: seq<T>, x: T)
    requires Distinct(a + b) && x !in a + b
    ensures Distinct(a + [x] + b)
  {
    var c, d := a + b, a + [x] + b;
    forall i, j | 0 <= i < j < |d|
      ensures d[i] != d[j]
    {
      if i == |a| {
        assert d[j] == c[j - 1];
      } else if j == |a| {
        assert d[i] == c[i];
      } else {
        var i', j' := if i < |a| then i else i - 1, if j < |a| then j else j - 1;
        assert d[i] == c[i'] && d[j] == c[j'];
      }
    }
  }

  /** An element leaves a list without repetition entirely, and the rest keeps none. */
  lemma DistinctRemove<T>(s: seq<T>, p: int)
    requires Distinct(s) && 0 <= p < |s|
    ensures s[p] !in s[..p] + s[p + 1..] && Distinct(s[..p] + s[p + 1..])
  {
    var d := s[..p] + s[p + 1..];
    forall i | 0 <= i < |d|
      ensures d[i] != s[p]
    {
      assert d[i] == s[if i < p then i else i + 1];
    }
    forall i, j | 0 <= i < j < |d|
      ensures d[i] != d[j]
    {
      assert d[i] == s[if i < p then i else i + 1] && d[j] == s[if j < p then j else j + 1];
    }
  }

  /** The current indices of two lists read one after the other. */
  lemma CurrentsConcat(a: seq<VideoDeviceGameObjectData>, b: seq<VideoDeviceGameObjectData>)
    ensures Currents(a + b) == Currents(a) + Currents(b)
  {
    var c := Currents(a + b);
    forall k | 0 <= k < |c|
      ensures c[k] == (Currents(a) + Currents(b))[k]
    {
      if k < |a| {
        CurrentsAt(a, k);
      } else {
        CurrentsAt(b, k - |a|);
      }
      CurrentsAt(a + b, k);
    }
  }

  /** The current indices of a list with one record left out. */
  lemma CurrentsRemove(s: seq<VideoDeviceGameObjectData>, p: int)
    requires 0 <= p < |s|
    ensures Currents(s[..p] + s[p + 1..]) == Currents(s)[..p] + Currents(s)[p + 1..]
  {
    CurrentsConcat(s[..p], s[p + 1..]);
    CurrentsConcat(s[..p], s[p..]);
    assert s[..p] + s[p..] == s;
    assert s[p..][1..] == s[p + 1..];
  }

  /** No logical device is held twice. */
  predicate Exclusive(indices: seq<int>)
  {
    forall i, j :: 0 <= i < j < |indices| && indices[i] >= 0 ==> indices[i] != indices[j]
  }

  /** Rebinding, as ChangeVideoDeviceNameData does it: the first holder of the index
    * is unbound and one record takes the index; no logical device becomes held twice. */
  lemma RebindKeepsExclusive(c: seq<int>, u: int, p: int, index: int)
    requires Exclusive(c) && 0 <= p < |c| && 0 <= u <= |c|
    requires forall j :: 0 <= j < u ==> c[j] != index
    requires u < |c| ==> c[u] == index
    ensures Exclusive((if u < |c| then c[u := -1] else c)[p := index])
  {
    var d := (if u < |c| then c[u := -1] else c)[p := index];
    forall i, j | 0 <= i < j < |d| && d[i] >= 0
      ensures d[i] != d[j]
    {
      if i != p && j != p {
        assert d[i] == c[i] && d[j] == (if j == u then -1 else c[j]);
      } else {
        var k := if i == p then j else i;
        assert d[k] == (if k == u then -1 else c[k]);
      }
    }
  }

  /** A record bound to no logical device can join a list anywhere. */
  lemma ExclusiveInsertUnbound(a: seq<int>, b: seq<int>, x: int)
    requires Exclusive(a + b) && x < 0
    ensures Exclusive(a + [x] + b)
  {
    var c, d := a + b, a + [x] + b;
    forall i, j | 0 <= i < j < |d| && d[i] >= 0
      ensures d[i] != d[j]
    {
      if j != |a| {
        var i', j' := if i < |a| then i else i - 1, if j < |a| then j else j - 1;
        assert d[i] == c[i'] && d[j] == c[j'];
      }
    }
  }

  /** A record can leave a list. */
  lemma ExclusiveRemove(c: seq<int>, p: int)
    requires Exclusive(c) && 0 <= p < |c|
    ensures Exclusive(c[..p] + c[p + 1..])
  {
    var d := c[..p] + c[p + 1..];
    forall i, j | 0 <= i < j < |d| && d[i] >= 0
      ensures d[i] != d[j]
    {
      var i', j' := if i < p then i else i + 1, if j < p then j else j + 1;
      assert d[i] == c[i'] && d[j] == c[j'];
    }
  }

  /** No logical device is held twice by records that may not share it: across both
    * lists under half duplex, within each list under full duplex. */
  predicate BindingsHold(halfDuplex: bool, inputs: seq<int>, outputs: seq<int>)
  {
    if halfDuplex then Exclusive(inputs + outputs) else Exclusive(inputs) && Exclusive(outputs)
  }

  /** A record bound to no logical device can be appended to either list. */
  lemma AddUnboundKeepsBindings(halfDuplex: bool, inputs: seq<int>, outputs: seq<int>, toInputs: bool)
    requires BindingsHold(halfDuplex, inputs, outputs)
    ensures if toInputs then BindingsHold(halfDuplex, inputs + [-1], outputs)
            else BindingsHold(halfDuplex, inputs, outputs + [-1])
  {
    if halfDuplex && toInputs {
      ExclusiveInsertUnbound(inputs, outputs, -1);
    } else if halfDuplex {
      ExclusiveInsertUnbound(inputs + outputs, [], -1);
      assert inputs + outputs + [-1] + [] == inputs + (outputs + [-1]);
    } else if toInputs {
      ExclusiveInsertUnbound(inputs, [], -1);
      assert inputs + [-1] + [] == inputs + [-1];
    } else {
      ExclusiveInsertUnbound(outputs, [], -1);
      assert outputs + [-1] + [] == outputs + [-1];
    }
  }

  /** The indices of the records that may not share a logical device with one of the
    * given type: both lists under half duplex, the list of the type otherwise. */
  function ScopeOf(halfDuplex: bool, inputs: seq<int>, outputs: seq<int>, ofInputs: bool): seq<int>
  {
    if halfDuplex then inputs + outputs else if ofInputs then inputs else outputs
  }

  /** Unbinding the first holder of an index in the scope and binding one record of it
    * to the index keeps the bindings exclusive; the other list, outside the scope under
    * full duplex, is left as it was. */
  lemma RebindKeepsBindings(halfDuplex: bool, inputs: seq<int>, outputs: seq<int>,
                            inputs': seq<int>, outputs': seq<int>, ofInputs: bool, u: int, p: int, index: int)
    requires BindingsHold(halfDuplex, inputs, outputs)
    requires var c := ScopeOf(halfDuplex, inputs, outputs, ofInputs);
      0 <= p < |c| && 0 <= u <= |c|
      && (forall j :: 0 <= j < u ==> c[j] != index) && (u < |c| ==> c[u] == index)
      && ScopeOf(halfDuplex, inputs', outputs', ofInputs) == (if u < |c| then c[u := -1] else c)[p := index]
    requires !halfDuplex ==> if ofInputs then outputs' == outputs else inputs' == inputs
    ensures BindingsHold(halfDuplex, inputs', outputs')
  {
    RebindKeepsExclusive(ScopeOf(halfDuplex, inputs, outputs, ofInputs), u, p, index);
  }

  /** A record can leave either list. */
  lemma RemoveKeepsBindings(halfDuplex: bool, inputs: seq<int>, outputs: seq<int>, fromInputs: bool, p: int)
    requires BindingsHold(halfDuplex, inputs, outputs)
    requires 0 <= p < |if fromInputs then inputs else outputs|
    ensures if fromInputs then BindingsHold(halfDuplex, inputs[..p] + inputs[p + 1..], outputs)
            else BindingsHold(halfDuplex, inputs, outputs[..p] + outputs[p + 1..])
  {
    var all := inputs + outputs;
    if halfDuplex && fromInputs {
      ExclusiveRemove(all, p);
      assert inputs[..p] + inputs[p + 1..] + outputs == all[..p] + all[p + 1..];
    } else if halfDuplex {
      var q := |inputs| + p;
      ExclusiveRemove(all, q);
      assert inputs + (outputs[..p] + outputs[p + 1..]) == all[..q] + all[q + 1..];
    } else if fromInputs {
      ExclusiveRemove(inputs, p);
    } else {
      ExclusiveRemove(outputs, p);
    }
  }

  /** The device-side fields of DeckLinkManager. */
  class DeckLinkManager {
    var inputDevices: seq<VideoDeviceGameObjectData>
    var outputDevices: seq<VideoDeviceGameObjectData>
    var inputDeviceNames: seq<string>
    var outputDeviceNames: seq<string>
    var devicesConnectorMapping: seq<ConnectorMapping>
    var deckLinkCardIndex: int
    /** The record that holds each device component; no component is held twice. */
    ghost var owners: map<BaseDevice, VideoDeviceGameObjectData>

    /** Every record of the manager, inputs first. */
    function Records(): seq<VideoDeviceGameObjectData>
      reads this
    {
      inputDevices + outputDevices
    }

    /** GetDevices. */
    function Devices(deviceType: DeviceType): seq<VideoDeviceGameObjectData>
      reads this
    {
      if deviceType == Input then inputDevices else outputDevices
    }

    /** GetDeviceNames. */
    function DeviceNames(deviceType: DeviceType): seq<string>
      reads this
    {
      if deviceType == Input then inputDeviceNames else outputDeviceNames
    }

    /** The device components of the records. */
    function DeviceObjects(): set<BaseDevice?>
      reads this, inputDevices`videoDevice, outputDevices`videoDevice
    {
      set r | r in inputDevices + outputDevices :: r.videoDevice
    }

    /** The selected card has a connector mapping; each list holds records of its own
      * type; every record has its own device component. */
    ghost predicate Valid()
      reads this, inputDevices`videoDevice, outputDevices`videoDevice
    {
      0 <= deckLinkCardIndex < |devicesConnectorMapping|
      && (forall r :: r in inputDevices ==> r.deviceType == Input)
      && (forall r :: r in outputDevices ==> r.deviceType == Output)
      && (forall r :: r in inputDevices + outputDevices ==>
            r.videoDevice != null && r.videoDevice in owners && owners[r.videoDevice] == r)
      && Distinct(inputDevices + outputDevices)
    }

    /** The connector mapping of the selected card. */
    function Mapping(): ConnectorMapping
      requires 0 <= deckLinkCardIndex < |devicesConnectorMapping|
      reads this
    {
      devicesConnectorMapping[deckLinkCardIndex]
    }

    /** The records that may not share a logical device with one of the given type:
      * all of them under half duplex, those of the same type under full duplex. */
    function Scope(deviceType: DeviceType): seq<VideoDeviceGameObjectData>
      requires 0 <= deckLinkCardIndex < |devicesConnectorMapping|
      reads this
    {
      if IsUniqueIndexDevice(Mapping()) then inputDevices + outputDevices else Devices(deviceType)
    }

    /** No logical device is held by two records that may not share it. */
    predicate BindingsExclusive()
      requires 0 <= deckLinkCardIndex < |devicesConnectorMapping|
      reads this, inputDevices, outputDevices
    {
      BindingsHold(IsUniqueIndexDevice(Mapping()), Currents(inputDevices), Currents(outputDevices))
    }

    /** GetExistingVideoDevice: the first record of the type with the name, if any. */
    function GetExistingVideoDevice(deviceName: string, deviceType: DeviceType): (found: Option<VideoDeviceGameObjectData>)
      reads this, Devices(deviceType)
      ensures found.Some? <==> exists r :: r in Devices(deviceType) && r.name == deviceName
      ensures found.Some? ==> found.value in Devices(deviceType) && found.value.name == deviceName
    {
      var k := FirstNamed(Devices(deviceType), deviceName);
      if k < |Devices(deviceType)| then Some(Devices(deviceType)[k]) else None
    }

    /** Whether the first record bound to the index in a list runs in the editor. */
    predicate Running(records: seq<VideoDeviceGameObjectData>, index: int)
      requires forall r :: r in records ==> r.videoDevice != null
      reads records, set r | r in records :: r.videoDevice
    {
      var k := FirstHolding(records, index);
      k < |records| && records[k].videoDevice.UpdateInEditor()
    }

    /** The record whose device StopTheVideoDeviceIfInUse stops. It is bound to the
      * index and runs in the editor; under half duplex a running input holder wins over
      * an output holder, under full duplex only a holder of the same type is
      * considered; no record is stopped when the holders looked at do not run. */
    function StopTarget(index: int, deviceType: DeviceType): (target: Option<VideoDeviceGameObjectData>)
      requires Valid()
      reads this, inputDevices, outputDevices, DeviceObjects()
      ensures target.Some? ==>
        target.value in Scope(deviceType) && target.value.currentDeviceIndex == index
        && target.value.videoDevice.UpdateInEditor()
      ensures IsUniqueIndexDevice(Mapping()) && Running(inputDevices, index) ==>
        target.Some? && target.value.deviceType == Input
      ensures !IsUniqueIndexDevice(Mapping()) && target.Some? ==> target.value.deviceType == deviceType
      ensures target.None? <==>
        if IsUniqueIndexDevice(Mapping()) then !Running(inputDevices, index) && !Running(outputDevices, index)
        else !Running(Devices(deviceType), index)
    {
      if IsUniqueIndexDevice(Mapping()) then
        if Running(inputDevices, index) then Some(inputDevices[FirstHolding(inputDevices, index)])
        else if Running(outputDevices, index) then Some(outputDevices[FirstHolding(outputDevices, index)])
        else None
      else if Running(Devices(deviceType), index) then Some(Devices(deviceType)[FirstHolding(Devices(deviceType), index)])
      else None
    }

    /** StopTheVideoDeviceIfInUse: turns off UpdateInEditor on the device of the
      * StopTarget record, and on no other; answers whether it stopped one. */
    method StopTheVideoDeviceIfInUse(index: int, deviceType: DeviceType) returns (stopped: bool)
      requires Valid()
      modifies DeviceObjects()
      ensures Valid()
      ensures var target := old(StopTarget(index, deviceType));
        (stopped <==> target.Some?)
        && (target.Some? ==>
              !target.value.videoDevice.updateInEditor && !target.value.videoDevice.graphPlaying
              && target.value.videoDevice.lifeCycleNeedsUpdate)
        && forall r :: r in Records() && (target.None? || r != target.value) ==> unchanged(r.videoDevice)
    {
      if IsUniqueIndexDevice(devicesConnectorMapping[deckLinkCardIndex]) {
        var k := FirstHolding(inputDevices, index);
        if k < |inputDevices| && inputDevices[k].videoDevice.UpdateInEditor() {
          inputDevices[k].videoDevice.SetUpdateInEditor(false);
          return true;
        }
        k := FirstHolding(outputDevices, index);
        if k < |outputDevices| && outputDevices[k].videoDevice.UpdateInEditor() {
          assert outputDevices[k] == Records()[|inputDevices| + k];
          outputDevices[k].videoDevice.SetUpdateInEditor(false);
          return true;
        }
        return false;
      }
      var devices := Devices(deviceType);
      var k := FirstHolding(devices, index);
      if k < |devices| && devices[k].videoDevice.UpdateInEditor() {
        assert devices[k] in Records();
        devices[k].videoDevice.SetUpdateInEditor(false);
        return true;
      }
      return false;
    }

    /** ChangeVideoDeviceNameData: an unknown name changes nothing. Otherwise, among
      * the records that may not share a logical device with the named one, the first
      * bound to the index (under half duplex an input before an output) gets current
      * and old index -1, and the named record gets current = old = index: on the
      * indices of that scope a Rebound at the two positions. Records outside the scope
      * keep their indices, each changed record agrees with its device component, and
      * no logical device becomes held twice. */
    method ChangeVideoDeviceNameData(deviceName: string, deviceType: DeviceType, index: int)
      requires Valid()
      modifies Records()`currentDeviceIndex, Records()`oldDeviceIndex, DeviceObjects()
      ensures Valid()
      ensures forall r :: r in Records() ==>
        r.name == old(r.name) && r.videoDevice == old(r.videoDevice)
      ensures old(GetExistingVideoDevice(deviceName, deviceType)).None? ==>
        forall r :: r in Records() ==> unchanged(r) && unchanged(r.videoDevice)
      ensures old(GetExistingVideoDevice(deviceName, deviceType)).Some? ==>
        var scope := Scope(deviceType);
        var u := old(FirstHolding(Scope(deviceType), index));
        var p := old(NamedPosition(deviceName, deviceType));
        0 <= p < |scope| && scope[p] == old(GetExistingVideoDevice(deviceName, deviceType)).value
        && Currents(scope) == Rebound(old(Currents(Scope(deviceType))), u, p, index)
        && Olds(scope) == Rebound(old(Olds(Scope(deviceType))), u, p, index)
        && scope[p].Agrees() && (u < |scope| ==> scope[u].Agrees())
      ensures !IsUniqueIndexDevice(Mapping()) ==>
        Currents(Devices(deviceType.Opposite())) == old(Currents(Devices(deviceType.Opposite())))
        && Olds(Devices(deviceType.Opposite())) == old(Olds(Devices(deviceType.Opposite())))
      ensures old(BindingsExclusive()) ==> BindingsExclusive()
    {
      var devices := Devices(deviceType);
      var k := FirstNamed(devices, deviceName);
      if k == |devices| {
        return;
      }
      var p := NamedPosition(deviceName, deviceType);
      var u := HolderPosition(index, deviceType);
      RebindHolder(deviceType, u, p, index);
    }

    /** Rebind for the first holder u of the index in the scope, which keeps the
      * bindings exclusive. */
    method RebindHolder(deviceType: DeviceType, u: int, p: int, index: int)
      requires Valid() && 0 <= p < |Scope(deviceType)| && u == FirstHolding(Scope(deviceType), index)
      modifies Records()`currentDeviceIndex, Records()`oldDeviceIndex, DeviceObjects()
      ensures Valid()
      ensures var scope := Scope(deviceType);
        Currents(scope) == Rebound(old(Currents(Scope(deviceType))), u, p, index)
        && Olds(scope) == Rebound(old(Olds(Scope(deviceType))), u, p, index)
        && scope[p].Agrees() && (u < |scope| ==> scope[u].Agrees())
      ensures !IsUniqueIndexDevice(Mapping()) ==>
        Currents(Devices(deviceType.Opposite())) == old(Currents(Devices(deviceType.Opposite())))
        && Olds(Devices(deviceType.Opposite())) == old(Olds(Devices(deviceType.Opposite())))
      ensures old(BindingsExclusive()) ==> BindingsExclusive()
    {
      ghost var before := Currents(Scope(deviceType));
      ghost var exclusive := BindingsExclusive();
      BindingsInScope(deviceType);
      FirstHoldingCurrents(Scope(deviceType), index);
      Rebind(deviceType, u, p, index);
      BindingsInScope(deviceType);
      if exclusive {
        RebindKeepsExclusive(before, u, p, index);
      }
    }

    /** The two updates of ChangeVideoDeviceNameData, for the first holder u of the
      * index in the scope and the named record p. */
    method Rebind(deviceType: DeviceType, u: int, p: int, index: int)
      requires Valid() && 0 <= p < |Scope(deviceType)| && 0 <= u <= |Scope(deviceType)|
      modifies Records()`currentDeviceIndex, Records()`oldDeviceIndex, DeviceObjects()
      ensures Valid()
      ensures var scope := Scope(deviceType);
        Currents(scope) == Rebound(old(Currents(Scope(deviceType))), u, p, index)
        && Olds(scope) == Rebound(old(Olds(Scope(deviceType))), u, p, index)
        && scope[p].Agrees() && (u < |scope| ==> scope[u].Agrees())
      ensures !IsUniqueIndexDevice(Mapping()) ==>
        Currents(Devices(deviceType.Opposite())) == old(Currents(Devices(deviceType.Opposite())))
        && Olds(Devices(deviceType.Opposite())) == old(Olds(Devices(deviceType.Opposite())))
    {
      var scope := Scope(deviceType);
      DistinctParts(inputDevices, outputDevices);
      if u < |scope| {
        assert scope[u] in inputDevices + outputDevices;
        SetCurrentAt(deviceType, u, -1, -1);
        if u != p {
          assert scope[u] != scope[p];
          assert scope[u].videoDevice != scope[p].videoDevice;
        }
      }
      assert scope[p] in inputDevices + outputDevices;
      SetCurrentAt(deviceType, p, index, index);
    }

    /** The position in Scope of the first record of the type with the name: past the
      * inputs for an output under half duplex. */
    function NamedPosition(deviceName: string, deviceType: DeviceType): (p: int)
      requires 0 <= deckLinkCardIndex < |devicesConnectorMapping|
      reads this, inputDevices, outputDevices
      ensures GetExistingVideoDevice(deviceName, deviceType).Some? ==>
        0 <= p < |Scope(deviceType)| && Scope(deviceType)[p] == GetExistingVideoDevice(deviceName, deviceType).value
    {
      var k := FirstNamed(Devices(deviceType), deviceName);
      if IsUniqueIndexDevice(Mapping()) && deviceType == Output then |inputDevices| + k else k
    }

    /** BindingsExclusive, seen from the scope of a type: that scope, and under full
      * duplex also the list of the other type. */
    lemma BindingsInScope(deviceType: DeviceType)
      requires 0 <= deckLinkCardIndex < |devicesConnectorMapping|
      ensures BindingsExclusive() <==>
        Exclusive(Currents(Scope(deviceType)))
        && (IsUniqueIndexDevice(Mapping()) || Exclusive(Currents(Devices(deviceType.Opposite()))))
    {
      if IsUniqueIndexDevice(Mapping()) {
        CurrentsConcat(inputDevices, outputDevices);
      }
    }

    /** The position in Scope of the first record bound to the index, found as the
      * source finds it: under half duplex among the inputs first, then among the
      * outputs. */
    function HolderPosition(index: int, deviceType: DeviceType): (u: int)
      requires 0 <= deckLinkCardIndex < |devicesConnectorMapping|
      reads this, inputDevices, outputDevices
      ensures u == FirstHolding(Scope(deviceType), index)
    {
      if IsUniqueIndexDevice(Mapping()) then
        FirstHoldingConcat(inputDevices, outputDevices, index);
        var i := FirstHolding(inputDevices, index);
        if i < |inputDevices| then i else |inputDevices| + FirstHolding(outputDevices, index)
      else FirstHolding(Devices(deviceType), index)
    }

    /** SetCurrentVideoDevice on the record at a position of the scope: on the current
      * and old indices of the scope an update at that position, the record agrees with
      * its device component, and no other record changes. */
    method SetCurrentAt(deviceType: DeviceType, q: int, index: int, oldIndex: int)
      requires Valid() && 0 <= q < |Scope(deviceType)|
      modifies {Scope(deviceType)[q]}`currentDeviceIndex, {Scope(deviceType)[q]}`oldDeviceIndex
      modifies Scope(deviceType)[q].videoDevice
      ensures Valid() && Scope(deviceType)[q].Agrees()
      ensures Currents(Scope(deviceType)) == old(Currents(Scope(deviceType)))[q := index]
      ensures Olds(Scope(deviceType)) == old(Olds(Scope(deviceType)))[q := oldIndex]
      ensures !IsUniqueIndexDevice(Mapping()) ==>
        Currents(Devices(deviceType.Opposite())) == old(Currents(Devices(deviceType.Opposite())))
        && Olds(Devices(deviceType.Opposite())) == old(Olds(Devices(deviceType.Opposite())))
    {
      var scope := Scope(deviceType);
      ghost var other := Devices(deviceType.Opposite());
      ghost var currents, olds := Currents(scope), Olds(scope);
      ghost var otherCurrents, otherOlds := Currents(other), Olds(other);
      DistinctParts(inputDevices, outputDevices);
      assert Distinct(scope);
      scope[q].SetCurrentVideoDevice(index, oldIndex);
      forall j | 0 <= j < |scope|
        ensures Currents(scope)[j] == currents[q := index][j] && Olds(scope)[j] == olds[q := oldIndex][j]
      {
        if j != q {
          assert scope[j] != scope[q];
        }
      }
      if !IsUniqueIndexDevice(Mapping()) {
        forall j | 0 <= j < |other|
          ensures Currents(other)[j] == otherCurrents[j] && Olds(other)[j] == otherOlds[j]
        {
          assert other[j] !in scope;
        }
      }
    }

    /** Names that no two records of a list share. */
    predicate UniqueNames(records: seq<VideoDeviceGameObjectData>)
      reads records
    {
      forall i, j :: 0 <= i < j < |records| ==> records[i].name != records[j].name
    }

    /** GetOrCreateDeviceInstance: the existing record of the type with the name, or a
      * new record, with a new device component bound to no logical device, appended to
      * the list of its type; so a name is never listed twice. */
    method GetOrCreateDeviceInstance(deviceName: string, deviceType: DeviceType) returns (data: VideoDeviceGameObjectData)
      requires Valid() && deviceName != ""
      modifies this`inputDevices, this`outputDevices, this`owners
      ensures Valid()
      ensures data in Devices(deviceType) && data.name == deviceName
      ensures old(GetExistingVideoDevice(deviceName, deviceType)).Some? ==>
        data == old(GetExistingVideoDevice(deviceName, deviceType)).value
        && inputDevices == old(inputDevices) && outputDevices == old(outputDevices)
      ensures old(GetExistingVideoDevice(deviceName, deviceType)).None? ==>
        fresh(data) && fresh(data.videoDevice)
        && Devices(deviceType) == old(Devices(deviceType)) + [data]
        && Devices(deviceType.Opposite()) == old(Devices(deviceType.Opposite()))
        && data.deviceType == deviceType && data.currentDeviceIndex == -1 && data.oldDeviceIndex == -1 && data.Agrees()
      ensures UniqueNames(old(Devices(deviceType))) ==> UniqueNames(Devices(deviceType))
      ensures old(BindingsExclusive()) ==> BindingsExclusive()
    {
      var existing := GetExistingVideoDevice(deviceName, deviceType);
      if existing.Some? {
        return existing.value;
      }
      ghost var unique := IsUniqueIndexDevice(Mapping());
      ghost var inputs, outputs := Currents(inputDevices), Currents(outputDevices);
      data := AddDeviceInstance(deviceName, deviceType);
      assert IsUniqueIndexDevice(Mapping()) == unique;
      assert deviceType == Input ==> Currents(inputDevices) == inputs + [-1] && Currents(outputDevices) == outputs;
      assert deviceType == Output ==> Currents(inputDevices) == inputs && Currents(outputDevices) == outputs + [-1];
      if BindingsHold(unique, inputs, outputs) {
        AddUnboundKeepsBindings(unique, inputs, outputs, deviceType == Input);
      }
    }

    /** The new record of GetOrCreateDeviceInstance: a new device component, bound to
      * no logical device, and its record appended to the list of its type. */
    method AddDeviceInstance(deviceName: string, deviceType: DeviceType) returns (data: VideoDeviceGameObjectData)
      requires Valid()
      modifies this`inputDevices, this`outputDevices, this`owners
      ensures Valid()
      ensures fresh(data) && fresh(data.videoDevice) && data.name == deviceName && data.deviceType == deviceType
      ensures data.currentDeviceIndex == -1 && data.oldDeviceIndex == -1 && data.Agrees()
      ensures Devices(deviceType) == old(Devices(deviceType)) + [data]
      ensures Devices(deviceType.Opposite()) == old(Devices(deviceType.Opposite()))
      ensures Currents(Devices(deviceType)) == old(Currents(Devices(deviceType))) + [-1]
      ensures Currents(Devices(deviceType.Opposite())) == old(Currents(Devices(deviceType.Opposite())))
      ensures unchanged(this`devicesConnectorMapping, this`deckLinkCardIndex)
    {
      var device := new BaseDevice();
      data := new VideoDeviceGameObjectData(deviceName, deviceType, device);
      owners := owners[device := data];
      AppendDeviceInstance(data);
    }

    /** Appends a record, bound to no logical device and not listed yet, to the list
      * of its type. */
    method AppendDeviceInstance(data: VideoDeviceGameObjectData)
      requires Valid() && data !in inputDevices + outputDevices
      requires data.videoDevice != null && data.videoDevice in owners && owners[data.videoDevice] == data
      requires data.currentDeviceIndex == -1
      modifies this`inputDevices, this`outputDevices
      ensures Valid()
      ensures Devices(data.deviceType) == old(Devices(data.deviceType)) + [data]
      ensures Devices(data.deviceType.Opposite()) == old(Devices(data.deviceType.Opposite()))
      ensures Currents(Devices(data.deviceType)) == old(Currents(Devices(data.deviceType))) + [-1]
    {
      CurrentsAt([data], 0);
      if data.deviceType == Input {
        var ins := inputDevices;
        DistinctInsert(ins, outputDevices, data);
        CurrentsConcat(ins, [data]);
        inputDevices := ins + [data];
      } else {
        var outs := outputDevices;
        DistinctInsert(inputDevices + outs, [], data);
        assert inputDevices + outs + [data] + [] == inputDevices + (outs + [data]);
        CurrentsConcat(outs, [data]);
        outputDevices := outs + [data];
      }
    }

    /** RemoveDeviceInstance: the record at the position is disposed and leaves the list
      * of its type; its name is returned. The source's assertion also admits the
      * position equal to the length of the list, where reading the record throws. */
    method RemoveDeviceInstance(deviceIndex: int, deviceType: DeviceType) returns (deviceName: string)
      requires Valid() && 0 <= deviceIndex < |Devices(deviceType)|
      modifies this`inputDevices, this`outputDevices, Devices(deviceType)[deviceIndex]
      ensures Valid()
      ensures var removed := old(Devices(deviceType)[deviceIndex]);
        deviceName == old(removed.name)
        && removed.videoDevice == null && removed.currentDeviceIndex == -1 && removed.oldDeviceIndex == -1
        && Devices(deviceType) == old(Devices(deviceType)[..deviceIndex] + Devices(deviceType)[deviceIndex + 1..])
        && Devices(deviceType.Opposite()) == old(Devices(deviceType.Opposite()))
      ensures old(BindingsExclusive()) ==> BindingsExclusive()
    {
      ghost var unique := IsUniqueIndexDevice(Mapping());
      ghost var inputs, outputs := Currents(inputDevices), Currents(outputDevices);
      deviceName := DropDeviceInstance(deviceIndex, deviceType);
      assert IsUniqueIndexDevice(Mapping()) == unique;
      assert deviceType == Input ==>
        Currents(inputDevices) == inputs[..deviceIndex] + inputs[deviceIndex + 1..] && Currents(outputDevices) == outputs;
      assert deviceType == Output ==>
        Currents(inputDevices) == inputs && Currents(outputDevices) == outputs[..deviceIndex] + outputs[deviceIndex + 1..];
      if BindingsHold(unique, inputs, outputs) {
        RemoveKeepsBindings(unique, inputs, outputs, deviceType == Input, deviceIndex);
      }
    }

    /** The removal step of RemoveDeviceInstance: the record is disposed and leaves the
      * list of its type, and every other record keeps its current index. */
    method DropDeviceInstance(deviceIndex: int, deviceType: DeviceType) returns (deviceName: string)
      requires Valid() && 0 <= deviceIndex < |Devices(deviceType)|
      modifies this`inputDevices, this`outputDevices, Devices(deviceType)[deviceIndex]
      ensures Valid()
      ensures var removed := old(Devices(deviceType)[deviceIndex]);
        deviceName == old(removed.name)
        && removed.videoDevice == null && removed.currentDeviceIndex == -1 && removed.oldDeviceIndex == -1
        && Devices(deviceType) == old(Devices(deviceType)[..deviceIndex] + Devices(deviceType)[deviceIndex + 1..])
        && Devices(deviceType.Opposite()) == old(Devices(deviceType.Opposite()))
      ensures Currents(Devices(deviceType))
        == old(Currents(Devices(deviceType))[..deviceIndex] + Currents(Devices(deviceType))[deviceIndex + 1..])
      ensures Currents(Devices(deviceType.Opposite())) == old(Currents(Devices(deviceType.Opposite())))
      ensures unchanged(this`devicesConnectorMapping, this`deckLinkCardIndex)
    {
      var existing := Devices(deviceType)[deviceIndex];
      deviceName := existing.name;
      DetachDeviceInstance(deviceIndex, deviceType);
      existing.Dispose();
    }

    /** Takes the record at the position out of the list of its type, which keeps
      * Valid; no record changes. */
    method DetachDeviceInstance(deviceIndex: int, deviceType: DeviceType)
      requires Valid() && 0 <= deviceIndex < |Devices(deviceType)|
      modifies this`inputDevices, this`outputDevices
      ensures Valid()
      ensures old(Devices(deviceType)[deviceIndex]) !in inputDevices + outputDevices
      ensures Devices(deviceType) == old(Devices(deviceType)[..deviceIndex] + Devices(deviceType)[deviceIndex + 1..])
      ensures Devices(deviceType.Opposite()) == old(Devices(deviceType.Opposite()))
      ensures Currents(Devices(deviceType))
        == old(Currents(Devices(deviceType))[..deviceIndex] + Currents(Devices(deviceType))[deviceIndex + 1..])
    {
      DistinctParts(inputDevices, outputDevices);
      var devices := Devices(deviceType);
      var rest := devices[..deviceIndex] + devices[deviceIndex + 1..];
      ghost var all := inputDevices + outputDevices;
      ghost var p := if deviceType == Input then deviceIndex else |inputDevices| + deviceIndex;
      assert all[p] == devices[deviceIndex];
      DistinctRemove(all, p);
      CurrentsRemove(devices, deviceIndex);
      if deviceType == Input {
        inputDevices := rest;
      } else {
        outputDevices := rest;
      }
      assert inputDevices + outputDevices == all[..p] + all[p + 1..];
    }

    /** IsDeviceAlreadyUsed: on a card after the first, under half duplex, whether a
      * record of the opposite type is bound to the device's selection. */
    function AlreadyUsed(data: VideoDeviceGameObjectData): (used: bool)
      requires Valid() && data.videoDevice != null
      reads this, inputDevices, outputDevices, data, data.videoDevice
      ensures used <==>
        deckLinkCardIndex > 0 && IsHalfDuplex(Mapping())
        && exists r :: r in Devices(data.deviceType.Opposite()) && r.currentDeviceIndex == data.videoDevice.deviceSelection
    {
      var opposite := Devices(data.deviceType.Opposite());
      deckLinkCardIndex > 0 && IsUniqueIndexDevice(Mapping())
      && FirstHolding(opposite, data.videoDevice.deviceSelection) < |opposite|
    }

    /** IsDeviceAlreadyUsed: a device whose selection is already used, as AlreadyUsed
      * says, is unbound (current -1, the device's old selection kept); any other is
      * left alone. */
    method IsDeviceAlreadyUsed(data: VideoDeviceGameObjectData) returns (used: bool)
      requires Valid() && data.videoDevice != null
      modifies data`currentDeviceIndex, data`oldDeviceIndex
      modifies data.videoDevice`oldDeviceSelection, data.videoDevice`deviceSelection
      modifies data.videoDevice`requiresReinit, data.videoDevice`lifeCycleNeedsUpdate
      ensures used == old(AlreadyUsed(data))
      ensures used ==>
        data.currentDeviceIndex == -1 && data.oldDeviceIndex == old(data.videoDevice.oldDeviceSelection) && data.Agrees()
      ensures !used ==> unchanged(data) && unchanged(data.videoDevice)
    {
      if deckLinkCardIndex > 0 && IsUniqueIndexDevice(devicesConnectorMapping[deckLinkCardIndex]) {
        var opposite := if data.deviceType == Input then outputDevices else inputDevices;
        if FirstHolding(opposite, data.videoDevice.deviceSelection) < |opposite| {
          data.SetCurrentVideoDevice(-1, data.videoDevice.oldDeviceSelection);
          return true;
        }
      }
      return false;
    }

    /** UpdateDeviceIndex: a restored device keeps its selection as its current index
      * when the selection is not already used and names a logical device of its type;
      * otherwise it is unbound, current -1, with the device's old selection kept. */
    method UpdateDeviceIndex(data: VideoDeviceGameObjectData)
      requires Valid() && data.videoDevice != null
      modifies data`currentDeviceIndex, data`oldDeviceIndex
      modifies data.videoDevice`oldDeviceSelection, data.videoDevice`deviceSelection
      modifies data.videoDevice`requiresReinit, data.videoDevice`lifeCycleNeedsUpdate
      ensures Valid()
      ensures var selection := old(data.videoDevice.deviceSelection);
        if !old(AlreadyUsed(data)) && 0 <= selection < |DeviceNames(data.deviceType)| then
          data.currentDeviceIndex == selection && data.oldDeviceIndex == old(data.oldDeviceIndex)
          && unchanged(data.videoDevice)
        else
          data.currentDeviceIndex == -1 && data.oldDeviceIndex == old(data.videoDevice.oldDeviceSelection)
          && data.Agrees()
    {
      var used := IsDeviceAlreadyUsed(data);
      if used {
        return;
      }
      var videoDeviceIndex := data.videoDevice.deviceSelection;
      if videoDeviceIndex < 0 {
        data.SetCurrentVideoDevice(-1, data.videoDevice.oldDeviceSelection);
        return;
      }
      if videoDeviceIndex < |DeviceNames(data.deviceType)| {
        data.currentDeviceIndex := videoDeviceIndex;
        return;
      }
      data.SetCurrentVideoDevice(-1, data.videoDevice.oldDeviceSelection);
    }

    /** TryToAssociateOldVideoDeviceIndex: the first record of the type whose old index
      * is the name's position in the name list (-1 for a name not listed) is bound
      * there again, current = old = that position; every other record is left alone. */
    method TryToAssociateOldVideoDeviceIndex(deviceName: string, deviceType: DeviceType)
      requires Valid() && deviceName != ""
      modifies Devices(deviceType), DeviceObjects()
      ensures Valid()
      ensures forall r :: r in Records() ==>
        r.name == old(r.name) && r.videoDevice == old(r.videoDevice)
      ensures var index := IndexOf(DeviceNames(deviceType), deviceName);
        var devices := Devices(deviceType);
        var k := old(FirstWithOld(Devices(deviceType), index));
        (k < |devices| ==>
           devices[k].currentDeviceIndex == index && devices[k].oldDeviceIndex == index && devices[k].Agrees())
        && forall r :: r in Records() && (k == |devices| || r != devices[k]) ==> unchanged(r) && unchanged(r.videoDevice)
    {
      var index := IndexOf(DeviceNames(deviceType), deviceName);
      var devices := Devices(deviceType);
      if |devices| > 0 {
        var k := FirstWithOld(devices, index);
        if k < |devices| {
          assert devices[k] in Records();
          devices[k].SetCurrentVideoDevice(index, index);
        }
      }
    }
  }
}
