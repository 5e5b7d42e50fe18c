/** The coordinator of all devices (VideoIOFrameManager.cs): it hands each registered
  * device an index from a per-direction counter, keeps the devices by index, and keeps
  * its update hook in the player loop exactly while some device is registered. The
  * player loop itself is the flag syncPointInjected; device updates are recorded in the
  * order they are made. */
module FrameManagers {
  import opened Wrappers
  import opened BaseDevices

  datatype Direction = Input | Output

  /** One PerformUpdate call made by a pass of the player loop. */
  datatype DeviceUpdate = DeviceUpdate(direction: Direction, index: int)

  class VideoIOFrameManager {
    var nextInputIndex: int
    var nextOutputIndex: int
    var inputs: map<int, BaseDevice>
    var outputs: map<int, BaseDevice>
    /** Whether the DeckLinkUpdate system is in the player loop. */
    var syncPointInjected: bool

    /** Every index in use was handed out by its counter, so it lies below the counter
      * and a new registration, which takes the counter, never reuses an index; and the
      * update hook is in the player loop exactly while a device is registered. */
    ghost predicate Valid()
      reads this
    {
      0 <= nextInputIndex && 0 <= nextOutputIndex
      && (forall k :: k in inputs ==> 0 <= k < nextInputIndex)
      && (forall k :: k in outputs ==> 0 <= k < nextOutputIndex)
      && (syncPointInjected <==> |inputs| + |outputs| > 0)
    }

    constructor()
      ensures Valid() && nextInputIndex == 0 && nextOutputIndex == 0
      ensures inputs == map[] && outputs == map[] && !syncPointInjected
    {
      nextInputIndex := 0;
      nextOutputIndex := 0;
      inputs := map[];
      outputs := map[];
      syncPointInjected := false;
    }

    /** GetInputDevice: the device under the key, if any. */
    function GetInputDevice(key: int): (r: Option<BaseDevice>)
      reads this
      ensures r.Some? <==> key in inputs
      ensures r.Some? ==> r.value == inputs[key]
    {
      if key in inputs then Some(inputs[key]) else None
    }

    /** GetOutputDevice: the device under the key, if any. */
    function GetOutputDevice(key: int): (r: Option<BaseDevice>)
      reads this
      ensures r.Some? <==> key in outputs
      ensures r.Some? ==> r.value == outputs[key]
    {
      if key in outputs then Some(outputs[key]) else None
    }

    /** Register(DeckLinkInputDevice): the device gets the counter's value, which is never
      * in use, so the dictionary's Add cannot throw; the first registered device
      * injects the update hook, which was not there yet. */
    method RegisterInput(device: BaseDevice) returns (index: int)
      requires Valid()
      modifies this`nextInputIndex, this`inputs, this`syncPointInjected
      ensures Valid()
      ensures index == old(nextInputIndex) && nextInputIndex == index + 1
      ensures index !in old(inputs) && inputs == old(inputs)[index := device]
      ensures syncPointInjected && (!old(syncPointInjected) <==> |inputs| + |outputs| == 1)
    {
      index := nextInputIndex;
      nextInputIndex := nextInputIndex + 1;
      assert index !in inputs;
      AddGrows(inputs, index, device);
      inputs := inputs[index := device];
      OnRegister();
    }

    /** Register(DeckLinkOutputDevice), as RegisterInput on the output side. */
    method RegisterOutput(device: BaseDevice) returns (index: int)
      requires Valid()
      modifies this`nextOutputIndex, this`outputs, this`syncPointInjected
      ensures Valid()
      ensures index == old(nextOutputIndex) && nextOutputIndex == index + 1
      ensures index !in old(outputs) && outputs == old(outputs)[index := device]
      ensures syncPointInjected && (!old(syncPointInjected) <==> |inputs| + |outputs| == 1)
    {
      index := nextOutputIndex;
      nextOutputIndex := nextOutputIndex + 1;
      assert index !in outputs;
      AddGrows(outputs, index, device);
      outputs := outputs[index := device];
      OnRegister();
    }

    /** OnRegister: injects the hook when the device just added is the only one; the
      * injection asserts that the hook is not there yet, which holds. */
    method OnRegister()
      requires |inputs| + |outputs| >= 1
      requires syncPointInjected <==> |inputs| + |outputs| > 1
      modifies this`syncPointInjected
      ensures syncPointInjected
      ensures !old(syncPointInjected) <==> |inputs| + |outputs| == 1
    {
      if |inputs| + |outputs| == 1 {
        assert !syncPointInjected;
        syncPointInjected := true;
      }
    }

    /** Unregister(DeckLinkInputDevice) removes only the entry under the device's index,
      * and takes the hook out when no device is left. */
    method UnregisterInput(deviceIndex: int)
      requires Valid()
      modifies this`inputs, this`syncPointInjected
      ensures Valid()
      ensures inputs == old(inputs) - {deviceIndex}
      ensures !syncPointInjected <==> |inputs| + |outputs| == 0
    {
      RemoveShrinks(inputs, deviceIndex);
      inputs := inputs - {deviceIndex};
      OnUnregister();
    }

    /** Unregister(DeckLinkOutputDevice), as UnregisterInput on the output side. */
    method UnregisterOutput(deviceIndex: int)
      requires Valid()
      modifies this`outputs, this`syncPointInjected
      ensures Valid()
      ensures outputs == old(outputs) - {deviceIndex}
      ensures !syncPointInjected <==> |inputs| + |outputs| == 0
    {
      RemoveShrinks(outputs, deviceIndex);
      outputs := outputs - {deviceIndex};
      OnUnregister();
    }

    /** OnUnregister: takes the hook out when no device is left; removing an absent hook
      * changes nothing. */
    method OnUnregister()
      requires |inputs| + |outputs| > 0 ==> syncPointInjected
      modifies this`syncPointInjected
      ensures syncPointInjected <==> |inputs| + |outputs| > 0
    {
      if |inputs| + |outputs| == 0 {
        syncPointInjected := false;
      }
    }

    /** PlayerLoopUpdate: every registered input device is updated once, then every
      * registered output device once. */
    method PlayerLoopUpdate() returns (order: seq<DeviceUpdate>)
      ensures forall i, j :: 0 <= i < j < |order| && order[i].direction == Output ==> order[j].direction == Output
      ensures forall k :: DeviceUpdate(Input, k) in order <==> k in inputs
      ensures forall k :: DeviceUpdate(Output, k) in order <==> k in outputs
      ensures forall i, j :: 0 <= i < j < |order| ==> order[i] != order[j]
    {
      var inputOrder := UpdateAll(inputs.Keys, Input);
      var outputOrder := UpdateAll(outputs.Keys, Output);
      order := inputOrder + outputOrder;
    }
  }

  /** One foreach over a dictionary: every key once, in some order. */
  method UpdateAll(keys: set<int>, direction: Direction) returns (order: seq<DeviceUpdate>)
    ensures forall i :: 0 <= i < |order| ==> order[i].direction == direction
    ensures forall k :: DeviceUpdate(direction, k) in order <==> k in keys
    ensures forall i, j :: 0 <= i < j < |order| ==> order[i] != order[j]
  {
    var remaining := keys;
    order := [];
    while remaining != {}
      invariant remaining <= keys
      invariant forall i :: 0 <= i < |order| ==> order[i].direction == direction && order[i].index in keys - remaining
      invariant forall k :: k in keys - remaining ==> DeviceUpdate(direction, k) in order
      invariant forall i, j :: 0 <= i < j < |order| ==> order[i] != order[j]
      decreases |remaining|
    {
      NonEmptyHasMember(remaining);
      var k :| k in remaining;
      order := order + [DeviceUpdate(direction, k)];
      remaining := remaining - {k};
    }
  }

  /** Adding an absent key grows the map by one entry. */
  lemma AddGrows<V>(m: map<int, V>, k: int, v: V)
    requires k !in m
    ensures |m[k := v]| == |m| + 1
  {
    assert m[k := v].Keys == m.Keys + {k};
  }

  /** Removing a key leaves the other entries: the map shrinks by that key, if present. */
  lemma RemoveShrinks<V>(m: map<int, V>, k: int)
    ensures |m - {k}| == if k in m then |m| - 1 else |m|
    ensures forall j :: j in m - {k} ==> j in m
  {
    assert (m - {k}).Keys == m.Keys - {k};
  }
}
