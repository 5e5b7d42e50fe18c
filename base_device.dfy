/** The life cycle shared by input and output devices (BaseDeckLinkDevice.cs): the queue
  * length setting, the device selection and update-in-editor switches that ask for a
  * life-cycle update, and the static count of initialized devices. The derived
  * device's Initialize is a parameter (its result), and Application.isPlaying too. */
module BaseDevices {
  import opened Arithmetic

  const MinQueueLength: int := 1
  const MaxQueueLength: int := 8
  const DefaultQueueLength: int := 3

  /** The static s_ActiveDevices, with the set of devices it counts as a ghost. */
  class ActiveDevices {
    var count: int
    ghost var initialized: set<BaseDevice>

    /** The counter is the number of devices it counts. */
    ghost predicate Valid()
      reads this
    {
      count == |initialized|
    }

    constructor()
      ensures Valid() && initialized == {}
    {
      count := 0;
      initialized := {};
    }

    /** s_ActiveDevices++ for a device that was not counted. */
    method Increment(device: BaseDevice)
      requires Valid() && device !in initialized
      modifies this
      ensures Valid() && initialized == old(initialized) + {device}
      ensures count == old(count) + 1
    {
      count := count + 1;
      initialized := initialized + {device};
    }

    /** s_ActiveDevices-- for a device that was counted. */
    method Decrement(device: BaseDevice)
      requires Valid() && device in initialized
      modifies this
      ensures Valid() && initialized == old(initialized) - {device}
      ensures count == old(count) - 1
    {
      count := count - 1;
      initialized := initialized - {device};
    }
  }

  class BaseDevice {
    var deviceSelection: int
    var oldDeviceSelection: int
    var queueLength: int
    var updateInEditor: bool
    /** Whether the editor-update PlayableGraph is playing. */
    var graphPlaying: bool
    var lifeCycleNeedsUpdate: bool
    var initialized: bool
    var requiresReinit: bool
    /** How many times the derived device's Cleanup has run. */
    ghost var cleanups: nat

    /** The device is counted by the counter exactly while it is initialized. */
    ghost predicate Counted(counter: ActiveDevices)
      reads this, counter
    {
      initialized <==> this in counter.initialized
    }

    /** A new component: no device selected, three frames of queue, not initialized. */
    constructor()
      ensures deviceSelection == -1 && oldDeviceSelection == -1 && queueLength == DefaultQueueLength
      ensures !updateInEditor && !graphPlaying && !lifeCycleNeedsUpdate && !initialized && !requiresReinit
      ensures cleanups == 0
    {
      deviceSelection := -1;
      oldDeviceSelection := -1;
      queueLength := DefaultQueueLength;
      updateInEditor := false;
      graphPlaying := false;
      lifeCycleNeedsUpdate := false;
      initialized := false;
      requiresReinit := false;
      cleanups := 0;
    }

    /** The QueueLength setter clamps. */
    method SetQueueLength(value: int)
      modifies this`queueLength
      ensures queueLength == Clamp(value, MinQueueLength, MaxQueueLength)
      ensures MinQueueLength <= queueLength <= MaxQueueLength
    {
      queueLength := Clamp(value, MinQueueLength, MaxQueueLength);
    }

    /** The UpdateInEditor getter: the flag, while the graph plays. */
    predicate UpdateInEditor()
      reads this
    {
      updateInEditor && graphPlaying
    }

    /** The UpdateInEditor setter: a new value is stored, asks for a life-cycle update and
      * plays or stops the graph; the current value changes nothing. */
    method SetUpdateInEditor(value: bool)
      modifies this`updateInEditor, this`lifeCycleNeedsUpdate, this`graphPlaying
      ensures updateInEditor == value
      ensures old(updateInEditor) == value ==> lifeCycleNeedsUpdate == old(lifeCycleNeedsUpdate) && graphPlaying == old(graphPlaying)
      ensures old(updateInEditor) != value ==> lifeCycleNeedsUpdate && graphPlaying == value
      ensures old(updateInEditor) != value ==> UpdateInEditor() == value
    {
      if updateInEditor != value {
        updateInEditor := value;
        lifeCycleNeedsUpdate := true;
        graphPlaying := value;
      }
    }

    /** The DeviceSelection setter: a new value is stored and asks for a life-cycle
      * update, and for a reinitialisation when the device is initialized; the current
      * value changes nothing. */
    method SetDeviceSelection(value: int)
      modifies this`deviceSelection, this`requiresReinit, this`lifeCycleNeedsUpdate
      ensures deviceSelection == value
      ensures old(deviceSelection) == value ==>
        requiresReinit == old(requiresReinit) && lifeCycleNeedsUpdate == old(lifeCycleNeedsUpdate)
      ensures old(deviceSelection) != value ==>
        lifeCycleNeedsUpdate && requiresReinit == (old(requiresReinit) || initialized)
    {
      if deviceSelection != value {
        deviceSelection := value;
        if initialized {
          requiresReinit := true;
        }
        lifeCycleNeedsUpdate := true;
      }
    }

    /** IsActive: in play mode or updating in the editor, with a device selected, and
      * initialized. */
    predicate IsActive(isPlaying: bool)
      reads this
    {
      (isPlaying || UpdateInEditor()) && deviceSelection >= 0 && initialized
    }

    /** Update runs the life-cycle update only when one was asked for, and clears the
      * request. */
    method Update(counter: ActiveDevices, isPlaying: bool, initializeSucceeds: bool)
      requires counter.Valid() && Counted(counter)
      modifies this`lifeCycleNeedsUpdate, this`initialized, this`cleanups, counter
      ensures counter.Valid() && Counted(counter) && !lifeCycleNeedsUpdate
      ensures counter.initialized - {this} == old(counter.initialized) - {this}
      ensures initialized ==
        if !old(lifeCycleNeedsUpdate) then old(initialized)
        else LifeCycleResult(old(initialized), updateInEditor || isPlaying, initializeSucceeds)
    {
      if lifeCycleNeedsUpdate {
        lifeCycleNeedsUpdate := false;
        UpdateLifeCycle(counter, isPlaying, initializeSucceeds);
      }
    }

    /** UpdateLifeCycle: initializes the device when it should run and is not yet
      * initialized, counting it when Initialize succeeds; cleans it up and uncounts it
      * when it should not run. */
    method UpdateLifeCycle(counter: ActiveDevices, isPlaying: bool, initializeSucceeds: bool)
      requires counter.Valid() && Counted(counter)
      modifies this`initialized, this`cleanups, counter
      ensures counter.Valid() && Counted(counter)
      ensures counter.initialized - {this} == old(counter.initialized) - {this}
      ensures initialized == LifeCycleResult(old(initialized), updateInEditor || isPlaying, initializeSucceeds)
      ensures cleanups == old(cleanups) + (if old(initialized) && !(updateInEditor || isPlaying) then 1 else 0)
    {
      var shouldInitialize := updateInEditor || isPlaying;
      if shouldInitialize && !initialized {
        initialized := initializeSucceeds;
        if initialized {
          counter.Increment(this);
        }
      }
      if !updateInEditor && !isPlaying && initialized {
        counter.Decrement(this);
        cleanups := cleanups + 1;
        initialized := false;
      }
    }

    /** OnEnable asks for a life-cycle update. */
    method OnEnable()
      modifies this`lifeCycleNeedsUpdate
      ensures lifeCycleNeedsUpdate
    {
      lifeCycleNeedsUpdate := true;
    }

    /** OnDisable cleans up and uncounts an initialized device. */
    method OnDisable(counter: ActiveDevices)
      requires counter.Valid() && Counted(counter)
      modifies this`initialized, this`cleanups, counter
      ensures counter.Valid() && Counted(counter) && !initialized
      ensures counter.initialized == old(counter.initialized) - {this}
      ensures cleanups == old(cleanups) + (if old(initialized) then 1 else 0)
    {
      if initialized {
        counter.Decrement(this);
        cleanups := cleanups + 1;
        initialized := false;
      }
    }
  }

  /** Whether the device is initialized after a life-cycle update: when it should run,
    * it stays initialized or takes Initialize's result; when it should not, it is not. */
  function LifeCycleResult(wasInitialized: bool, shouldRun: bool, initializeSucceeds: bool): (initialized: bool)
    ensures initialized ==> shouldRun
    ensures wasInitialized && shouldRun ==> initialized
    ensures !wasInitialized ==> (initialized <==> shouldRun && initializeSucceeds)
  {
    shouldRun && (wasInitialized || initializeSucceeds)
  }

  /** An active device is one the counter counts. */
  lemma ActiveIsCounted(device: BaseDevice, counter: ActiveDevices, isPlaying: bool)
    requires device.Counted(counter)
    ensures device.IsActive(isPlaying) ==> device in counter.initialized && counter.initialized != {}
  {
  }
}
