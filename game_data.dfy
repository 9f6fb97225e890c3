/**
 * Game data carried across scenes (Assets/GameData.cs): the first instance to
 * start registers itself in the static `instance` slot and survives scene loads;
 * every later one destroys itself. The registered instance keeps a clock that can
 * be reset and that renders itself like the Timer's.
 */
module Persistence {
  import opened Clock

  /** The static field `GameData.instance`, shared by every GameData. */
  class Registry {
    var instance: GameData?

    constructor ()
      ensures instance == null
    {
      instance := null;
    }
  }

  class GameData {
    /** Elapsed time in milliseconds. */
    var time: nat
    /** `DontDestroyOnLoad` has been called on this object's game object. */
    var persistent: bool
    /** `Destroy` has been called on this object's game object. */
    var destroyed: bool

    constructor ()
      ensures time == 0 && !persistent && !destroyed
    {
      time := 0;
      persistent := false;
      destroyed := false;
    }

    /**
     * The first GameData to start while the slot is empty takes the slot and is kept
     * across scene loads; any later one is destroyed and the slot is left as it was.
     * Its clock is not touched either way.
     */
    method Start(registry: Registry)
      modifies registry`instance, this`persistent, this`destroyed
      ensures old(registry.instance) == null ==>
                registry.instance == this && persistent && destroyed == old(destroyed)
      ensures old(registry.instance) != null ==>
                registry.instance == old(registry.instance) && destroyed && persistent == old(persistent)
    {
      if registry.instance == null {
        persistent := true;
        registry.instance := this;
      } else {
        destroyed := true;
      }
    }

    /** Adds the frame's duration first, so the text includes the current frame. */
    method UpdateTimeText(text: Label, deltaMs: nat)
      modifies this`time, text`text
      ensures time == old(time) + deltaMs
      ensures text.text == FormatTime(old(time) + deltaMs)
    {
      time := time + deltaMs;
      text.text := FormatTime(time);
    }

    /** Back to zero; nothing else changes. */
    method ResetTimer()
      modifies this`time
      ensures time == 0
    {
      time := 0;
    }
  }
}
