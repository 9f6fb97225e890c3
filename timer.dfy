/**
 * The on-screen round clock (Assets/Timer.cs): every frame it adds the frame's
 * duration to its elapsed time and rewrites its label.
 */
module Timers {
  import opened Clock

  class Timer {
    /** Elapsed time in milliseconds. */
    var time: nat
    /** The text component the clock writes into. */
    const text: Label

    /** A fresh clock starts at zero. */
    constructor (text: Label)
      ensures time == 0 && this.text == text
    {
      time := 0;
      this.text := text;
    }

    /**
     * One frame of `deltaMs` milliseconds: the time moves forward by exactly that much
     * (never backwards), and the label shows the new time.
     */
    method Update(deltaMs: nat)
      modifies this`time, text`text
      ensures time == old(time) + deltaMs && time >= old(time)
      ensures text.text == FormatTime(time)
      ensures text.text[..6] == "TIME: "
    {
      time := time + deltaMs;
      text.text := FormatTime(time);
    }
  }
}
