/**
  The walking exercise (src/components/activities/WalkActivity.tsx): a
  one-second counter with start, pause, resume and complete, and the
  `m:ss` display of the elapsed time.
*/
module WalkActivity {
  import opened AsciiText

  /** The seconds field of the display: always two digits. */
  function SecondsField(secs: nat): (s: string)
    requires secs < 60
    ensures |s| == 2 && AllDigits(s) && DecimalValue(s) == secs
  {
    DecimalRoundTrip(secs);
    if secs < 10 then "0" + NatToDecimal(secs) else NatToDecimal(secs)
  }

  /** `formatTime`: whole minutes, unpadded, a colon, then the seconds padded to two digits. */
  function FormatTime(seconds: nat): (s: string)
    ensures |s| >= 4 && s[|s| - 3] == ':'
    ensures s[..|s| - 3] == NatToDecimal(seconds / 60)
    ensures s[|s| - 2..] == SecondsField(seconds % 60)
  {
    var r := NatToDecimal(seconds / 60) + ":" + SecondsField(seconds % 60);
    assert r[..|r| - 3] == NatToDecimal(seconds / 60);
    r
  }

  /** Reading the display back: the minutes times 60 plus the two-digit seconds is the time,
      and the seconds never reach 60. */
  lemma FormatTimeRoundTrip(seconds: nat)
    ensures var s := FormatTime(seconds);
            AllDigits(s[..|s| - 3]) && AllDigits(s[|s| - 2..]) &&
            DecimalValue(s[|s| - 2..]) < 60 &&
            DecimalValue(s[..|s| - 3]) * 60 + DecimalValue(s[|s| - 2..]) == seconds
  {
    DecimalRoundTrip(seconds / 60);
  }

  /**
    The state of one walk: the `isActive` and `isPaused` flags, whether the
    one-second interval is running, the elapsed seconds and how many times
    `onComplete` has been called.
  */
  class WalkSession {
    const duration: int
    var isActive: bool
    var isPaused: bool
    var counting: bool
    var time: nat
    var completions: nat

    ghost predicate Valid()
      reads this
    {
      (counting ==> isActive && !isPaused) && (isPaused ==> isActive)
    }

    constructor (duration: int)
      ensures Valid() && this.duration == duration
      ensures !isActive && !isPaused && !counting && time == 0 && completions == 0
    {
      this.duration := duration;
      isActive, isPaused, counting := false, false, false;
      time, completions := 0, 0;
    }

    /** The Start button shows only before the walk has started. */
    function StartShown(): (shown: bool)
      reads this
      ensures shown <==> !isActive && !isPaused
    {
      !isActive && !isPaused
    }

    /** Pause is offered while running; Resume while paused. Exactly one of Start,
        Pause and Resume is offered in every state. */
    function PauseShown(): (shown: bool)
      reads this
      ensures (if StartShown() then 1 else 0) + (if shown then 1 else 0) + (if isPaused then 1 else 0) == 1
    {
      isActive && !isPaused
    }

    /** Complete is offered in both the running and the paused state. */
    function CompleteShown(): (shown: bool)
      reads this
      requires Valid()
      ensures shown <==> isActive
    {
      PauseShown() || isPaused
    }

    /** `handleStart`. */
    method Start()
      requires Valid() && StartShown()
      modifies this
      ensures Valid() && isActive && !isPaused && counting
      ensures time == old(time) && completions == old(completions)
    {
      isActive, isPaused := true, false;
      counting := true;
    }

    /** `handlePause`: the interval is cleared and the walk stays active. */
    method Pause()
      requires Valid() && PauseShown()
      modifies this
      ensures Valid() && isActive && isPaused && !counting
      ensures time == old(time) && completions == old(completions)
    {
      counting := false;
      isPaused := true;
    }

    /** `handleResume`: a new interval is started. */
    method Resume()
      requires Valid() && isPaused
      modifies this
      ensures Valid() && isActive && !isPaused && counting
      ensures time == old(time) && completions == old(completions)
    {
      isPaused := false;
      counting := true;
    }

    /** One interval callback: exactly one more second, with no cap at the duration. */
    method Tick()
      requires Valid() && counting
      modifies this
      ensures Valid() && time == old(time) + 1
      ensures isActive == old(isActive) && isPaused == old(isPaused) && counting
      ensures completions == old(completions)
    {
      time := time + 1;
    }

    /** `handleComplete`: the interval stops and `onComplete` is called; the time and the flags are kept. */
    method Complete()
      requires Valid() && CompleteShown()
      modifies this
      ensures Valid() && !counting && completions == old(completions) + 1
      ensures time == old(time) && isActive == old(isActive) && isPaused == old(isPaused)
    {
      counting := false;
      completions := completions + 1;
    }
  }
}
