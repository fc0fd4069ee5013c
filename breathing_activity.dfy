/**
  The box-breathing exercise (src/components/activities/BreathingActivity.tsx):
  a 100 ms tick that accumulates the total time, stops at the configured
  duration, and moves through four 4-second phases.
*/
module BreathingActivity {

  datatype Phase = Inhale | Hold1 | Exhale | Hold2

  /** The interval period, in milliseconds. */
  const TickMs := 100
  /** The length of one phase, in milliseconds. */
  const PhaseMs := 4000

  /** inhale -> hold1 -> exhale -> hold2 -> inhale. */
  function NextPhase(p: Phase): (q: Phase)
    ensures q != p
  {
    match p
    case Inhale => Hold1
    case Hold1 => Exhale
    case Exhale => Hold2
    case Hold2 => Inhale
  }

  /** The phase reached from `p` after `m` phase changes. */
  function PhaseAfter(p: Phase, m: nat): Phase {
    if m == 0 then p else NextPhase(PhaseAfter(p, m - 1))
  }

  /** The phases form a cycle of four: each returns after exactly four changes and
      not before, so the four phases in between are all different. */
  lemma {:induction false} PhaseCycleOfFour(p: Phase, m: nat)
    ensures PhaseAfter(p, m) == PhaseAfter(p, m % 4)
    ensures PhaseAfter(p, 4) == p
    ensures PhaseAfter(p, 1) != p && PhaseAfter(p, 2) != p && PhaseAfter(p, 3) != p
  {
    if m >= 4 {
      PhaseAfterAdds(p, m - 4, 4);
      PhaseCycleOfFour(p, m - 4);
    }
  }

  lemma {:induction false} PhaseAfterAdds(p: Phase, a: nat, b: nat)
    ensures PhaseAfter(p, a + b) == PhaseAfter(PhaseAfter(p, a), b)
  {
    if b > 0 {
      PhaseAfterAdds(p, a, b - 1);
    }
  }

  /** The configured duration, given in minutes, in milliseconds. */
  function DurationMs(minutes: int): (ms: int)
    ensures ms % 1000 == 0 && ms / 1000 == minutes * 60
  {
    minutes * 60 * 1000
  }

  /**
    From a total of 0, the interval's n-th tick is its last exactly when n is
    600 per minute; the render before it showed one second less than the
    exercise lasts, and no later render comes.
  */
  lemma LastSecondNeverShown(minutes: int, n: nat)
    requires minutes >= 1 && n >= 1
    ensures (TickMs * n >= DurationMs(minutes) && TickMs * (n - 1) < DurationMs(minutes)) <==> n == 600 * minutes
    ensures n == 600 * minutes ==> (TickMs * (n - 1)) / 1000 == minutes * 60 - 1
  {
    assert DurationMs(minutes) == TickMs * (600 * minutes);
    if n == 600 * minutes {
      assert TickMs * (n - 1) == 1000 * (minutes * 60 - 1) + 900;
    }
  }

  /** The phase on display and the time spent in it. */
  datatype PhaseClock = PhaseClock(phase: Phase, timer: int)

  /** Between ticks the phase timer is a multiple of 100 below 4000. */
  predicate ValidTimer(timer: int) {
    0 <= timer < PhaseMs && timer % TickMs == 0
  }

  /**
    The `setTimer` updater of one tick. `compared` is the phase the updater
    compares against; the phase it moves to is the one after `compared`.
  */
  function PhaseUpdate(compared: Phase, c: PhaseClock): (d: PhaseClock)
    ensures c.timer + TickMs >= PhaseMs ==> d == PhaseClock(NextPhase(compared), 0)
    ensures c.timer + TickMs < PhaseMs ==> d == PhaseClock(c.phase, c.timer + TickMs)
  {
    var newTimer := c.timer + TickMs;
    if newTimer >= PhaseMs then PhaseClock(NextPhase(compared), 0) else PhaseClock(c.phase, newTimer)
  }

  /** One tick of the phase clock, comparing against the phase currently shown. */
  function Advance(c: PhaseClock): (d: PhaseClock)
    ensures ValidTimer(c.timer) ==> ValidTimer(d.timer)
    ensures ValidTimer(c.timer) ==> (d.phase != c.phase <==> c.timer == PhaseMs - TickMs)
  {
    PhaseUpdate(c.phase, c)
  }

  /** `n` ticks of the phase clock. */
  function Ticks(c: PhaseClock, n: nat): PhaseClock {
    if n == 0 then c else Advance(Ticks(c, n - 1))
  }

  lemma {:induction false} TicksAdd(c: PhaseClock, a: nat, b: nat)
    ensures Ticks(c, a + b) == Ticks(Ticks(c, a), b)
  {
    if b > 0 {
      TicksAdd(c, a, b - 1);
    }
  }

  /** A phase lasts 40 ticks: it keeps its place for 39 and moves on at the 40th. */
  lemma {:induction false} PhaseLastsFourSeconds(p: Phase, k: nat)
    requires k <= 40
    ensures k < 40 ==> Ticks(PhaseClock(p, 0), k) == PhaseClock(p, TickMs * k)
    ensures k == 40 ==> Ticks(PhaseClock(p, 0), k) == PhaseClock(NextPhase(p), 0)
  {
    if k > 0 {
      PhaseLastsFourSeconds(p, k - 1);
    }
  }

  /** After every 4000 ms of phase time the phase has advanced once more around the cycle. */
  lemma {:induction false} PhaseEveryFourSeconds(p: Phase, m: nat)
    ensures Ticks(PhaseClock(p, 0), 40 * m) == PhaseClock(PhaseAfter(p, m), 0)
  {
    if m > 0 {
      var k := 40 * (m - 1);
      assert 40 * m == k + 40;
      TicksAdd(PhaseClock(p, 0), k, 40);
      PhaseEveryFourSeconds(p, m - 1);
      PhaseLastsFourSeconds(PhaseAfter(p, m - 1), 40);
    }
  }

  /**
    The ticks as written: the interval callback keeps comparing the phase
    that was on display when the exercise was started.
  */
  function StaleTicks(captured: Phase, c: PhaseClock, n: nat): (r: PhaseClock)
    ensures ValidTimer(c.timer) ==> ValidTimer(r.timer)
    ensures n > 0 && ValidTimer(c.timer) && r.timer == 0 ==> r.phase == NextPhase(captured)
  {
    if n == 0 then c else PhaseUpdate(captured, StaleTicks(captured, c, n - 1))
  }

  lemma {:induction false} StaleTicksAdd(captured: Phase, c: PhaseClock, a: nat, b: nat)
    ensures StaleTicks(captured, c, a + b) == StaleTicks(captured, StaleTicks(captured, c, a), b)
  {
    if b > 0 {
      StaleTicksAdd(captured, c, a, b - 1);
    }
  }

  lemma {:induction false} StalePhaseLasts(captured: Phase, q: Phase, k: nat)
    requires k <= 40
    ensures k < 40 ==> StaleTicks(captured, PhaseClock(q, 0), k) == PhaseClock(q, TickMs * k)
    ensures k == 40 ==> StaleTicks(captured, PhaseClock(q, 0), k) == PhaseClock(NextPhase(captured), 0)
  {
    if k > 0 {
      StalePhaseLasts(captured, q, k - 1);
      var prev := StaleTicks(captured, PhaseClock(q, 0), k - 1);
      assert prev == PhaseClock(q, TickMs * (k - 1));
      assert prev.timer + TickMs == TickMs * k;
      assert StaleTicks(captured, PhaseClock(q, 0), k) == PhaseUpdate(captured, prev);
    }
  }

  /**
    As written, the phase moves once and then stays: after any number of
    whole phases since starting in `p`, the display shows the phase after `p`.
  */
  lemma {:induction false} StaleBreathingStalls(p: Phase, m: nat)
    requires m >= 1
    ensures StaleTicks(p, PhaseClock(p, 0), 40 * m) == PhaseClock(NextPhase(p), 0)
  {
    if m == 1 {
      StalePhaseLasts(p, p, 40);
    } else {
      StaleTicksAdd(p, PhaseClock(p, 0), 40 * (m - 1), 40);
      StaleBreathingStalls(p, m - 1);
      StalePhaseLasts(p, NextPhase(p), 40);
    }
  }

  /** Eight seconds after starting with an inhale, the exercise as written still says
      "hold" where the box-breathing cycle is at the exhale. */
  lemma StaleDiffersFromCycle()
    ensures StaleTicks(Inhale, PhaseClock(Inhale, 0), 80).phase == Hold1
    ensures Ticks(PhaseClock(Inhale, 0), 80).phase == Exhale
  {
    StaleBreathingStalls(Inhale, 2);
    PhaseEveryFourSeconds(Inhale, 2);
  }

  /** `getInstructions`. */
  function Instructions(p: Phase): (text: string)
    ensures p == Hold1 || p == Hold2 ==> text == "Hold your breath..."
    ensures (p == Inhale || p == Exhale) ==> text != "Hold your breath..."
  {
    match p
    case Inhale => "Breathe in slowly through your nose..."
    case Hold1 => "Hold your breath..."
    case Exhale => "Exhale slowly through your mouth..."
    case Hold2 => "Hold your breath..."
  }

  /**
    The state of one breathing exercise: whether it is active, whether its
    interval is running, the phase clock, the total time, the total time as
    of the last render, and how many times `onComplete` has been called.
  */
  class BreathingSession {
    const duration: int
    var isActive: bool
    var ticking: bool
    var clock: PhaseClock
    var totalMs: int
    var shownMs: int
    var completions: nat

    ghost predicate Valid()
      reads this
    {
      ValidTimer(clock.timer) && totalMs >= 0 && totalMs % TickMs == 0 && (ticking ==> isActive) &&
      0 <= shownMs <= totalMs <= shownMs + TickMs && (ticking ==> shownMs == totalMs)
    }

    constructor (duration: int)
      ensures Valid() && this.duration == duration
      ensures !isActive && !ticking && clock == PhaseClock(Inhale, 0) && totalMs == 0 && shownMs == 0
      ensures completions == 0
    {
      this.duration := duration;
      isActive, ticking := false, false;
      clock := PhaseClock(Inhale, 0);
      totalMs, shownMs, completions := 0, 0, 0;
    }

    /** `startBreathing`, offered while the exercise is not active; the total is not reset. */
    method Start()
      requires Valid() && !isActive
      modifies this
      ensures Valid() && isActive && ticking && shownMs == totalMs
      ensures clock == old(clock) && totalMs == old(totalMs) && completions == old(completions)
    {
      isActive, ticking := true, true;
      shownMs := totalMs;
    }

    /**
      One 100 ms interval callback. The last one sets no state, so nothing
      re-renders and the screen keeps the total of the tick before.
    */
    method Tick()
      requires Valid() && ticking
      modifies this
      ensures Valid()
      ensures totalMs == old(totalMs) + TickMs
      ensures totalMs >= DurationMs(duration) ==> !ticking && clock == old(clock) && shownMs == old(totalMs)
      ensures totalMs < DurationMs(duration) ==> ticking && clock == Advance(old(clock)) && shownMs == totalMs
      ensures isActive == old(isActive) && completions == old(completions)
    {
      totalMs := totalMs + TickMs;
      if totalMs >= DurationMs(duration) {
        ticking := false;
        return;
      }
      clock := Advance(clock);
      shownMs := totalMs;
    }

    /** `pauseBreathing`: the interval stops, the time and the phase are kept. */
    method Pause()
      requires Valid()
      modifies this
      ensures Valid() && !isActive && !ticking && shownMs == totalMs
      ensures clock == old(clock) && totalMs == old(totalMs) && completions == old(completions)
    {
      ticking, isActive := false, false;
      shownMs := totalMs;
    }

    /** `handleComplete`: the only place `onComplete` is called. */
    method Complete()
      requires Valid()
      modifies this
      ensures Valid() && !isActive && !ticking && shownMs == totalMs
      ensures completions == old(completions) + 1
      ensures clock == old(clock) && totalMs == old(totalMs)
    {
      ticking, isActive := false, false;
      shownMs := totalMs;
      completions := completions + 1;
    }

    /** The whole seconds shown while active: those of the total at the last render,
        which is the current total while the interval runs. */
    function DisplayedSeconds(): (s: int)
      reads this
      requires Valid()
      ensures s >= 0 && s * 1000 <= shownMs < s * 1000 + 1000
      ensures ticking ==> s * 1000 <= totalMs < s * 1000 + 1000
    {
      shownMs / 1000
    }
  }
}
