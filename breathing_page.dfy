/**
 * The breathing exercise: a once-a-second count through inhale (4),
 * hold (4), exhale (6) and pause (2), with a counter of completed cycles.
 */
module BreathingPage {
  datatype Phase = Inhale | Hold | Exhale | Pause

  /** The pattern the page describes to the user: the phase after `p`. */
  function Successor(p: Phase): (q: Phase)
    ensures q != p
  {
    match p
    case Inhale => Hold
    case Hold => Exhale
    case Exhale => Pause
    case Pause => Inhale
  }

  /** The pattern the page describes to the user: how many counts each phase lasts. */
  function Length(p: Phase): (n: nat)
    ensures 2 <= n <= 6
  {
    match p
    case Inhale => 4
    case Hold => 4
    case Exhale => 6
    case Pause => 2
  }

  /** A snapshot of the page's four state fields. */
  datatype Breath = Breath(phase: Phase, count: int, isActive: bool, cycles: nat)

  /** The page as it loads, and as the reset button leaves it. */
  const Start := Breath(Inhale, 4, false, 0)

  /** The shape every reachable state keeps: the count lies within its phase's length. */
  predicate Valid(b: Breath) {
    1 <= b.count <= Length(b.phase)
  }

  /** The interval updater: count down, and at the last count enter the next phase. */
  function Count(b: Breath): Breath {
    if b.count <= 1 then
      match b.phase
      case Inhale => b.(phase := Hold, count := 4)
      case Hold => b.(phase := Exhale, count := 6)
      case Exhale => b.(phase := Pause, count := 2)
      case Pause => b.(phase := Inhale, cycles := b.cycles + 1, count := 4)
    else b.(count := b.count - 1)
  }

  /** One second of wall time: the interval only exists while the exercise runs. */
  function Elapse(b: Breath): Breath {
    if b.isActive then Count(b) else b
  }

  /** `k` seconds of wall time. */
  function Run(b: Breath, k: nat): Breath
    decreases k
  {
    if k == 0 then b else Run(Elapse(b), k - 1)
  }

  /** The start/pause button. */
  function Toggle(b: Breath): (r: Breath)
    ensures r.isActive != b.isActive
    ensures r.(isActive := b.isActive) == b
  {
    b.(isActive := !b.isActive)
  }

  /** The reset button leaves a valid state with no cycles counted. */
  lemma StartValid()
    ensures Valid(Start) && Start.cycles == 0 && !Start.isActive
  {
  }

  /** Above the last count a tick only counts down. */
  lemma CountsDown(b: Breath)
    requires b.count > 1
    ensures Count(b) == b.(count := b.count - 1)
  {
  }

  /**
   * At the last count a tick enters the next phase of the pattern with that
   * phase's full length; the cycle counter rises by one exactly on the
   * pause-to-inhale step.
   */
  lemma PhaseAdvances(b: Breath)
    requires b.count <= 1
    ensures Count(b).phase == Successor(b.phase) && Count(b).count == Length(Successor(b.phase))
    ensures Count(b).isActive == b.isActive
    ensures Count(b).cycles == if b.phase == Pause then b.cycles + 1 else b.cycles
  {
  }

  /** The cycle counter changes only on the pause-to-inhale step, and then by one. */
  lemma CyclesOnPauseOnly(b: Breath)
    ensures Count(b).cycles != b.cycles <==> b.count <= 1 && b.phase == Pause
    ensures Count(b).cycles == b.cycles || Count(b).cycles == b.cycles + 1
  {
  }

  /** Every tick keeps the count within 1..6. */
  lemma CountValid(b: Breath)
    requires Valid(b)
    ensures Valid(Count(b)) && Valid(Elapse(b)) && 1 <= Elapse(b).count <= 6
  {
  }

  /** Running `i` and then `j` seconds is running `i + j`. */
  lemma {:induction false} RunAdd(b: Breath, i: nat, j: nat)
    ensures Run(b, i + j) == Run(Run(b, i), j)
    decreases i
  {
    if i > 0 {
      RunAdd(Elapse(b), i - 1, j);
    }
  }

  /** Within a phase, `k` seconds take `k` off the count and nothing else. */
  lemma {:induction false} RunWithinPhase(b: Breath, k: nat)
    requires b.isActive && k < b.count
    ensures Run(b, k) == b.(count := b.count - k)
    decreases k
  {
    if k > 0 {
      CountsDown(b);
      RunWithinPhase(Elapse(b), k - 1);
    }
  }

  /** A phase entered with count `c` lasts exactly `c` seconds. */
  lemma {:induction false} PhaseTicks(b: Breath)
    requires b.isActive && b.count >= 1
    ensures Run(b, b.count) == Count(b.(count := 1))
    decreases b.count
  {
    if b.count > 1 {
      CountsDown(b);
      var next := Elapse(b);
      assert Run(b, b.count) == Run(next, next.count);
      PhaseTicks(next);
      assert next.(count := 1) == b.(count := 1);
    } else {
      RunOne(b);
    }
  }

  /** One second of running is one elapse. */
  lemma RunOne(b: Breath)
    ensures Run(b, 1) == Elapse(b)
  {
    assert Run(b, 1) == Run(Elapse(b), 0);
  }

  /**
   * One whole breath, from the first inhale count back to it, is
   * 4 + 4 + 6 + 2 = 16 seconds and adds exactly one cycle.
   */
  lemma FullCycle(b: Breath)
    requires b.isActive && b.phase == Inhale && b.count == 4
    ensures Run(b, 16) == b.(cycles := b.cycles + 1)
  {
    var hold := Run(b, 4);
    PhaseTicks(b);
    var exhale := Run(hold, 4);
    PhaseTicks(hold);
    var pause := Run(exhale, 6);
    PhaseTicks(exhale);
    PhaseTicks(pause);
    RunAdd(b, 4, 4);
    RunAdd(b, 8, 6);
    RunAdd(b, 14, 2);
  }

  /** The page's state, updated in place by the interval and the two buttons. */
  class Breathing {
    var phase: Phase
    var count: int
    var isActive: bool
    var cycles: nat

    function View(): Breath
      reads this
    {
      Breath(phase, count, isActive, cycles)
    }

    constructor()
      ensures View() == Start && Valid(View())
    {
      phase := Inhale;
      count := 4;
      isActive := false;
      cycles := 0;
    }

    /** One firing of the one-second interval; it only exists while the exercise runs. */
    method Tick()
      requires Valid(View())
      modifies this
      ensures View() == Elapse(old(View())) && Valid(View())
    {
      CountValid(View());
      if !isActive {
        return;
      }
      if count <= 1 {
        match phase {
          case Inhale =>
            phase := Hold;
            count := 4;
          case Hold =>
            phase := Exhale;
            count := 6;
          case Exhale =>
            phase := Pause;
            count := 2;
          case Pause =>
            phase := Inhale;
            cycles := cycles + 1;
            count := 4;
        }
      } else {
        count := count - 1;
      }
    }

    method ToggleActive()
      requires Valid(View())
      modifies this
      ensures View() == Toggle(old(View())) && Valid(View())
    {
      isActive := !isActive;
    }

    /** The reset button: stopped, first inhale count, no cycles. */
    method Reset()
      modifies this
      ensures View() == Start && Valid(View())
    {
      isActive := false;
      phase := Inhale;
      count := 4;
      cycles := 0;
    }
  }
}
