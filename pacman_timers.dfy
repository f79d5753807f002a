/**
 * The clock stage of a game-loop tick: the power-mode countdown and the
 * chase/scatter phase switch, each tick worth 120 ms.
 */
module PacmanTimers {
  import opened PacmanState

  /** The game-loop period in milliseconds. */
  const TickMs := 120

  /** The power countdown: while it runs, each tick takes 120 ms off and power ends at zero. */
  function PowerClock(s: GameState): (r: GameState)
    ensures r == s.(powerMode := r.powerMode, powerModeTimer := r.powerModeTimer)
    ensures s.powerMode && s.powerModeTimer > 0 ==>
      r.powerModeTimer == s.powerModeTimer - TickMs && (r.powerMode <==> r.powerModeTimer > 0)
    ensures !(s.powerMode && s.powerModeTimer > 0) ==> r == s
  {
    if s.powerMode && s.powerModeTimer > 0 then
      var t := s.powerModeTimer - TickMs;
      s.(powerModeTimer := t, powerMode := t > 0)
    else s
  }

  /**
   * The phase clock, frozen while power mode is on: at expiry chase turns
   * to a 5000 ms scatter and scatter to a 20000 ms chase.
   */
  function PhaseClock(s: GameState): (r: GameState)
    ensures r == s.(ghostMode := r.ghostMode, ghostModeTimer := r.ghostModeTimer)
    ensures s.powerMode ==> r == s
    ensures !s.powerMode && s.ghostModeTimer - TickMs > 0 ==>
      r.ghostMode == s.ghostMode && r.ghostModeTimer == s.ghostModeTimer - TickMs
    ensures !s.powerMode && s.ghostModeTimer - TickMs <= 0 ==>
      r.ghostMode != s.ghostMode && r.ghostModeTimer == (if s.ghostMode == Chase then 5000 else 20000)
  {
    if !s.powerMode then
      var t := s.ghostModeTimer - TickMs;
      if t <= 0 then
        if s.ghostMode == Chase then s.(ghostMode := Scatter, ghostModeTimer := 5000)
        else s.(ghostMode := Chase, ghostModeTimer := 20000)
      else s.(ghostModeTimer := t)
    else s
  }

  /** The timer updater of the game loop: the power clock first, then the phase clock. */
  function TimersStep(s: GameState): (r: GameState)
    // power is never switched on by the clock
    ensures r.powerMode ==> s.powerMode
    // both countdowns stay positive once they are
    ensures (s.powerMode ==> s.powerModeTimer > 0) ==> (r.powerMode ==> r.powerModeTimer > 0)
    ensures s.ghostModeTimer > 0 ==> r.ghostModeTimer > 0
  {
    PhaseClock(PowerClock(s))
  }

  /** The timer updater as the game loop runs it, one field at a time. */
  method UpdateTimers(s: GameState) returns (r: GameState)
    ensures r == TimersStep(s)
  {
    r := s;
    if r.powerMode && r.powerModeTimer > 0 {
      var newTimer := r.powerModeTimer - TickMs;
      r := r.(powerModeTimer := newTimer);
      r := r.(powerMode := newTimer > 0);
    }
    if !r.powerMode {
      r := r.(ghostModeTimer := r.ghostModeTimer - TickMs);
      if r.ghostModeTimer <= 0 {
        if r.ghostMode == Chase {
          r := r.(ghostMode := Scatter, ghostModeTimer := 5000);
        } else {
          r := r.(ghostMode := Chase, ghostModeTimer := 20000);
        }
      }
    }
  }

  /** `n` ticks of the clocks alone. */
  function TimersAfter(s: GameState, n: nat): GameState {
    if n == 0 then s else TimersStep(TimersAfter(s, n - 1))
  }

  /** The clocks touch nothing but the four timer fields. */
  lemma TimersFrame(s: GameState)
    ensures TimersStep(s) == s.(powerMode := TimersStep(s).powerMode, powerModeTimer := TimersStep(s).powerModeTimer,
                                ghostMode := TimersStep(s).ghostMode, ghostModeTimer := TimersStep(s).ghostModeTimer)
  {
  }

  /** The clocks keep the invariant. */
  lemma TimersValid(s: GameState)
    requires Inv(s)
    ensures Inv(TimersStep(s))
  {
    TimersFrame(s);
  }

  /**
   * Power started with `t` ms left stays on for exactly the ticks that
   * leave time on the clock: after `n` ticks it is on iff t - 120n > 0,
   * and while on the clock reads t - 120n.
   */
  lemma {:induction false} PowerLasts(s: GameState, n: nat)
    requires s.powerMode && s.powerModeTimer > 0
    ensures TimersAfter(s, n).powerMode <==> s.powerModeTimer - TickMs * n > 0
    ensures TimersAfter(s, n).powerMode ==> TimersAfter(s, n).powerModeTimer == s.powerModeTimer - TickMs * n
  {
    if n > 0 {
      PowerLasts(s, n - 1);
      var p := TimersAfter(s, n - 1);
      if !p.powerMode {
        assert !TimersStep(p).powerMode;
      }
    }
  }

  /** A power pellet (8000 ms) gives exactly 67 ticks of power mode. */
  lemma PelletPowerTicks(s: GameState, n: nat)
    requires s.powerMode && s.powerModeTimer == 8000
    ensures TimersAfter(s, n).powerMode <==> n < 67
  {
    PowerLasts(s, n);
  }

  /** While power mode lasts the chase/scatter phase and its clock are frozen. */
  lemma {:induction false} PhaseFrozen(s: GameState, n: nat)
    requires s.powerMode && s.powerModeTimer > 0
    requires TimersAfter(s, n).powerMode
    ensures TimersAfter(s, n).ghostMode == s.ghostMode
    ensures TimersAfter(s, n).ghostModeTimer == s.ghostModeTimer
  {
    if n > 0 {
      var p := TimersAfter(s, n - 1);
      assert p.powerMode;
      PhaseFrozen(s, n - 1);
    }
  }
}
