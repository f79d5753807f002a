/**
 * The pomodoro page: a minutes:seconds countdown over a work session and
 * short and long breaks, with a long break after every fourth completed
 * work session.
 */
module PomodoroPage {
  datatype Mode = Work | ShortBreak | LongBreak

  /** The `modes` table: how many minutes each mode lasts. */
  function Duration(m: Mode): (d: nat)
    ensures 5 <= d <= 25
    ensures d == 25 <==> m == Work
  {
    match m
    case Work => 25
    case ShortBreak => 5
    case LongBreak => 15
  }

  /** A snapshot of the page's five state fields. */
  datatype Clock = Clock(minutes: int, seconds: int, isActive: bool, mode: Mode, sessionsCompleted: nat)

  /** The time left, in seconds. */
  function Total(c: Clock): int {
    c.minutes * 60 + c.seconds
  }

  /** The shape every reachable clock keeps: a seconds field of 0..59 and never more than a full mode left. */
  predicate Valid(c: Clock) {
    0 <= c.seconds <= 59 && 0 <= c.minutes && Total(c) <= Duration(c.mode) * 60
  }

  /** The page as it loads: 25:00 of work, stopped, no sessions completed. */
  const Start := Clock(25, 0, false, Work, 0)

  /** The interval updater, run once a second while the timer is active. */
  function Countdown(c: Clock): Clock {
    if c.seconds == 0 then
      if c.minutes == 0 then
        if c.mode == Work then
          var next := if (c.sessionsCompleted + 1) % 4 == 0 then LongBreak else ShortBreak;
          Clock(Duration(next), 0, false, next, c.sessionsCompleted + 1)
        else
          Clock(Duration(Work), 0, false, Work, c.sessionsCompleted)
      else c.(minutes := c.minutes - 1, seconds := 59)
    else c.(seconds := c.seconds - 1)
  }

  /** One second of wall time: the interval only exists while the timer is active. */
  function Elapse(c: Clock): Clock {
    if c.isActive then Countdown(c) else c
  }

  /** `k` seconds of wall time. */
  function Run(c: Clock, k: nat): Clock
    decreases k
  {
    if k == 0 then c else Run(Elapse(c), k - 1)
  }

  /** `toggleTimer`: start or pause. */
  function Toggle(c: Clock): (r: Clock)
    ensures r.isActive != c.isActive
    ensures r.(isActive := c.isActive) == c
  {
    c.(isActive := !c.isActive)
  }

  /** `resetTimer`: stop and rewind the current mode to its full length. */
  function Reset(c: Clock): (r: Clock)
    ensures !r.isActive && r.seconds == 0 && Total(r) == Duration(c.mode) * 60
    ensures r.mode == c.mode && r.sessionsCompleted == c.sessionsCompleted
    ensures Valid(r)
  {
    c.(isActive := false, minutes := Duration(c.mode), seconds := 0)
  }

  /** `switchMode`: stop and load the full length of another mode. */
  function Switch(c: Clock, m: Mode): (r: Clock)
    ensures !r.isActive && r.mode == m && r.seconds == 0 && Total(r) == Duration(m) * 60
    ensures r.sessionsCompleted == c.sessionsCompleted
    ensures Valid(r)
  {
    c.(isActive := false, mode := m, minutes := Duration(m), seconds := 0)
  }

  /** The starting clock has the shape. */
  lemma StartValid()
    ensures Valid(Start) && Total(Start) == 25 * 60
  {
  }

  /** Every tick keeps the shape. */
  lemma CountdownValid(c: Clock)
    requires Valid(c)
    ensures Valid(Countdown(c)) && Valid(Elapse(c))
  {
  }

  /** Before expiry a tick takes exactly one second off and changes nothing else. */
  lemma CountdownDrops(c: Clock)
    requires Valid(c) && Total(c) > 0
    ensures Total(Countdown(c)) == Total(c) - 1
    ensures Countdown(c).mode == c.mode && Countdown(c).isActive == c.isActive
    ensures Countdown(c).sessionsCompleted == c.sessionsCompleted
  {
  }

  /**
   * A work session that runs out stops the timer, counts one more session
   * and loads a full break, which is the long one exactly when the
   * completed sessions are a multiple of four.
   */
  lemma WorkExpires(c: Clock)
    requires Valid(c) && Total(c) == 0 && c.mode == Work
    ensures var r := Countdown(c);
      !r.isActive && r.sessionsCompleted == c.sessionsCompleted + 1 && r.mode != Work &&
      (r.mode == LongBreak <==> r.sessionsCompleted % 4 == 0) &&
      r.seconds == 0 && Total(r) == Duration(r.mode) * 60
  {
  }

  /** A break that runs out stops the timer and loads 25:00 of work; sessions are unchanged. */
  lemma BreakExpires(c: Clock)
    requires Valid(c) && Total(c) == 0 && c.mode != Work
    ensures var r := Countdown(c);
      !r.isActive && r.mode == Work && r.sessionsCompleted == c.sessionsCompleted &&
      r.seconds == 0 && Total(r) == 25 * 60
  {
  }

  /** While time is left, `k` seconds of a running timer take off exactly `k` seconds. */
  lemma {:induction false} RunDown(c: Clock, k: nat)
    requires Valid(c) && c.isActive && k <= Total(c)
    ensures var r := Run(c, k);
      Valid(r) && r.isActive && r.mode == c.mode && r.sessionsCompleted == c.sessionsCompleted &&
      Total(r) == Total(c) - k
    decreases k
  {
    if k > 0 {
      CountdownValid(c);
      CountdownDrops(c);
      RunDown(Elapse(c), k - 1);
    }
  }

  /**
   * A mode started at its full length shows 0:00 after exactly that many
   * seconds and expires on the next one: a work session that completes
   * session `n + 1` lasts 25 * 60 + 1 ticks.
   */
  lemma WorkSessionLength(n: nat)
    ensures var c := Clock(25, 0, true, Work, n);
      Total(Run(c, 25 * 60)) == 0 && Run(c, 25 * 60).isActive &&
      !Run(c, 25 * 60 + 1).isActive && Run(c, 25 * 60 + 1).sessionsCompleted == n + 1
  {
    var c := Clock(25, 0, true, Work, n);
    RunDown(c, 25 * 60);
    RunAppend(c, 25 * 60);
    WorkExpires(Run(c, 25 * 60));
  }

  /** One more second after `k`. */
  lemma {:induction false} RunAppend(c: Clock, k: nat)
    ensures Run(c, k + 1) == Elapse(Run(c, k))
    decreases k
  {
    if k > 0 {
      RunAppend(Elapse(c), k - 1);
    }
  }

  /** The page's state, updated in place by its handlers. */
  class Pomodoro {
    var minutes: int
    var seconds: int
    var isActive: bool
    var mode: Mode
    var sessionsCompleted: nat

    function View(): Clock
      reads this
    {
      Clock(minutes, seconds, isActive, mode, sessionsCompleted)
    }

    constructor()
      ensures View() == Start && Valid(View())
    {
      minutes := 25;
      seconds := 0;
      isActive := false;
      mode := Work;
      sessionsCompleted := 0;
    }

    /** One firing of the one-second interval; it only exists while the timer is active. */
    method Tick()
      requires Valid(View())
      modifies this
      ensures View() == Elapse(old(View())) && Valid(View())
    {
      CountdownValid(View());
      if !isActive {
        return;
      }
      if seconds == 0 {
        if minutes == 0 {
          isActive := false;
          if mode == Work {
            var next := if (sessionsCompleted + 1) % 4 == 0 then LongBreak else ShortBreak;
            sessionsCompleted := sessionsCompleted + 1;
            mode := next;
            minutes := Duration(next);
          } else {
            mode := Work;
            minutes := Duration(Work);
          }
          seconds := 0;
        } else {
          minutes := minutes - 1;
          seconds := 59;
        }
      } else {
        seconds := seconds - 1;
      }
    }

    method ToggleTimer()
      requires Valid(View())
      modifies this
      ensures View() == Toggle(old(View())) && Valid(View())
    {
      isActive := !isActive;
    }

    method ResetTimer()
      modifies this
      ensures View() == Reset(old(View())) && Valid(View())
    {
      isActive := false;
      minutes := Duration(mode);
      seconds := 0;
    }

    method SwitchMode(newMode: Mode)
      modifies this
      ensures View() == Switch(old(View()), newMode) && Valid(View())
    {
      isActive := false;
      mode := newMode;
      minutes := Duration(newMode);
      seconds := 0;
    }
  }
}
