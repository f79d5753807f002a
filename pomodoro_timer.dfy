/**
 * The focus/break timer component: one seconds countdown that alternates
 * between a 25-minute focus session and a 5-minute break, and its `m:ss`
 * display.
 */
module PomodoroTimer {
  /** Focus session length in seconds. */
  const FOCUS: nat := 25 * 60
  /** Break length in seconds. */
  const BREAK: nat := 5 * 60

  // ---------------------------------------------------------------------
  // The display format

  /** The decimal digit character of `d`. */
  function DigitChar(d: nat): (c: char)
    requires d < 10
    ensures '0' <= c <= '9'
  {
    ('0' as int + d) as char
  }

  /** `Number.prototype.toString` for a natural number: decimal, no leading zeros. */
  function Decimal(n: nat): (s: string)
    ensures |s| >= 1
    ensures n < 10 <==> |s| == 1
    ensures forall i :: 0 <= i < |s| ==> '0' <= s[i] <= '9'
  {
    if n < 10 then [DigitChar(n)] else Decimal(n / 10) + [DigitChar(n % 10)]
  }

  /** The number a string of decimal digits denotes; the reading half of the round trip. */
  function DigitsValue(s: string): nat
    requires forall i :: 0 <= i < |s| ==> '0' <= s[i] <= '9'
  {
    if s == [] then 0 else DigitsValue(s[..|s| - 1]) * 10 + (s[|s| - 1] as int - '0' as int)
  }

  /** `padStart(2, '0')` on a string of one or two characters. */
  function PadTwo(s: string): (r: string)
    requires 1 <= |s| <= 2
    ensures |r| == 2
  {
    if |s| < 2 then "0" + s else s
  }

  /** `format(sec)`: whole minutes, a colon, and the leftover seconds as two digits. */
  function Format(sec: nat): string {
    Decimal(sec / 60) + ":" + PadTwo(Decimal(sec % 60))
  }

  /** Reading a number's decimal form back gives the number. */
  lemma {:induction false} DecimalRoundTrip(n: nat)
    ensures DigitsValue(Decimal(n)) == n
  {
    if n >= 10 {
      DecimalRoundTrip(n / 10);
      var s := Decimal(n);
      assert s[..|s| - 1] == Decimal(n / 10);
    }
  }

  /**
   * `format(sec)` splits at the colon three characters from the end into a
   * minutes part and a two-digit seconds part below 60, and
   * minutes * 60 + seconds reads back as `sec`.
   */
  lemma FormatRoundTrip(sec: nat)
    ensures var f := Format(sec);
      |f| >= 4 && f[|f| - 3] == ':' &&
      (forall i :: 0 <= i < |f| && i != |f| - 3 ==> '0' <= f[i] <= '9') &&
      DigitsValue(f[|f| - 2..]) < 60 &&
      DigitsValue(f[..|f| - 3]) * 60 + DigitsValue(f[|f| - 2..]) == sec
  {
    var m := Decimal(sec / 60);
    var s := Decimal(sec % 60);
    var f := Format(sec);
    assert f == m + [':'] + PadTwo(s);
    assert f[..|f| - 3] == m;
    assert f[|f| - 2..] == PadTwo(s);
    DecimalRoundTrip(sec / 60);
    DecimalRoundTrip(sec % 60);
    if |s| < 2 {
      var p := PadTwo(s);
      assert p[..1] == "0";
      assert DigitsValue(p) == DigitsValue(s);
    }
  }

  // ---------------------------------------------------------------------
  // The countdown

  /** The full length of the current kind of session. */
  function Full(isFocus: bool): (n: nat)
    ensures n == FOCUS || n == BREAK
  {
    if isFocus then FOCUS else BREAK
  }

  /**
   * A snapshot of the component's state; `pending` holds the session
   * switches scheduled but not yet fired, each with the `isFocus` value it
   * captured.
   */
  datatype Session = Session(isFocus: bool, seconds: int, running: bool, pending: seq<bool>)

  /** The component as it mounts: a full focus session, stopped. */
  const Start := Session(true, FOCUS, false, [])

  /** The shape every reachable state keeps: the countdown stays within 0..FOCUS. */
  predicate Valid(v: Session) {
    0 <= v.seconds <= FOCUS
  }

  /**
   * The interval updater, run once a second while running: above one second
   * it counts down; otherwise it reads 0 and schedules a session switch one
   * second later.
   */
  function Countdown(v: Session): Session {
    if !v.running then v
    else if v.seconds > 1 then v.(seconds := v.seconds - 1)
    else v.(seconds := 0, pending := v.pending + [v.isFocus])
  }

  /** `k` seconds of wall time. */
  function Run(v: Session, k: nat): Session
    decreases k
  {
    if k == 0 then v else Run(Countdown(v), k - 1)
  }

  /**
   * The scheduled switch firing: `isFocus` flips from its current value and
   * the countdown loads the length that follows the session the switch was
   * scheduled in.
   */
  function Switch(v: Session, j: nat): (r: Session)
    requires j < |v.pending|
    ensures |r.pending| == |v.pending| - 1
    ensures r.isFocus != v.isFocus && r.running == v.running
    ensures r.seconds == if v.pending[j] then BREAK else FOCUS
  {
    v.(isFocus := !v.isFocus, seconds := if v.pending[j] then BREAK else FOCUS,
       pending := v.pending[..j] + v.pending[j + 1..])
  }

  /** The start/pause button. */
  function Toggle(v: Session): (r: Session)
    ensures r.running != v.running
    ensures r.(running := v.running) == v
  {
    v.(running := !v.running)
  }

  /** The reset button: stop and rewind the current kind of session to its full length. */
  function Reset(v: Session): (r: Session)
    ensures !r.running && r.isFocus == v.isFocus && r.pending == v.pending
    ensures r.seconds == (if v.isFocus then FOCUS else BREAK)
    ensures Valid(r)
  {
    v.(running := false, seconds := Full(v.isFocus))
  }

  /**
   * The countdown never goes below zero nor above a focus session; while
   * running it strictly falls until it reads 0, and it never rises.
   */
  lemma CountdownValid(v: Session)
    requires Valid(v)
    ensures Valid(Countdown(v))
    ensures Countdown(v).seconds <= v.seconds
    ensures v.running && v.seconds > 0 ==> Countdown(v).seconds < v.seconds
    ensures Countdown(v).isFocus == v.isFocus && Countdown(v).running == v.running
  {
  }

  /** A switch loads a full session, which keeps the shape. */
  lemma SwitchValid(v: Session, j: nat)
    requires j < |v.pending|
    ensures Valid(Switch(v, j))
  {
  }

  /** Above the last second, `k` seconds of a running countdown take `k` off and schedule nothing. */
  lemma {:induction false} RunDown(v: Session, k: nat)
    requires v.running && k < v.seconds
    ensures Run(v, k) == v.(seconds := v.seconds - k)
    decreases k
  {
    if k > 0 {
      RunDown(Countdown(v), k - 1);
    }
  }

  /** One more second after `k`. */
  lemma {:induction false} RunAppend(v: Session, k: nat)
    ensures Run(v, k + 1) == Countdown(Run(v, k))
    decreases k
  {
    if k > 0 {
      RunAppend(Countdown(v), k - 1);
    }
  }

  /**
   * A running session with `n` seconds left reaches 0 after exactly `n`
   * seconds, and only then schedules one switch, for the session it ends.
   */
  lemma SessionEnds(v: Session)
    requires v.running && v.seconds >= 1
    ensures Run(v, v.seconds) == v.(seconds := 0, pending := v.pending + [v.isFocus])
  {
    RunDown(v, v.seconds - 1);
    RunAppend(v, v.seconds - 1);
  }

  /**
   * The switch scheduled by the session in progress starts the other kind
   * of session at its full length: a finished focus session is followed by
   * 300 seconds of break and a finished break by 1500 seconds of focus.
   */
  lemma SwitchStartsNext(v: Session, j: nat)
    requires j < |v.pending| && v.pending[j] == v.isFocus
    ensures Switch(v, j).isFocus == !v.isFocus
    ensures Switch(v, j).seconds == Full(!v.isFocus)
  {
  }

  /** A focus session run from the start is followed by a full break. */
  lemma FocusThenBreak()
    ensures var v := Run(Toggle(Start), FOCUS);
      v.seconds == 0 && v.pending == [true] &&
      Switch(v, 0) == Session(false, BREAK, true, [])
  {
    SessionEnds(Toggle(Start));
  }

  /** The component's state, updated in place by the interval, its timeout and the buttons. */
  class Timer {
    var isFocus: bool
    var seconds: int
    var running: bool
    var pending: seq<bool>

    function View(): Session
      reads this
    {
      Session(isFocus, seconds, running, pending)
    }

    constructor()
      ensures View() == Start && Valid(View())
    {
      isFocus := true;
      seconds := FOCUS;
      running := false;
      pending := [];
    }

    /** One firing of the one-second interval; it only exists while running. */
    method Tick()
      requires Valid(View())
      modifies this
      ensures View() == Countdown(old(View())) && Valid(View())
    {
      if !running {
        return;
      }
      if seconds > 1 {
        seconds := seconds - 1;
      } else {
        pending := pending + [isFocus];
        seconds := 0;
      }
    }

    /** The pending switch `j` fires. */
    method FireSwitch(j: nat)
      requires j < |pending|
      modifies this
      ensures View() == Switch(old(View()), j) && Valid(View())
    {
      var wasFocus := pending[j];
      pending := pending[..j] + pending[j + 1..];
      isFocus := !isFocus;
      seconds := if wasFocus then BREAK else FOCUS;
    }

    method ToggleRunning()
      requires Valid(View())
      modifies this
      ensures View() == Toggle(old(View())) && Valid(View())
    {
      running := !running;
    }

    method ResetSession()
      modifies this
      ensures View() == Reset(old(View())) && Valid(View())
    {
      running := false;
      seconds := if isFocus then FOCUS else BREAK;
    }
  }
}
