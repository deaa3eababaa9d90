/**
 * The admin pages' inactivity countdown. The page keeps the remaining seconds, a
 * one-second interval that calls the display update, a warning modal and a
 * dashboard read-out. The DOM and timers are abstracted into events: a tick of
 * the interval, a reset (page load, user activity, a successful ping) and the
 * outcome of the "stay logged in" ping.
 */
module AdminTimer {
  import opened Wrappers
  import opened Text

  /** SESSION_TIMEOUT_MINUTES * 60. */
  const TimeoutSeconds: int := 15 * 60

  /** WARNING_TIME_SECONDS: the modal shows from two minutes before the end. */
  const WarningSeconds: int := 120

  // ---------------------------------------------------------------------------
  // The MM:SS read-out
  // ---------------------------------------------------------------------------

  /** The decimal digits of n, without leading zeros. */
  function Decimal(n: nat): (s: string)
    ensures |s| > 0 && AllDigits(s)
    ensures n < 10 <==> |s| == 1
  {
    if n < 10 then [DigitChar(n)] else Decimal(n / 10) + [DigitChar(n % 10)]
  }

  /** Number.prototype.toString() on an integer. */
  function JsString(i: int): string {
    if i < 0 then "-" + Decimal(-i) else Decimal(i)
  }

  /** String.prototype.padStart(2, "0"). */
  function PadStart2(t: string): (s: string)
    ensures |s| == if |t| < 2 then 2 else |t|
  {
    if |t| == 0 then "00" else if |t| == 1 then "0" + t else t
  }

  /** JavaScript's `%`, whose remainder takes the sign of the dividend. */
  function JsRem(a: int, b: int): int
    requires b > 0
  {
    if a >= 0 then a % b else -((-a) % b)
  }

  /** `${minutes}:${seconds}` with minutes = floor(r / 60) and seconds = r % 60, each padded. */
  function FormatCountdown(r: int): (s: string)
    ensures |s| >= 5
  {
    PadStart2(JsString(r / 60)) + ":" + PadStart2(JsString(JsRem(r, 60)))
  }

  /** Reading digits back gives the number they were written for. */
  lemma {:induction false} DecimalRoundTrip(n: nat)
    ensures DigitsValue(Decimal(n)) == n
    decreases n
  {
    if n >= 10 {
      DecimalRoundTrip(n / 10);
      var s := Decimal(n);
      assert s[..|s| - 1] == Decimal(n / 10);
    }
  }

  /** Two-digit text of a number below 100. */
  lemma Pad2Exact(n: nat)
    requires n < 100
    ensures |PadStart2(JsString(n))| == 2 && AllDigits(PadStart2(JsString(n)))
    ensures DigitsValue(PadStart2(JsString(n))) == n
  {
    DecimalRoundTrip(n);
    if n < 10 {
      var t := Decimal(n);
      var p := "0" + t;
      assert p[..1] == "0";
      assert DigitsValue(p) == 10 * DigitsValue(p[..1]) + DigitValue(p[1]);
      assert DigitsValue(p[..1]) == 10 * DigitsValue(p[..0]) + DigitValue(p[0]);
    } else {
      assert n / 10 < 10;
    }
  }

  /**
   * For every countdown value the page can show (0 to 900 seconds), the read-out is five
   * characters "MM:SS" whose two numbers give back the minutes and seconds.
   */
  lemma CountdownShape(r: int)
    requires 0 <= r < 6000
    ensures var t := FormatCountdown(r);
      && |t| == 5 && t[2] == ':' && AllDigits(t[..2]) && AllDigits(t[3..])
      && DigitsValue(t[..2]) == r / 60 && DigitsValue(t[3..]) == r % 60
      && 60 * DigitsValue(t[..2]) + DigitsValue(t[3..]) == r
  {
    Pad2Exact(r / 60);
    Pad2Exact(r % 60);
    var t := FormatCountdown(r);
    assert t[..2] == PadStart2(JsString(r / 60));
    assert t[3..] == PadStart2(JsString(JsRem(r, 60)));
  }

  // ---------------------------------------------------------------------------
  // The page's state and its events, as values
  // ---------------------------------------------------------------------------

  /**
   * remainingSeconds; whether the interval is running; whether the modal is displayed and
   * the number it last showed; the dashboard read-out (None until the first tick); whether
   * logout() has been called.
   */
  datatype TimerState = TimerState(remaining: int, running: bool, modalShown: bool, modalCount: int,
                                   display: Option<string>, loggedOut: bool)

  /** What the live page keeps true: the interval runs exactly while time is left, and it is
      only ever stopped by a logout. */
  predicate Live(s: TimerState) {
    -1 <= s.remaining <= TimeoutSeconds && (s.running <==> s.remaining >= 0) && (!s.running ==> s.loggedOut)
  }

  /** resetTimers(): restart the interval, hide the modal, the full 900 seconds again. */
  function ResetState(s: TimerState): (t: TimerState)
    ensures Live(s) ==> Live(t)
    ensures t.remaining == TimeoutSeconds && t.running && !t.modalShown
    ensures t.modalCount == s.modalCount && t.display == s.display && t.loggedOut == s.loggedOut
  {
    s.(remaining := TimeoutSeconds, running := true, modalShown := false)
  }

  /**
   * updateDisplays(): show the read-out, show the modal with the count when at most 120
   * seconds remain (hide it otherwise), log out and stop the interval at 0 or below, then
   * count one second down.
   */
  function TickState(s: TimerState): (t: TimerState)
    ensures s.running && Live(s) ==> Live(t)
    ensures t.remaining == s.remaining - 1
    ensures t.display == Some(FormatCountdown(s.remaining))
    ensures t.modalShown <==> s.remaining <= WarningSeconds
    ensures t.modalShown ==> t.modalCount == s.remaining
    ensures !t.modalShown ==> t.modalCount == s.modalCount
    ensures t.running <==> s.running && s.remaining > 0
    ensures t.loggedOut <==> s.loggedOut || s.remaining <= 0
  {
    var shown := s.remaining <= WarningSeconds;
    var stop := s.remaining <= 0;
    s.(remaining := s.remaining - 1,
       running := s.running && !stop,
       modalShown := shown,
       modalCount := if shown then s.remaining else s.modalCount,
       display := Some(FormatCountdown(s.remaining)),
       loggedOut := s.loggedOut || stop)
  }

  /** How the "stay logged in" ping ended: res.ok, a non-ok answer, or a rejected fetch. */
  datatype PingResult = PingOk | PingRefused | NetworkError

  /** The ping's effect: an ok answer resets, a refused one logs out, a network error changes
      nothing (an alert aside). */
  function PingState(s: TimerState, result: PingResult): (t: TimerState)
    ensures Live(s) ==> Live(t)
    ensures result == PingOk ==> t == ResetState(s)
    ensures result == PingRefused ==> t == s.(loggedOut := true)
    ensures result == NetworkError ==> t == s
  {
    match result
    case PingOk => ResetState(s)
    case PingRefused => s.(loggedOut := true)
    case NetworkError => s
  }

  /** The window events that count as activity. */
  datatype Activity = Click | MouseMove | KeyPress | Scroll

  /** n ticks of the interval; once the interval is cleared no further tick arrives. */
  function Ticks(s: TimerState, n: nat): TimerState
    decreases n
  {
    if n == 0 || !s.running then s else Ticks(TickState(s), n - 1)
  }

  /** While time is left each tick takes exactly one second off and nobody is logged out. */
  lemma {:induction false} TicksCountDown(s: TimerState, n: nat)
    requires s.running && n <= s.remaining
    ensures Ticks(s, n).remaining == s.remaining - n
    ensures Ticks(s, n).running
    ensures Ticks(s, n).loggedOut == s.loggedOut
    decreases n
  {
    if n > 0 {
      TicksCountDown(TickState(s), n - 1);
    }
  }

  /** Ticks compose: n ticks and then m more are n + m ticks. */
  lemma {:induction false} TicksAdd(s: TimerState, n: nat, m: nat)
    ensures Ticks(Ticks(s, n), m) == Ticks(s, n + m)
    decreases n
  {
    if n > 0 && s.running {
      TicksAdd(TickState(s), n - 1, m);
    }
  }

  /**
   * With no activity after a reset the first 900 ticks keep the session, and the 901st
   * (the one that finds 0 seconds left) logs out and stops the interval.
   */
  lemma IdleLogout(s: TimerState)
    requires !s.loggedOut
    ensures var r := ResetState(s);
      && !Ticks(r, 900).loggedOut && Ticks(r, 900).running && Ticks(r, 900).remaining == 0
      && Ticks(r, 901).loggedOut && !Ticks(r, 901).running
  {
    var r := ResetState(s);
    TicksCountDown(r, 900);
    TicksAdd(r, 900, 1);
    assert Ticks(Ticks(r, 900), 1) == Ticks(TickState(Ticks(r, 900)), 0);
  }

  /** The modal is up after a tick exactly when that tick found at most 120 seconds left:
      after a reset it first appears on the 781st tick. */
  lemma ModalFirstAppears(s: TimerState)
    ensures var r := ResetState(s);
      && !Ticks(r, 780).modalShown && Ticks(r, 781).modalShown
  {
    var r := ResetState(s);
    TicksCountDown(r, 779);
    TicksAdd(r, 779, 1);
    TicksAdd(r, 780, 1);
    assert Ticks(Ticks(r, 779), 1) == Ticks(TickState(Ticks(r, 779)), 0);
    TicksCountDown(r, 780);
    assert Ticks(Ticks(r, 780), 1) == Ticks(TickState(Ticks(r, 780)), 0);
  }

  // ---------------------------------------------------------------------------
  // The page script
  // ---------------------------------------------------------------------------

  /** The page's variables, updated in place by the event handlers. */
  class SessionTimer {
    var remainingSeconds: int
    var running: bool
    var modalShown: bool
    var modalCount: int
    var display: Option<string>
    var loggedOut: bool

    function State(): TimerState
      reads this
    {
      TimerState(remainingSeconds, running, modalShown, modalCount, display, loggedOut)
    }

    ghost predicate Valid()
      reads this
    {
      Live(State())
    }

    /** Page load: remainingSeconds starts at 900 and resetTimers() runs once. */
    constructor()
      ensures Valid()
      ensures State() == ResetState(TimerState(TimeoutSeconds, false, false, 0, None, false))
    {
      remainingSeconds := TimeoutSeconds;
      running := true;
      modalShown := false;
      modalCount := 0;
      display := None;
      loggedOut := false;
    }

    /** resetTimers(). */
    method Reset()
      modifies this
      ensures State() == ResetState(old(State()))
      ensures old(Valid()) ==> Valid()
    {
      remainingSeconds := TimeoutSeconds;
      running := true;
      modalShown := false;
    }

    /** One call of updateDisplays() by the running interval. */
    method Tick()
      requires running
      modifies this
      ensures State() == TickState(old(State()))
      ensures old(Valid()) ==> Valid()
    {
      display := Some(FormatCountdown(remainingSeconds));
      if remainingSeconds <= WarningSeconds {
        modalShown := true;
        modalCount := remainingSeconds;
      } else {
        modalShown := false;
      }
      if remainingSeconds <= 0 {
        running := false;
        loggedOut := true;
      }
      remainingSeconds := remainingSeconds - 1;
    }

    /** The end of stayLoggedIn()'s fetch. */
    method Ping(result: PingResult)
      modifies this
      ensures State() == PingState(old(State()), result)
      ensures old(Valid()) ==> Valid()
    {
      match result {
        case PingOk => Reset();
        case PingRefused => loggedOut := true;
        case NetworkError =>
      }
    }

    /** A click, mousemove, keypress or scroll anywhere in the window. */
    method OnActivity(event: Activity)
      modifies this
      ensures State() == ResetState(old(State()))
      ensures old(Valid()) ==> Valid()
    {
      Reset();
    }
  }
}
