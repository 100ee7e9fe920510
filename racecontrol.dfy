/** Race control's countdown and panel rules: the clock that `startTimer`, the
    interval tick, `stopTimer` and `timeExpired` drive, the button rule, the
    race-mode buttons, and the session fallback. The page object is
    `RaceControlPage.RaceControlPanel`. */
module RaceControl {
  import opened Strings
  import opened Js
  import opened Sorting
  import opened Sessions
  import opened Format
  import LapLine

  /** `raceActive`, `timeLeft`, and whether the countdown interval is running. */
  datatype Clock = Clock(active: bool, timeLeft: int, ticking: bool)

  /** The race is active exactly while the countdown runs. */
  predicate Coherent(c: Clock) {
    c.active == c.ticking
  }

  /** `startTimer(duration)`: nothing without a current session; otherwise the
      countdown restarts from `duration`. */
  function StartClock(c: Clock, hasSession: bool, duration: int): (r: Clock)
    ensures !hasSession ==> r == c
    ensures hasSession ==> r.active && r.ticking && r.timeLeft == duration
  {
    if hasSession then Clock(true, duration, true) else c
  }

  /** One run of the interval callback: one second off, and the race expires
      once the time left is no longer positive. Without a running interval
      nothing happens. */
  function Step(c: Clock): (r: Clock)
    ensures !c.ticking ==> r == c
    ensures c.ticking ==> r.timeLeft == c.timeLeft - 1
    ensures c.ticking ==> (r.ticking <==> r.timeLeft > 0)
    ensures c.ticking && r.timeLeft <= 0 ==> !r.active
    ensures c.ticking && r.timeLeft > 0 ==> r.active == c.active
  {
    if !c.ticking then c
    else if c.timeLeft - 1 <= 0 then Clock(false, c.timeLeft - 1, false)
    else c.(timeLeft := c.timeLeft - 1)
  }

  /** `stopTimer()`: the race stops and the time left stays where it was. */
  function StopClock(c: Clock): (r: Clock)
    ensures !r.active && !r.ticking && r.timeLeft == c.timeLeft
  {
    Clock(false, c.timeLeft, false)
  }

  /** Every operation keeps the race active exactly while the countdown runs. */
  lemma CoherentKept(c: Clock, hasSession: bool, duration: int)
    requires Coherent(c)
    ensures Coherent(StartClock(c, hasSession, duration))
    ensures Coherent(Step(c))
    ensures Coherent(StopClock(c))
  {
  }

  /** The clock after `n` ticks. */
  function Run(c: Clock, n: nat): Clock {
    if n == 0 then c else Step(Run(c, n - 1))
  }

  /** Started from a positive `duration`, the countdown shows `duration - k`
      after `k` ticks, expires at exactly `duration` ticks with no time left,
      and does not move afterwards. */
  lemma {:induction false} Countdown(duration: int, k: nat)
    requires duration > 0
    ensures Run(Clock(true, duration, true), k)
            == if k < duration then Clock(true, duration - k, true) else Clock(false, 0, false)
  {
    if k > 0 {
      Countdown(duration, k - 1);
    }
  }

  /** The Start button's `startTimer(300)`: five minutes, over after 300 ticks.
      `startTimer` does not redraw the panel, so the first text the display
      shows is that of the first tick, 04:59, and the last is 00:00; the 300
      seconds would format as 05:00, which the panel never shows. */
  lemma StartButtonRunsFiveMinutes()
    ensures Run(StartClock(Clock(false, 0, false), true, 300), 1) == Clock(true, 299, true)
    ensures Run(StartClock(Clock(false, 0, false), true, 300), 299) == Clock(true, 1, true)
    ensures Run(StartClock(Clock(false, 0, false), true, 300), 300) == Clock(false, 0, false)
    ensures MinSec(299) == "04:59" && MinSec(0) == "00:00" && MinSec(300) == "05:00"
  {
    Countdown(300, 1);
    Countdown(300, 299);
    Countdown(300, 300);
    FiveMinuteTexts();
  }

  /** The display texts of the Start button's run. */
  lemma FiveMinuteTexts()
    ensures MinSec(299) == "04:59" && MinSec(0) == "00:00" && MinSec(300) == "05:00"
  {
    FirstTickText();
    LastTickText();
    StartText();
  }

  lemma FirstTickText()
    ensures MinSec(299) == "04:59"
  {
    assert 299 / 60 == 4 && JsRem(299, 60) == 59;
    assert IntToString(4) == "4";
    assert Digits(59) == Digits(5) + [DigitChar(9)];
    assert IntToString(59) == "59";
    assert PadStart("4", 2, '0') == "04" by {
      assert Repeat('0', 1) == "0";
    }
  }

  lemma LastTickText()
    ensures MinSec(0) == "00:00"
  {
    assert 0 / 60 == 0 && JsRem(0, 60) == 0;
    assert IntToString(0) == "0";
    assert PadStart("0", 2, '0') == "00" by {
      assert Repeat('0', 1) == "0";
    }
  }

  lemma StartText()
    ensures MinSec(300) == "05:00"
  {
    assert 300 / 60 == 5 && JsRem(300, 60) == 0;
    assert IntToString(5) == "5" && IntToString(0) == "0";
    assert PadStart("5", 2, '0') == "05" && PadStart("0", 2, '0') == "00" by {
      assert Repeat('0', 1) == "0";
    }
  }

  /** The `disabled` flags of the start, stop and emergency buttons. */
  datatype Buttons = Buttons(startDisabled: bool, stopDisabled: bool, emergencyDisabled: bool)

  /** `updateButtonStates()` */
  function ButtonsFor(active: bool): (r: Buttons)
    ensures r.startDisabled <==> active
    ensures r.stopDisabled <==> !active
    ensures r.emergencyDisabled == r.stopDisabled
  {
    Buttons(active, !active, !active)
  }

  /** Exactly one of start and stop can be pressed. */
  lemma OneButtonEnabled(active: bool)
    ensures ButtonsFor(active).startDisabled != ButtonsFor(active).stopDisabled
  {
  }

  /** The timer status line. */
  function StatusText(active: bool): string {
    if active then "Time Remaining" else "Race Timer"
  }

  /** The four race-mode buttons. */
  datatype ModeButton = SafeButton | HazardButton | DangerButton | FinishButton

  /** The mode string each button passes to `setRaceMode`. */
  function ButtonMode(b: ModeButton): string {
    match b
    case SafeButton => "safe"
    case HazardButton => "hazard"
    case DangerButton => "danger"
    case FinishButton => "finish"
  }

  /** `mode.toUpperCase()`: the mode race control stores and shows. */
  function StoredMode(b: ModeButton): (r: string)
    ensures r in {"SAFE", "HAZARD", "DANGER", "FINISH"}
    ensures r == ToUpper(ButtonMode(b))
  {
    assert ToUpper("safe") == "SAFE";
    assert ToUpper("hazard") == "HAZARD";
    assert ToUpper("danger") == "DANGER";
    assert ToUpper("finish") == "FINISH";
    ToUpper(ButtonMode(b))
  }

  /** Were the lower-case mode that race control sends in `race-mode-change`
      relayed to the lap-line tracker (the server relays nothing), the
      tracker's handler would read it as the mode race control stores, and
      laps would be allowed there exactly in the safe and hazard modes. */
  lemma ModesAgree(b: ModeButton)
    ensures LapLine.ModeOf(Text(ButtonMode(b))) == StoredMode(b)
    ensures LapLine.LapAllowed(true, StoredMode(b)) <==> b == SafeButton || b == HazardButton
  {
    LapLine.LowercaseModes();
  }

  /** The session made up when the snapshot is empty; `now` stands for
      `Date.now()`. */
  function TestSession(now: int): Session {
    Session(Text("test-session-" + IntToString(now)), Text("Test Race Session"),
            [DriverSnap(Text("Test Driver 1"), Num(1), Undefined, Undefined),
             DriverSnap(Text("Test Driver 2"), Num(2), Undefined, Undefined)],
            Undefined)
  }

  /** The session list race control keeps: the snapshot, or the test session
      when the snapshot is empty. */
  function WithFallback(ss: seq<Session>, now: int): (r: seq<Session>)
    ensures |r| > 0
    ensures ss != [] ==> r == ss
    ensures ss == [] ==> |r| == 1 && HasDrivers(r[0]) && r[0].name == Text("Test Race Session")
  {
    if ss == [] then [TestSession(now)] else ss
  }

  /** `currentSession?.id` */
  function SessionIdOf(cs: Option<Session>): Scalar {
    if cs.Some? then cs.value.id else Undefined
  }

  /** `updateDriverBriefing()`: one line per driver in driver order, or a note
      when there are none. */
  function Briefing(ds: seq<DriverSnap>): (r: seq<string>)
    ensures ds == [] ==> r == ["No drivers assigned"]
    ensures ds != [] ==> |r| == |ds| && forall i :: 0 <= i < |ds| ==> r[i] == DriverLine(ds[i])
  {
    if ds == [] then ["No drivers assigned"] else Map(ds, DriverLine)
  }

  /** `currentSession?.name || 'No session selected'` */
  function SessionText(cs: Option<Session>): (r: string)
    ensures cs.None? ==> r == "No session selected"
    ensures cs.Some? && Truthy(cs.value.name) ==> r == ToStr(cs.value.name)
    ensures cs.Some? && !Truthy(cs.value.name) ==> r == "No session selected"
  {
    ToStr(Or(if cs.Some? then cs.value.name else Undefined, Text("No session selected")))
  }

  /** `${(currentSession?.drivers || []).length}/8 drivers` */
  function DriverCountText(cs: Option<Session>): string {
    IntToString(if cs.Some? then |cs.value.drivers| else 0) + "/8 drivers"
  }
}

/** The race-control page: its module-level variables and the handlers that
    reassign them. */
module RaceControlPage {
  import opened Js
  import opened Sessions
  import opened Format
  import opened RaceControl

  /** What race control sends to the server. */
  datatype ControlEmit =
    | RaceStarted(sessionId: Scalar)
    | RaceStopped(sessionId: Scalar)
    | RaceCompleted(sessionId: Scalar)
    | RaceModeChange(mode: string, sessionId: Scalar)

  /** What the page shows. The timer text is `MinSec(timerSeconds)`; the
      `00:00` that `initializeTimer` and `timeExpired` write is `MinSec(0)`. */
  datatype Panel = Panel(timerSeconds: int, timerStatus: string, modeText: string,
                         sessionText: string, driverCountText: string, briefing: seq<string>)

  class RaceControlPanel {
    var latestSessions: seq<Session>
    var currentSession: Option<Session>
    var raceActive: bool
    var timeLeft: int
    /** `timerInterval` is set and not cleared. */
    var ticking: bool
    var raceStartTime: Scalar
    var currentRaceMode: string
    var buttons: Buttons
    var panel: Panel

    function State(): Clock
      reads this
    {
      Clock(raceActive, timeLeft, ticking)
    }

    /** The race is active exactly while the countdown runs, and the buttons
        follow the race. */
    predicate Valid()
      reads this
    {
      Coherent(State()) && buttons == ButtonsFor(raceActive)
    }

    /** The page after `initializeTimer` and the button and panel set-up. */
    constructor ()
      ensures Valid()
      ensures State() == Clock(false, 0, false) && currentSession.None? && latestSessions == []
      ensures currentRaceMode == "SAFE" && raceStartTime == Null
      ensures panel == Panel(0, "Race Timer", "SAFE", "No session selected", "0/8 drivers", [])
    {
      latestSessions := [];
      currentSession := None;
      raceActive := false;
      timeLeft := 0;
      ticking := false;
      raceStartTime := Null;
      currentRaceMode := "SAFE";
      buttons := ButtonsFor(false);
      panel := Panel(0, "Race Timer", "SAFE", "No session selected", "0/8 drivers", []);
    }

    /** `updateButtonStates()` */
    method UpdateButtonStates()
      modifies this
      ensures buttons == ButtonsFor(raceActive)
      ensures State() == old(State()) && panel == old(panel)
      ensures latestSessions == old(latestSessions) && currentSession == old(currentSession)
      ensures raceStartTime == old(raceStartTime) && currentRaceMode == old(currentRaceMode)
    {
      buttons := ButtonsFor(raceActive);
    }

    /** `startTimer(duration)`; `now` stands for `Date.now()`. */
    method StartTimer(duration: int, now: int) returns (emits: seq<ControlEmit>)
      requires Valid()
      modifies this
      ensures Valid()
      ensures State() == StartClock(old(State()), old(currentSession).Some?, duration)
      ensures old(currentSession).None? ==> unchanged(this) && emits == []
      ensures old(currentSession).Some? ==>
        emits == [RaceStarted(SessionIdOf(currentSession))] && raceStartTime == Num(now)
      ensures panel == old(panel) && currentSession == old(currentSession)
      ensures latestSessions == old(latestSessions) && currentRaceMode == old(currentRaceMode)
    {
      if currentSession.None? {
        return [];
      }
      timeLeft := duration;
      raceActive := true;
      raceStartTime := Num(now);
      emits := [RaceStarted(SessionIdOf(currentSession))];
      ticking := true;
      UpdateButtonStates();
    }

    /** The Start button. */
    method StartPressed(now: int) returns (emits: seq<ControlEmit>)
      requires Valid()
      modifies this
      ensures Valid()
      ensures State() == StartClock(old(State()), old(currentSession).Some?, 300)
      ensures old(currentSession).None? ==> unchanged(this) && emits == []
      ensures old(currentSession).Some? ==>
        emits == [RaceStarted(SessionIdOf(currentSession))] && raceStartTime == Num(now)
      ensures panel == old(panel) && currentSession == old(currentSession)
      ensures latestSessions == old(latestSessions) && currentRaceMode == old(currentRaceMode)
    {
      emits := StartTimer(300, now);
    }

    /** `updateDisplay()` */
    method UpdateDisplay()
      modifies this
      ensures panel == old(panel).(timerSeconds := timeLeft, timerStatus := StatusText(raceActive))
      ensures State() == old(State()) && buttons == old(buttons)
      ensures latestSessions == old(latestSessions) && currentSession == old(currentSession)
      ensures raceStartTime == old(raceStartTime) && currentRaceMode == old(currentRaceMode)
    {
      panel := panel.(timerSeconds := timeLeft, timerStatus := StatusText(raceActive));
    }

    /** `timeExpired()` */
    method TimeExpired() returns (emits: seq<ControlEmit>)
      modifies this
      ensures !raceActive && !ticking && timeLeft == old(timeLeft)
      ensures buttons == ButtonsFor(false)
      ensures panel == old(panel).(timerSeconds := 0, timerStatus := "Time Remaining")
      ensures emits == [RaceCompleted(SessionIdOf(currentSession))]
      ensures latestSessions == old(latestSessions) && currentSession == old(currentSession)
      ensures raceStartTime == old(raceStartTime) && currentRaceMode == old(currentRaceMode)
    {
      ticking := false;
      panel := panel.(timerSeconds := 0, timerStatus := "Time Remaining");
      raceActive := false;
      UpdateButtonStates();
      emits := [RaceCompleted(SessionIdOf(currentSession))];
    }

    /** One run of the interval callback. */
    method Tick() returns (emits: seq<ControlEmit>)
      requires Valid()
      modifies this
      ensures Valid()
      ensures State() == Step(old(State()))
      ensures !old(ticking) ==> unchanged(this) && emits == []
      ensures old(ticking) && timeLeft > 0 ==>
        emits == [] && panel == old(panel).(timerSeconds := timeLeft, timerStatus := "Time Remaining")
      ensures old(ticking) && timeLeft <= 0 ==>
        emits == [RaceCompleted(SessionIdOf(currentSession))]
        && panel == old(panel).(timerSeconds := 0, timerStatus := "Time Remaining")
      ensures latestSessions == old(latestSessions) && currentSession == old(currentSession)
      ensures raceStartTime == old(raceStartTime) && currentRaceMode == old(currentRaceMode)
    {
      if !ticking {
        return [];
      }
      timeLeft := timeLeft - 1;
      UpdateDisplay();
      if timeLeft <= 0 {
        emits := TimeExpired();
      } else {
        emits := [];
      }
    }

    /** `stopTimer()`, which the Stop and the Emergency Stop buttons both call. */
    method StopTimer() returns (emits: seq<ControlEmit>)
      modifies this
      ensures Valid()
      ensures State() == StopClock(old(State()))
      ensures emits == [RaceStopped(SessionIdOf(currentSession))]
      ensures panel == old(panel)
      ensures latestSessions == old(latestSessions) && currentSession == old(currentSession)
      ensures raceStartTime == old(raceStartTime) && currentRaceMode == old(currentRaceMode)
    {
      raceActive := false;
      emits := [RaceStopped(SessionIdOf(currentSession))];
      ticking := false;
      UpdateButtonStates();
    }

    /** `setRaceMode(mode)` for the mode a button passes. */
    method SetRaceMode(b: ModeButton) returns (emits: seq<ControlEmit>)
      modifies this
      ensures currentRaceMode == StoredMode(b)
      ensures emits == [RaceModeChange(ButtonMode(b), SessionIdOf(currentSession))]
      ensures panel == old(panel).(modeText := StoredMode(b))
      ensures State() == old(State()) && buttons == old(buttons)
      ensures latestSessions == old(latestSessions) && currentSession == old(currentSession)
      ensures raceStartTime == old(raceStartTime)
    {
      var mode := ButtonMode(b);
      currentRaceMode := StoredMode(b);
      emits := [RaceModeChange(mode, SessionIdOf(currentSession))];
      panel := panel.(modeText := StoredMode(b));
    }

    /** The `sessions` handler and `renderSessions()`: the first session (or the
        test session) becomes the current one, and the panel and briefing show it. */
    method OnSessions(p: SessionsPayload, now: int)
      modifies this
      ensures latestSessions == WithFallback(AsList(p), now)
      ensures currentSession == Some(latestSessions[0])
      ensures AsList(p) != [] ==> currentSession == Some(AsList(p)[0])
      ensures panel == old(panel).(modeText := currentRaceMode, sessionText := SessionText(currentSession),
                                   driverCountText := DriverCountText(currentSession),
                                   briefing := Briefing(currentSession.value.drivers))
      ensures State() == old(State()) && buttons == old(buttons)
      ensures raceStartTime == old(raceStartTime) && currentRaceMode == old(currentRaceMode)
    {
      latestSessions := WithFallback(AsList(p), now);
      currentSession := Some(latestSessions[0]);
      panel := panel.(modeText := currentRaceMode, sessionText := SessionText(currentSession),
                      driverCountText := DriverCountText(currentSession),
                      briefing := Briefing(currentSession.value.drivers));
    }
  }
}
