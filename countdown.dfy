/** The countdown screen: what its `timer-update` handler shows. */
module Countdown {
  import opened Strings
  import opened Js
  import opened Sessions
  import opened Format
  import FormatLaws

  /** The `MM:SS` text for `payload.timeLeft`: the JavaScript arithmetic coerces
      it with `Number`, and a NaN shows as `NaN:NaN`. */
  function TimerText(timeLeft: Scalar): (r: string)
    ensures ToNumber(timeLeft).Some? ==> r == MinSec(ToNumber(timeLeft).value)
    ensures ToNumber(timeLeft).None? ==> r == "NaN:NaN"
  {
    match ToNumber(timeLeft)
    case Some(t) => MinSec(t)
    case None => "NaN:NaN"
  }

  /** Assigning `textContent`: the attribute is a nullable string, so `null`
      and `undefined` (an absent payload field) clear it; anything else is
      stringified. */
  function TextContent(v: Scalar): (r: string)
    ensures v == Null || v == Undefined ==> r == ""
    ensures v != Null && v != Undefined ==> r == ToStr(v)
    ensures r == "" <==> v == Null || v == Undefined || v == Text("")
  {
    ToStrEmpty(v);
    if v == Null || v == Undefined then "" else ToStr(v)
  }

  /** The three texts of the screen. */
  datatype Screen = Screen(timer: string, mode: string, session: string)

  function Show(payload: Tick): (r: Screen)
    ensures r.timer == TimerText(payload.timeLeft)
    ensures r.mode == TextContent(payload.raceMode) && r.session == TextContent(payload.sessionName)
    ensures r.session == "" <==> payload.sessionName in {Null, Undefined, Text("")}
    ensures r.mode == "" <==> payload.raceMode in {Null, Undefined, Text("")}
    ensures payload.raceMode.Text? ==> r.mode == payload.raceMode.s
    ensures payload.sessionName.Text? ==> r.session == payload.sessionName.s
  {
    Screen(TimerText(payload.timeLeft), TextContent(payload.raceMode), TextContent(payload.sessionName))
  }

  /** For the same count of seconds, sent as a number or as its decimal text,
      the countdown shows the race-control display; for a non-negative count it
      reads back as that count with seconds below 60, in exactly five
      characters below 100 minutes. */
  lemma SameAsRaceControl(t: int)
    ensures TimerText(Num(t)) == MinSec(t)
    ensures TimerText(Text(IntToString(t))) == MinSec(t)
    ensures t >= 0 ==> ParseMinSec(TimerText(Num(t))) == Some(t)
    ensures 0 <= t < 6000 ==> |TimerText(Num(t))| == 5
    ensures t >= 6000 ==> |TimerText(Num(t))| >= 6
  {
    NumberOfIntString(t);
    if t >= 0 {
      FormatLaws.MinSecRoundTrip(t);
    }
    if 0 <= t < 6000 {
      FormatLaws.MinSecShort(t);
    }
    if t >= 6000 {
      FormatLaws.MinSecLong(t);
    }
  }
}
