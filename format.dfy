/** The time formatters: the `MM:SS` countdown shown by race control, the
    countdown screen and the leaderboard clock, and the leaderboard's `M:SS.mmm`
    lap time. `Math.floor(x / n)` with `n > 0` is Dafny's `x / n`; JavaScript's
    `%` is `JsRem`. */
module Format {
  import opened Strings
  import opened Js

  /** `${String(Math.floor(t / 60)).padStart(2,'0')}:${String(t % 60).padStart(2,'0')}` */
  function MinSec(t: int): string {
    PadStart(IntToString(t / 60), 2, '0') + ":" + PadStart(IntToString(JsRem(t, 60)), 2, '0')
  }

  /** The leaderboard's `fmtClock`: whole seconds of `ms`, then the same
      minutes-and-seconds formula as `MinSec`. */
  function FmtClock(ms: int): string {
    MinSec(ms / 1000)
  }

  /** The leaderboard's `fmtLap`: minutes unpadded, seconds padded to 2 and
      milliseconds padded to 3 digits. */
  function FmtLap(ms: int): string {
    IntToString(ms / 60000) + ":"
    + PadStart(IntToString(JsRem(ms, 60000) / 1000), 2, '0') + "."
    + PadStart(IntToString(JsRem(ms, 1000)), 3, '0')
  }

  /** The two fields of `MM:SS`: everything before the colon third from the
      end, and the last two characters. */
  datatype ClockParts = ClockParts(minutes: string, seconds: string)

  /** The three fields of `M:SS.mmm`. */
  datatype LapParts = LapParts(minutes: string, seconds: string, millis: string)

  function SplitMinSec(r: string): Option<ClockParts> {
    if |r| >= 5 && r[|r| - 3] == ':' then Some(ClockParts(r[..|r| - 3], r[|r| - 2..])) else None
  }

  /** Reads back `MM:SS` (minutes of any width). */
  function ParseMinSec(r: string): Option<int> {
    match SplitMinSec(r)
    case None => None
    case Some(p) =>
      if AllDigits(p.minutes) && AllDigits(p.seconds)
      then Some(ParseDigits(p.minutes) * 60 + ParseDigits(p.seconds))
      else None
  }

  function SplitLap(r: string): Option<LapParts> {
    if |r| >= 8 && r[|r| - 7] == ':' && r[|r| - 4] == '.'
    then Some(LapParts(r[..|r| - 7], r[|r| - 6..|r| - 4], r[|r| - 3..]))
    else None
  }

  /** Reads back `M:SS.mmm` (minutes of any width). */
  function ParseLap(r: string): Option<int> {
    match SplitLap(r)
    case None => None
    case Some(p) =>
      if AllDigits(p.minutes) && AllDigits(p.seconds) && AllDigits(p.millis)
      then Some(ParseDigits(p.minutes) * 60000 + ParseDigits(p.seconds) * 1000 + ParseDigits(p.millis))
      else None
  }
}

/** What the formatters promise: each output reads back as its input. */
module FormatLaws {
  import opened Strings
  import opened Js
  import opened Format

  /** A zero-padded number below `10^width` (width 2 or 3) is exactly `width` digits. */
  lemma PaddedField(n: nat, width: nat)
    requires width == 2 || width == 3
    requires if width == 2 then n < 100 else n < 1000
    ensures |PadStart(Digits(n), width, '0')| == width
    ensures AllDigits(PadStart(Digits(n), width, '0'))
    ensures ParseDigits(PadStart(Digits(n), width, '0')) == n
  {
    DigitsLength(n);
    DigitsRoundTrip(n);
    PadZerosValue(Digits(n), width);
  }

  lemma SplitMinSecOf(a: string, b: string)
    requires |a| >= 2 && |b| == 2
    ensures SplitMinSec(a + ":" + b) == Some(ClockParts(a, b))
  {
    var r := a + ":" + b;
    assert r[..|r| - 3] == a;
    assert r[|r| - 2..] == b;
  }

  lemma ReadsBackAs(r: string, mm: string, ss: string, t: int)
    requires AllDigits(mm) && AllDigits(ss)
    requires SplitMinSec(r) == Some(ClockParts(mm, ss))
    requires ParseDigits(mm) * 60 + ParseDigits(ss) == t
    ensures ParseMinSec(r) == Some(t)
  {
  }

  /** The minutes field: padded to at least two digits, reading back as `q`. */
  lemma MinutesField(q: nat)
    ensures var m := PadStart(Digits(q), 2, '0'); |m| >= 2 && AllDigits(m) && ParseDigits(m) == q
  {
    DigitsRoundTrip(q);
    PadZerosValue(Digits(q), 2);
  }

  lemma MinSecOf(t: int)
    requires t >= 0
    ensures MinSec(t) == PadStart(Digits(t / 60), 2, '0') + ":" + PadStart(Digits(t % 60), 2, '0')
  {
  }

  /** For a non-negative count of seconds the display reads back as that count,
      and its seconds field is below 60. */
  lemma MinSecRoundTrip(t: int)
    requires t >= 0
    ensures ParseMinSec(MinSec(t)) == Some(t)
    ensures SplitMinSec(MinSec(t)).Some? && ParseDigits(SplitMinSec(MinSec(t)).value.seconds) < 60
  {
    var mm := PadStart(Digits(t / 60), 2, '0');
    var ss := PadStart(Digits(t % 60), 2, '0');
    MinutesField(t / 60);
    PaddedField(t % 60, 2);
    MinSecOf(t);
    SplitMinSecOf(mm, ss);
    ReadsBackAs(MinSec(t), mm, ss, t);
  }

  /** Below 100 minutes the display is exactly `MM:SS`. */
  lemma MinSecShort(t: int)
    requires 0 <= t < 6000
    ensures var r := MinSec(t);
      |r| == 5 && r[2] == ':' && AllDigits(r[..2]) && AllDigits(r[3..])
      && ParseDigits(r[..2]) * 60 + ParseDigits(r[3..]) == t
  {
    var mm := PadStart(Digits(t / 60), 2, '0');
    var ss := PadStart(Digits(t % 60), 2, '0');
    PaddedField(t / 60, 2);
    PaddedField(t % 60, 2);
    MinSecOf(t);
    ClockFields(mm, ss);
  }

  lemma ClockFields(mm: string, ss: string)
    requires |mm| == 2 && |ss| == 2
    ensures var r := mm + ":" + ss; |r| == 5 && r[2] == ':' && r[..2] == mm && r[3..] == ss
  {
    var r := mm + ":" + ss;
    assert r[..2] == mm;
    assert r[3..] == ss;
  }

  /** From 100 minutes on, `padStart` does not truncate: the minutes take three
      or more digits. */
  lemma MinSecLong(t: int)
    requires t >= 6000
    ensures |MinSec(t)| >= 6
  {
    DigitsLength(t / 60);
    PaddedField(t % 60, 2);
  }

  lemma LapFields(ms: int)
    requires ms >= 0
    ensures JsRem(ms, 60000) / 1000 < 60 && JsRem(ms, 1000) < 1000
    ensures (ms / 60000) * 60000 + (JsRem(ms, 60000) / 1000) * 1000 + JsRem(ms, 1000) == ms
  {
    var q := ms / 60000;
    var r := ms % 60000;
    assert ms == q * 60000 + r;
    var s := r / 1000;
    var m := r % 1000;
    assert r == s * 1000 + m;
    assert ms == (q * 60 + s) * 1000 + m;
    assert ms % 1000 == m;
  }

  lemma SplitLapOf(a: string, b: string, c: string)
    requires |a| >= 1 && |b| == 2 && |c| == 3
    ensures SplitLap(a + ":" + b + "." + c) == Some(LapParts(a, b, c))
  {
    var r := a + ":" + b + "." + c;
    assert r[..|r| - 7] == a;
    assert r[|r| - 6..|r| - 4] == b;
    assert r[|r| - 3..] == c;
  }

  lemma LapReadsBackAs(r: string, a: string, b: string, c: string, ms: int)
    requires AllDigits(a) && AllDigits(b) && AllDigits(c)
    requires SplitLap(r) == Some(LapParts(a, b, c))
    requires ParseDigits(a) * 60000 + ParseDigits(b) * 1000 + ParseDigits(c) == ms
    ensures ParseLap(r) == Some(ms)
  {
  }

  lemma FmtLapOf(ms: int)
    requires ms >= 0
    ensures FmtLap(ms) == Digits(ms / 60000) + ":" + PadStart(Digits(JsRem(ms, 60000) / 1000), 2, '0')
                           + "." + PadStart(Digits(JsRem(ms, 1000)), 3, '0')
  {
  }

  /** The lap time read back from its display is the lap time. */
  lemma FmtLapRoundTrip(ms: int)
    requires ms >= 0
    ensures ParseLap(FmtLap(ms)) == Some(ms)
  {
    LapFields(ms);
    var m := ms / 60000;
    var s := JsRem(ms, 60000) / 1000;
    var k := JsRem(ms, 1000);
    PaddedField(s, 2);
    PaddedField(k, 3);
    DigitsRoundTrip(m);
    var a := Digits(m);
    var b := PadStart(Digits(s), 2, '0');
    var c := PadStart(Digits(k), 3, '0');
    FmtLapOf(ms);
    SplitLapOf(a, b, c);
    LapReadsBackAs(FmtLap(ms), a, b, c, ms);
  }

  /** The leaderboard clock for `t` whole seconds shows the same text as race
      control and the countdown screen do for `t`. */
  lemma ClockMatchesMinSec(t: int)
    ensures FmtClock(t * 1000) == MinSec(t)
  {
    assert (t * 1000) / 1000 == t;
  }
}
