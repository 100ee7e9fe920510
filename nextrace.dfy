/** The next-race screen: which session it shows for the last race mode it
    heard, and the driver lines under it. The page object is
    `NextRacePage.NextRaceScreen`. */
module NextRace {
  import opened Js
  import opened Sorting
  import opened Sessions

  /** What `renderSession` leaves on screen. `Fails` is the TypeError it runs
      into when no snapshot has arrived yet (`latestSessions` is still null). */
  datatype Shown =
    | NoSessions
    | NoSecondSession
    | ShowSession(name: string, lines: seq<string>)
    | Fails

  /** `(second && (second.name || second.id)) || String(second)` for a session
      object, which is always truthy. */
  function NameOf(s: Session): (r: string)
    ensures Truthy(s.name) ==> r == ToStr(s.name)
    ensures !Truthy(s.name) && Truthy(s.id) ==> r == ToStr(s.id)
    ensures !Truthy(s.name) && !Truthy(s.id) ==> r == "[object Object]"
  {
    ToStr(Or(Or(s.name, s.id), Text("[object Object]")))
  }

  /** The screen for session `s`: its name, then one line per driver. */
  function Show(s: Session): (r: Shown)
    ensures r.ShowSession? && r.name == NameOf(s)
    ensures |r.lines| == |s.drivers| && forall i :: 0 <= i < |s.drivers| ==> r.lines[i] == DriverLine(s.drivers[i])
  {
    ShowSession(NameOf(s), Map(s.drivers, DriverLine))
  }

  /** `renderSession()` with the stored list and mode. */
  function Render(latest: Option<seq<Session>>, mode: Scalar): Shown {
    if latest.None? then Fails
    else if |latest.value| == 0 then NoSessions
    else if mode == Text("SAFE") then
      if |latest.value| < 2 then NoSecondSession else Show(latest.value[1])
    else Show(latest.value[0])
  }

  /** Which session is shown: none for an empty list; in mode `SAFE` the second
      one, or a note when there is none; in any other mode the first. */
  lemma RenderCases(latest: Option<seq<Session>>, mode: Scalar)
    ensures Render(latest, mode) == Fails <==> latest.None?
    ensures latest.Some? ==> (Render(latest, mode) == NoSessions <==> latest.value == [])
    ensures latest.Some? && latest.value != [] && mode == Text("SAFE") ==>
      (Render(latest, mode) == NoSecondSession <==> |latest.value| < 2)
      && (|latest.value| >= 2 ==> Render(latest, mode) == Show(latest.value[1]))
    ensures latest.Some? && latest.value != [] && mode != Text("SAFE") ==> Render(latest, mode) == Show(latest.value[0])
    ensures Render(latest, mode).ShowSession? ==>
      exists i :: 0 <= i < 2 && i < |latest.value| && Render(latest, mode) == Show(latest.value[i])
  {
    if latest.Some? && latest.value != [] {
      if mode == Text("SAFE") && |latest.value| >= 2 {
        assert Render(latest, mode) == Show(latest.value[1]);
      } else if mode != Text("SAFE") {
        assert Render(latest, mode) == Show(latest.value[0]);
      }
    }
  }

  /** The mode test is an exact comparison with upper-case `SAFE`: a
      `timer-update` whose `raceMode` is lower-case `safe` shows the first
      session, not the second. */
  lemma LowercaseSafeShowsFirst(ss: seq<Session>)
    requires ss != []
    ensures Render(Some(ss), Text("safe")) == Show(ss[0])
  {
  }
}

/** The next-race page's module-level `latestSessions` and `mode`. */
module NextRacePage {
  import opened Js
  import opened Sessions
  import opened NextRace

  class NextRaceScreen {
    /** `null` until the first `sessions` payload. */
    var latestSessions: Option<seq<Session>>
    var mode: Scalar
    var shown: Shown

    constructor ()
      ensures latestSessions.None? && mode == Null
    {
      latestSessions := None;
      mode := Null;
      shown := NoSessions;
    }

    /** The `sessions` handler: stores the list, a non-array as empty, without
        redrawing. */
    method OnSessions(p: SessionsPayload)
      modifies this
      ensures latestSessions == Some(AsList(p))
      ensures mode == old(mode) && shown == old(shown)
    {
      latestSessions := Some(AsList(p));
    }

    /** The `timer-update` handler: a non-null payload sets the mode; then the
        screen is redrawn. */
    method OnTimerUpdate(payload: Option<Tick>)
      modifies this
      ensures payload.Some? ==> mode == payload.value.raceMode
      ensures payload.None? ==> mode == old(mode)
      ensures shown == Render(latestSessions, mode)
      ensures latestSessions == old(latestSessions)
    {
      if payload.Some? {
        mode := payload.value.raceMode;
      }
      shown := Render(latestSessions, mode);
    }
  }
}
