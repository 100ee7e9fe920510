/** The leaderboard page: the module-level `currentSession` and `state` object
    of the leaderboard client with its socket handlers, updating the per-car maps
    in place. The DOM elements it writes are gathered in `Screen`. */
module LeaderboardPage {
  import opened Strings
  import opened Js
  import opened Sorting
  import opened Format
  import opened Sessions
  import opened Leaderboard

  /** What the page shows: the table body, the timer text and status, the
      session name, whether the post-session note is hidden, the small mode
      display and the flag. */
  datatype Screen = Screen(
    table: seq<Line>,
    timerText: string,
    timerStatus: string,
    sessionName: string,
    postNoteHidden: bool,
    mode: string,
    flag: FlagView)

  /** A tick for a session other than the current one. */
  predicate OtherSession(current: Option<Session>, t: Tick) {
    current.Some? && Truthy(t.sessionId) && !SameId(t.sessionId, current.value.id)
  }

  /** The second loop of `renderTable()`: one line per sorted row, with the
      position counter `pos` that starts at 1 and advances past each timed row. */
  method WriteLines(sorted: seq<Row>) returns (lines: seq<Line>)
    ensures lines == Lines(Numbering(sorted, 1))
  {
    lines := [];
    var pos := 1;
    var j := 0;
    while j < |sorted|
      invariant 0 <= j <= |sorted|
      invariant lines == Lines(Numbering(sorted[..j], 1))
      invariant pos == 1 + Timed(sorted[..j])
    {
      TableStep(sorted, j);
      lines := lines + [LineOf(Numbered(sorted[j], pos))];
      if sorted[j].best.Some? {
        pos := pos + 1;
      }
      j := j + 1;
    }
    assert sorted[..j] == sorted;
  }

  class LeaderBoard {
    var currentSession: Option<Session>
    /** The insertion order of `state.drivers`. */
    var keys: seq<string>
    var drivers: map<string, DriverMeta>
    var bestLapMs: map<string, Option<int>>
    var currentLapNum: map<string, int>
    var order: seq<string>
    var sessionEnded: bool
    var screen: Screen

    function State(): Standings
      reads this
    {
      Standings(keys, drivers, bestLapMs, currentLapNum)
    }

    ghost predicate Valid()
      reads this
    {
      Leaderboard.Valid(State())
    }

    /** The page as loaded: no session, empty maps. The static text of the page
        itself is not modelled and starts empty. */
    constructor ()
      ensures Valid()
      ensures currentSession.None? && State() == Empty && order == [] && !sessionEnded
    {
      currentSession := None;
      keys := [];
      drivers := map[];
      bestLapMs := map[];
      currentLapNum := map[];
      order := [];
      sessionEnded := false;
      screen := Screen([], "", "", "", true, "", FlagView([], ""));
    }

    /** One pass of `hydrateFromSnapshot`'s loop, for the entry `d`. */
    method HydrateEntry(d: DriverSnap)
      modifies this
      ensures State() == HydrateDriver(old(State()), d)
      ensures currentSession == old(currentSession) && order == old(order)
      ensures sessionEnded == old(sessionEnded) && screen == old(screen)
    {
      var key := ToStr(d.carNumber);
      if key == "" {
        return;
      }
      keys := Remember(keys, key);
      drivers := drivers[key := SnapshotMeta(key, d)];
      if d.currentLap.Num? {
        currentLapNum := currentLapNum[key := d.currentLap.n];
      } else if key !in currentLapNum {
        currentLapNum := currentLapNum[key := 0];
      } else {
        SetSame(currentLapNum, key);
      }
      if d.fastestLapMs.Num? && d.fastestLapMs.n > 0 {
        var prev := if key in bestLapMs then bestLapMs[key] else None;
        if prev.None? || d.fastestLapMs.n < prev.value {
          bestLapMs := bestLapMs[key := Some(d.fastestLapMs.n)];
        } else {
          SetSame(bestLapMs, key);
        }
      } else if key !in bestLapMs {
        bestLapMs := bestLapMs[key := None];
      } else {
        SetSame(bestLapMs, key);
      }
    }

    /** `hydrateFromSnapshot(session)`: the loop over `session.drivers`. */
    method HydrateFromSnapshot(s: Session)
      modifies this
      ensures State() == HydrateAll(old(State()), s.drivers)
      ensures currentSession == old(currentSession) && order == old(order)
      ensures sessionEnded == old(sessionEnded) && screen == old(screen)
    {
      var ds := s.drivers;
      var i := 0;
      while i < |ds|
        invariant 0 <= i <= |ds|
        invariant State() == HydrateAll(old(State()), ds[..i])
        invariant currentSession == old(currentSession) && order == old(order)
        invariant sessionEnded == old(sessionEnded) && screen == old(screen)
      {
        HydrateEntry(ds[i]);
        assert ds[..i + 1][..i] == ds[..i];
        i := i + 1;
      }
      assert ds[..i] == s.drivers;
    }

    /** The first loop of `renderTable()`: one row per entry of
        `state.drivers`, in insertion order. */
    method CollectRows() returns (rows: seq<Row>)
      requires Valid()
      ensures rows == Rows(State())
    {
      rows := [];
      var i := 0;
      while i < |keys|
        invariant 0 <= i <= |keys|
        invariant |rows| == i
        invariant forall j :: 0 <= j < i ==> rows[j] == RowOf(State(), keys[j])
      {
        var key := keys[i];
        var meta := drivers[key];
        rows := rows + [Row(key, meta.carNumber, meta.name,
                            if key in bestLapMs then bestLapMs[key] else None,
                            if key in currentLapNum then currentLapNum[key] else 0)];
        i := i + 1;
      }
    }

    /** `renderTable()`: collect the rows, sort them, record `state.order` and
        write one line per row with the position counter. */
    method RenderTable()
      requires Valid()
      modifies this
      ensures order == Order(State())
      ensures screen == old(screen).(table := Table(State()))
      ensures State() == old(State()) && currentSession == old(currentSession) && sessionEnded == old(sessionEnded)
    {
      ghost var st := State();
      var rows := CollectRows();
      var sorted := SortBy(rows, RowRank);
      assert sorted == Sorted(st);
      var lines := WriteLines(sorted);
      assert lines == Table(st);
      order := Map(sorted, KeyOfRow);
      screen := screen.(table := lines);
      assert State() == st;
    }

    /** `endSessionUI()`: only the first call has an effect. */
    method EndSessionUI()
      modifies this
      ensures sessionEnded
      ensures old(sessionEnded) ==> screen == old(screen)
      ensures !old(sessionEnded) ==> screen == old(screen).(timerStatus := "ENDED", postNoteHidden := false)
      ensures State() == old(State()) && order == old(order) && currentSession == old(currentSession)
    {
      if sessionEnded {
        return;
      }
      sessionEnded := true;
      screen := screen.(timerStatus := "ENDED", postNoteHidden := false);
    }

    /** `updateFlag(flagRaw)` */
    method UpdateFlag(flagRaw: Scalar)
      modifies this
      ensures screen == old(screen).(flag := FlagFor(flagRaw))
      ensures State() == old(State()) && order == old(order) && currentSession == old(currentSession)
      ensures sessionEnded == old(sessionEnded)
    {
      screen := screen.(flag := FlagFor(flagRaw));
    }

    /** The first half of `initSession(session)`: switch to `s`, clear the
        ended flag and every map, show the session name. */
    method Reset(s: Session)
      modifies this
      ensures currentSession == Some(s) && !sessionEnded && State() == Empty && order == []
      ensures screen == old(screen).(postNoteHidden := true, sessionName := ToStr(Or(s.name, Text("Current Session"))))
    {
      currentSession := Some(s);
      sessionEnded := false;
      screen := screen.(postNoteHidden := true, sessionName := ToStr(Or(s.name, Text("Current Session"))));
      bestLapMs := map[];
      currentLapNum := map[];
      drivers := map[];
      keys := [];
      order := [];
    }

    /** `initSession(session)`: switch to `s`, reset every map and the ended
        flag, then hydrate and render. */
    method InitSession(s: Session)
      modifies this
      ensures Valid()
      ensures currentSession == Some(s) && !sessionEnded
      ensures State() == HydrateAll(Empty, s.drivers)
      ensures order == Order(State())
      ensures screen == old(screen).(table := Table(State()), sessionName := ToStr(Or(s.name, Text("Current Session"))),
                                     postNoteHidden := true, timerStatus := Dash,
                                     flag := if Truthy(s.flag) then FlagFor(s.flag) else old(screen.flag))
    {
      Reset(s);
      HydrateFromSnapshot(s);
      ghost var st := State();
      HydrateAllEffect(Empty, s.drivers);
      RenderTable();
      assert State() == st;
      screen := screen.(timerStatus := Dash);
      assert State() == st;
      if Truthy(s.flag) {
        UpdateFlag(s.flag);
      }
    }

    /** The `sessions` handler. */
    method OnSessions(p: SessionsPayload)
      requires Valid()
      modifies this
      ensures Valid()
      ensures AsList(p) == [] ==> unchanged(this)
      ensures AsList(p) != [] ==>
        var picked := Pick(old(currentSession), AsList(p)).value;
        if Switches(old(currentSession), picked) then
          currentSession == Some(picked) && !sessionEnded && State() == HydrateAll(Empty, picked.drivers)
          && screen == old(screen).(table := Table(State()), sessionName := ToStr(Or(picked.name, Text("Current Session"))),
                                    postNoteHidden := true, timerStatus := Dash,
                                    flag := if Truthy(picked.flag) then FlagFor(picked.flag) else old(screen.flag))
        else
          currentSession == old(currentSession) && sessionEnded == old(sessionEnded)
          && State() == HydrateAll(old(State()), picked.drivers)
          && screen == old(screen).(table := Table(State()))
      ensures AsList(p) != [] ==> order == Order(State()) && screen.table == Table(State())
    {
      var sessions := AsList(p);
      if |sessions| == 0 {
        return;
      }
      var picked := Pick(currentSession, sessions).value;
      if currentSession.None? || !SameId(picked.id, currentSession.value.id) {
        InitSession(picked);
      } else {
        ghost var before := State();
        HydrateFromSnapshot(picked);
        HydrateAllEffect(before, picked.drivers);
        RenderTable();
      }
    }

    /** `onLapRecorded`'s registration of an unknown car. */
    method RegisterCar(ev: LapEvent)
      modifies this
      ensures State() == Register(old(State()), ev)
      ensures currentSession == old(currentSession) && order == old(order)
      ensures sessionEnded == old(sessionEnded) && screen == old(screen)
    {
      var key := ToStr(Coalesce(ev.carNumber, ev.driverId));
      if key !in drivers {
        keys := keys + [key];
        drivers := drivers[key := DriverMeta(key, Text("Driver " + ToStr(Coalesce(ev.carNumber, ev.driverId))),
                                             Coalesce(ev.carNumber, Text("?")))];
        bestLapMs := bestLapMs[key := None];
        currentLapNum := currentLapNum[key := 0];
      }
    }

    /** The body of `onLapRecorded` once the event is accepted: register an
        unknown car, then update its lap count and best lap. */
    method RecordLap(ev: LapEvent)
      modifies this
      ensures State() == ApplyLap(old(State()), ev)
      ensures currentSession == old(currentSession) && order == old(order)
      ensures sessionEnded == old(sessionEnded) && screen == old(screen)
    {
      RegisterCar(ev);
      ghost var reg := State();
      var key := ToStr(Coalesce(ev.carNumber, ev.driverId));
      var prevLap := if key in currentLapNum then currentLapNum[key] else 0;
      var lapNumber := if ev.lapNumber.Num? then ev.lapNumber.n else prevLap + 1;
      currentLapNum := currentLapNum[key := if prevLap > lapNumber then prevLap else lapNumber];
      assert currentLapNum == reg.laps[key := NextLap(LapOf(reg, key), ev.lapNumber)];
      if ev.lapTimeMs.Num? && ev.lapTimeMs.n > 0 {
        var prevBest := if key in bestLapMs then bestLapMs[key] else None;
        if prevBest.None? || ev.lapTimeMs.n < prevBest.value {
          bestLapMs := bestLapMs[key := Some(ev.lapTimeMs.n)];
        }
      }
    }

    /** `onLapRecorded(event)` */
    method OnLapRecorded(ev: LapEvent)
      requires Valid()
      modifies this
      ensures Valid()
      ensures !Accepts(old(currentSession), ev) ==> unchanged(this)
      ensures Accepts(old(currentSession), ev) ==>
        State() == ApplyLap(old(State()), ev) && order == Order(State())
        && screen == old(screen).(table := Table(State()))
        && currentSession == old(currentSession) && sessionEnded == old(sessionEnded)
    {
      if currentSession.None? {
        return;
      }
      if Truthy(ev.sessionId) && !SameId(ev.sessionId, currentSession.value.id) {
        return;
      }
      ghost var before := State();
      RecordLap(ev);
      ApplyLapEffect(before, ev);
      RenderTable();
    }

    /** `setTimerFromPayload(payload)`. In FINISH mode the status is first set
        to FINISH, and the `endSessionUI` call right after it overwrites that
        with ENDED unless the session had already ended. */
    method SetTimerFromPayload(t: Tick)
      modifies this
      ensures screen.timerText == ClockText(t)
      ensures sessionEnded == (old(sessionEnded) || Ends(t))
      ensures screen.timerStatus == if Ends(t) && !old(sessionEnded) then "ENDED" else StatusOf(t)
      ensures screen.postNoteHidden == (old(screen.postNoteHidden) && !(Ends(t) && !old(sessionEnded)))
      ensures screen.table == old(screen.table) && screen.sessionName == old(screen.sessionName)
      ensures screen.mode == old(screen.mode) && screen.flag == old(screen.flag)
      ensures State() == old(State()) && order == old(order) && currentSession == old(currentSession)
    {
      if t.timeLeft.Num? {
        var clamped := if 0 > t.timeLeft.n then 0 else t.timeLeft.n;
        screen := screen.(timerText := FmtClock(clamped * 1000));
      } else {
        screen := screen.(timerText := "--:--");
      }
      var mode := Normalise(t.raceMode);
      if mode == "FINISH" {
        screen := screen.(timerStatus := "FINISH");
        EndSessionUI();
      } else if Truthy(t.raceActive) {
        screen := screen.(timerStatus := "LIVE");
      } else if t.timeLeft == Num(0) {
        screen := screen.(timerStatus := "ENDED");
        EndSessionUI();
      } else {
        screen := screen.(timerStatus := Dash);
      }
    }

    /** `applyRaceModeVisuals(raceMode)`: the mode display, and the flag of a
        known mode. */
    method ApplyRaceModeVisuals(raceMode: Scalar)
      modifies this
      ensures screen.mode == Normalise(raceMode)
      ensures ModeToFlag(Normalise(raceMode)) == "" ==> screen.flag == old(screen.flag)
      ensures ModeToFlag(Normalise(raceMode)) != "" ==> screen.flag == FlagFor(Text(ModeToFlag(Normalise(raceMode))))
      ensures screen.table == old(screen.table) && screen.timerText == old(screen.timerText)
      ensures screen.timerStatus == old(screen.timerStatus) && screen.sessionName == old(screen.sessionName)
      ensures screen.postNoteHidden == old(screen.postNoteHidden)
      ensures State() == old(State()) && order == old(order) && currentSession == old(currentSession)
      ensures sessionEnded == old(sessionEnded)
    {
      var m := Normalise(raceMode);
      screen := screen.(mode := m);
      var flag := ModeToFlag(m);
      if flag != "" {
        UpdateFlag(Text(flag));
      }
    }

    /** The `timer-update` handler. */
    method OnTimerUpdate(t: Tick)
      modifies this
      ensures OtherSession(old(currentSession), t) ==> unchanged(this)
      ensures !OtherSession(old(currentSession), t) ==>
        screen.timerText == ClockText(t)
        && sessionEnded == (old(sessionEnded) || Ends(t))
        && screen.timerStatus == (if Ends(t) && !old(sessionEnded) then "ENDED" else StatusOf(t))
        && screen.mode == Normalise(t.raceMode)
        && screen.sessionName == (if Truthy(t.sessionName) then ToStr(t.sessionName) else old(screen.sessionName))
        && screen.table == old(screen.table)
      ensures !OtherSession(old(currentSession), t) ==>
        screen.flag == (if ModeToFlag(Normalise(t.raceMode)) == "" then old(screen.flag)
                        else FlagFor(Text(ModeToFlag(Normalise(t.raceMode)))))
        && screen.postNoteHidden == (old(screen.postNoteHidden) && !(Ends(t) && !old(sessionEnded)))
      ensures State() == old(State()) && order == old(order) && currentSession == old(currentSession)
    {
      if currentSession.Some? && Truthy(t.sessionId) && !SameId(t.sessionId, currentSession.value.id) {
        return;
      }
      if Truthy(t.sessionName) {
        screen := screen.(sessionName := ToStr(t.sessionName));
      }
      ApplyRaceModeVisuals(t.raceMode);
      SetTimerFromPayload(t);
    }
  }
}
