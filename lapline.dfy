/** The lap-line tracker's rules: when a lap may be recorded, which race events
    concern the selected session, which session is selected, and which car
    buttons the grid shows. The page object that holds the state is
    `LapLinePage.LapLineTracker`. */
module LapLine {
  import opened Strings
  import opened Js
  import opened Sorting
  import opened Sessions

  /** `isLapAllowed()`: the race runs and the mode is SAFE or HAZARD. */
  predicate LapAllowed(active: bool, mode: string) {
    active && (mode == "SAFE" || mode == "HAZARD")
  }

  /** `matchesSession(sessionId)`: an event without a session id concerns every
      session; otherwise its id must be string-equal to the selected one. */
  predicate MatchesSession(sessionId: Scalar, current: Scalar) {
    !Truthy(sessionId) || SameId(sessionId, current)
  }

  /** `String(mode || 'SAFE').toUpperCase()` */
  function ModeOf(mode: Scalar): (r: string)
    ensures !Truthy(mode) ==> r == "SAFE"
    ensures Truthy(mode) ==> r == ToUpper(ToStr(mode))
  {
    UpperFixed("SAFE");
    ToUpper(ToStr(Or(mode, Text("SAFE"))))
  }

  /** A mode that arrives in lower case (as race control writes it) is read as
      the upper-case mode the gate tests. */
  lemma LowercaseModes()
    ensures ModeOf(Text("safe")) == "SAFE" && ModeOf(Text("hazard")) == "HAZARD"
    ensures ModeOf(Text("danger")) == "DANGER" && ModeOf(Text("finish")) == "FINISH"
    ensures LapAllowed(true, ModeOf(Text("safe"))) && LapAllowed(true, ModeOf(Text("hazard")))
    ensures !LapAllowed(true, ModeOf(Text("danger"))) && !LapAllowed(true, ModeOf(Text("finish")))
  {
    assert ToUpper("safe") == "SAFE";
    assert ToUpper("hazard") == "HAZARD";
    assert ToUpper("danger") == "DANGER";
    assert ToUpper("finish") == "FINISH";
  }

  /** The session id the `sessions` handler settles on: the stored one while it
      is set and still listed; otherwise `(withDrivers || latestSessions[0] || {}).id || null`. */
  function ChooseSessionId(ss: seq<Session>, cur: Scalar): (r: Scalar)
    ensures Truthy(r) || r == Null
    ensures Truthy(cur) && (exists j :: 0 <= j < |ss| && SameId(ss[j].id, cur)) ==> r == cur
    ensures !(Truthy(cur) && exists j :: 0 <= j < |ss| && SameId(ss[j].id, cur)) ==>
      (ss == [] ==> r == Null)
      && ((exists j :: 0 <= j < |ss| && HasDrivers(ss[j])) ==>
            exists j :: 0 <= j < |ss| && HasDrivers(ss[j]) && (forall k :: 0 <= k < j ==> !HasDrivers(ss[k]))
                        && r == Or(ss[j].id, Null))
      && (ss != [] && (forall j :: 0 <= j < |ss| ==> !HasDrivers(ss[j])) ==> r == Or(ss[0].id, Null))
  {
    if Truthy(cur) && FindById(ss, cur).Some? then cur
    else
      var w := FindWithDrivers(ss);
      var id := if w.Some? then w.value.id else if ss != [] then ss[0].id else Undefined;
      Or(id, Null)
  }

  /** The car numbers of `drivers.map(d => Number(d.carNumber)).filter(Number.isFinite)`,
      in driver order. */
  function NumericCars(ds: seq<DriverSnap>): (r: seq<int>)
    ensures forall n :: n in r <==> exists d :: d in ds && ToNumber(d.carNumber) == Some(n)
    decreases |ds|
  {
    if ds == [] then []
    else
      var head := ToNumber(ds[0].carNumber);
      assert forall d :: d in ds <==> d == ds[0] || d in ds[1..];
      (if head.Some? then [head.value] else []) + NumericCars(ds[1..])
  }

  /** `map` and `filter` work element by element: the list for two groups of
      drivers is the list of the first followed by that of the second, so no
      car number is merged with another. */
  lemma {:induction false} NumericCarsAppend(a: seq<DriverSnap>, b: seq<DriverSnap>)
    ensures NumericCars(a + b) == NumericCars(a) + NumericCars(b)
    decreases |a|
  {
    if a != [] {
      NumericCarsAppend(a[1..], b);
      assert (a + b)[0] == a[0];
      assert (a + b)[1..] == a[1..] + b;
      var head := ToNumber(a[0].carNumber);
      var h := if head.Some? then [head.value] else [];
      assert NumericCars(a + b) == h + NumericCars(a[1..] + b);
      assert NumericCars(a) == h + NumericCars(a[1..]);
    } else {
      assert a + b == b;
    }
  }

  /** The comparator `(a, b) => a - b`. */
  function IntRank(n: int): Rank {
    Finite(n)
  }

  /** The car numbers `renderCarButtons` shows, sorted ascending. */
  function CarNumbers(ds: seq<DriverSnap>): seq<int> {
    SortBy(NumericCars(ds), IntRank)
  }

  /** The buttons are in ascending order, and they are exactly the numeric car
      numbers, each as often as it occurs: nothing is dropped or merged. */
  lemma CarNumbersOrdered(ds: seq<DriverSnap>)
    ensures forall i, j :: 0 <= i < j < |CarNumbers(ds)| ==> CarNumbers(ds)[i] <= CarNumbers(ds)[j]
    ensures multiset(CarNumbers(ds)) == multiset(NumericCars(ds))
    ensures forall n :: n in CarNumbers(ds) <==> exists d :: d in ds && ToNumber(d.carNumber) == Some(n)
  {
    var s := CarNumbers(ds);
    SortIsSorted(NumericCars(ds), IntRank);
    forall i, j | 0 <= i < j < |s| ensures s[i] <= s[j] {
      assert !RankLt(IntRank(s[j]), IntRank(s[i]));
    }
    forall n ensures n in s <==> n in NumericCars(ds) {
      assert n in s <==> n in multiset(s);
      assert n in NumericCars(ds) <==> n in multiset(NumericCars(ds));
    }
  }

  /** Two drivers sharing a car number get two buttons. */
  lemma DuplicateCarsKept()
    ensures CarNumbers([DriverSnap(Undefined, Num(7), Undefined, Undefined),
                        DriverSnap(Undefined, Text("7"), Undefined, Undefined)]) == [7, 7]
  {
    var ds := [DriverSnap(Undefined, Num(7), Undefined, Undefined),
               DriverSnap(Undefined, Text("7"), Undefined, Undefined)];
    NumberOfIntString(7);
    assert ToNumber(ds[1].carNumber) == Some(7);
    assert ds[1..][1..] == [];
    assert NumericCars(ds) == [7, 7];
  }

  /** The car a click on a button with `data-car = data` reports:
      `Number(data)`, unless that is 0 or NaN. */
  function ClickedCar(data: string): (r: Option<int>)
    ensures r.Some? ==> r.value != 0 && ToNumber(Text(data)) == r
    ensures r.None? ==> ToNumber(Text(data)).None? || ToNumber(Text(data)) == Some(0)
  {
    var n := ToNumber(Text(data));
    if n.Some? && n.value != 0 then n else None
  }

  /** A button carries `String(n)`, so clicking it reports car `n`; a car
      number of 0 (for instance `Number(null)`) gets a button that does nothing. */
  lemma ButtonReportsItsCar(n: int)
    ensures ClickedCar(IntToString(n)) == if n == 0 then None else Some(n)
  {
    NumberOfIntString(n);
  }

  /** What the tracker sends to the server. */
  datatype Emit = JoinSession(sessionId: Scalar) | GetRaceState(sessionId: Scalar) | LapCrossed(carNumber: int, sessionId: Scalar)

  /** `join-session` then `get-race-state`, sent when a session id is set. */
  function JoinEmits(id: Scalar): (r: seq<Emit>)
    ensures Truthy(id) ==> r == [JoinSession(id), GetRaceState(id)]
    ensures !Truthy(id) ==> r == []
  {
    if Truthy(id) then [JoinSession(id), GetRaceState(id)] else []
  }
}

/** The lap-line tracker page: the closure variables of its `DOMContentLoaded`
    handler and the socket handlers that reassign them. */
module LapLinePage {
  import opened Js
  import opened Sessions
  import opened LapLine

  class LapLineTracker {
    var latestSessions: seq<Session>
    var currentSessionId: Scalar
    var raceActive: bool
    var currentRaceMode: string
    var raceStartTime: Scalar
    var currentSession: Option<Session>
    /** The car buttons in the grid, and the text shown instead of them. */
    var buttons: seq<int>
    var gridText: string
    /** Whether the car buttons are disabled. */
    var gridDisabled: bool

    /** Whenever there are buttons, they are disabled exactly when a lap would
        not be allowed. */
    predicate GridInSync()
      reads this
    {
      buttons != [] ==> gridDisabled == !LapAllowed(raceActive, currentRaceMode)
    }

    /** The page as loaded; `stored` is the session id kept in session storage. */
    constructor (stored: Option<string>)
      ensures GridInSync()
      ensures currentSessionId == if stored.Some? && stored.value != "" then Text(stored.value) else Null
      ensures !raceActive && currentRaceMode == "SAFE" && raceStartTime == Null
      ensures latestSessions == [] && currentSession.None? && buttons == []
    {
      latestSessions := [];
      currentSessionId := if stored.Some? && stored.value != "" then Text(stored.value) else Null;
      raceActive := false;
      currentRaceMode := "SAFE";
      raceStartTime := Null;
      currentSession := None;
      buttons := [];
      gridText := "";
      gridDisabled := false;
    }

    /** `updateGridEnabled()` */
    method UpdateGridEnabled()
      modifies this
      ensures gridDisabled == !LapAllowed(raceActive, currentRaceMode)
      ensures GridInSync()
      ensures latestSessions == old(latestSessions) && currentSessionId == old(currentSessionId)
      ensures raceActive == old(raceActive) && currentRaceMode == old(currentRaceMode)
      ensures raceStartTime == old(raceStartTime) && currentSession == old(currentSession)
      ensures buttons == old(buttons) && gridText == old(gridText)
    {
      gridDisabled := !LapAllowed(raceActive, currentRaceMode);
    }

    /** `renderCarButtons()`: the buttons of the selected session, or a note
        when no session is selected or it has no drivers. */
    method RenderCarButtons()
      modifies this
      ensures var s := FindById(latestSessions, currentSessionId);
        (s.None? ==> buttons == [] && gridText == "Select a session." && gridDisabled == old(gridDisabled))
        && (s.Some? && s.value.drivers == [] ==> buttons == [] && gridText == "No drivers yet." && gridDisabled == old(gridDisabled))
        && (s.Some? && s.value.drivers != [] ==>
              buttons == CarNumbers(s.value.drivers) && gridText == "" && gridDisabled == !LapAllowed(raceActive, currentRaceMode))
      ensures GridInSync()
      ensures latestSessions == old(latestSessions) && currentSessionId == old(currentSessionId)
      ensures raceActive == old(raceActive) && currentRaceMode == old(currentRaceMode)
      ensures raceStartTime == old(raceStartTime) && currentSession == old(currentSession)
    {
      buttons := [];
      gridText := "";
      var session := FindById(latestSessions, currentSessionId);
      if session.None? {
        gridText := "Select a session.";
        return;
      }
      var drivers := session.value.drivers;
      if |drivers| == 0 {
        gridText := "No drivers yet.";
        return;
      }
      buttons := CarNumbers(drivers);
      UpdateGridEnabled();
    }

    /** Keeps the selected id while it is set and listed, otherwise picks one. */
    method SettleSessionId()
      modifies this
      ensures currentSessionId == ChooseSessionId(latestSessions, old(currentSessionId))
      ensures latestSessions == old(latestSessions) && currentSession == old(currentSession)
      ensures raceActive == old(raceActive) && currentRaceMode == old(currentRaceMode)
      ensures raceStartTime == old(raceStartTime) && buttons == old(buttons)
      ensures gridText == old(gridText) && gridDisabled == old(gridDisabled)
    {
      if !Truthy(currentSessionId) || FindById(latestSessions, currentSessionId).None? {
        var withDrivers := FindWithDrivers(latestSessions);
        var picked := if withDrivers.Some? then withDrivers.value.id
                      else if |latestSessions| > 0 then latestSessions[0].id
                      else Undefined;
        currentSessionId := Or(picked, Null);
      }
    }

    /** The `sessions` handler: keep the list, settle on a session, join its
        room, then redraw the grid. */
    method OnSessions(p: SessionsPayload) returns (emits: seq<Emit>)
      modifies this
      ensures latestSessions == AsList(p)
      ensures currentSessionId == ChooseSessionId(AsList(p), old(currentSessionId))
      ensures currentSession == FindById(AsList(p), currentSessionId)
      ensures emits == JoinEmits(currentSessionId)
      ensures raceActive == old(raceActive) && currentRaceMode == old(currentRaceMode)
      ensures raceStartTime == old(raceStartTime)
      ensures GridInSync()
      ensures var s := FindById(latestSessions, currentSessionId);
        (s.None? ==> buttons == [] && gridText == "Select a session.")
        && (s.Some? && s.value.drivers == [] ==> buttons == [] && gridText == "No drivers yet.")
        && (s.Some? && s.value.drivers != [] ==>
              buttons == CarNumbers(s.value.drivers) && gridText == "" && gridDisabled == !LapAllowed(raceActive, currentRaceMode))
    {
      latestSessions := AsList(p);
      SettleSessionId();
      currentSession := FindById(latestSessions, currentSessionId);
      emits := JoinEmits(currentSessionId);
      RenderCarButtons();
    }

    /** A click on the button carrying `data-car = data`. */
    method Click(data: string) returns (emit: Option<Emit>)
      ensures emit.Some? <==> ClickedCar(data).Some? && LapAllowed(raceActive, currentRaceMode)
      ensures emit.Some? ==> emit.value == LapCrossed(ClickedCar(data).value, currentSessionId)
      ensures GridInSync() && buttons != [] ==> (emit.Some? <==> ClickedCar(data).Some? && !gridDisabled)
    {
      var carNumber := ToNumber(Text(data));
      if carNumber.None? || carNumber.value == 0 {
        return None;
      }
      if !LapAllowed(raceActive, currentRaceMode) {
        return None;
      }
      return Some(LapCrossed(carNumber.value, currentSessionId));
    }

    /** The `race-state` handler. */
    method OnRaceState(sessionId: Scalar, active: Scalar, mode: Scalar, startTime: Scalar)
      modifies this
      ensures !MatchesSession(sessionId, old(currentSessionId)) ==> unchanged(this)
      ensures MatchesSession(sessionId, old(currentSessionId)) ==>
        raceActive == Truthy(active) && currentRaceMode == ModeOf(mode) && raceStartTime == Or(startTime, Null)
        && gridDisabled == !LapAllowed(raceActive, currentRaceMode)
        && latestSessions == old(latestSessions) && currentSessionId == old(currentSessionId)
        && currentSession == old(currentSession) && buttons == old(buttons) && gridText == old(gridText)
      ensures old(GridInSync()) ==> GridInSync()
    {
      if !MatchesSession(sessionId, currentSessionId) {
        return;
      }
      raceActive := Truthy(active);
      currentRaceMode := ModeOf(mode);
      raceStartTime := Or(startTime, Null);
      UpdateGridEnabled();
    }

    /** The `race-mode-change` handler: only the mode changes. */
    method OnRaceModeChange(mode: Scalar, sessionId: Scalar)
      modifies this
      ensures !MatchesSession(sessionId, old(currentSessionId)) ==> unchanged(this)
      ensures MatchesSession(sessionId, old(currentSessionId)) ==>
        currentRaceMode == ModeOf(mode) && raceActive == old(raceActive) && raceStartTime == old(raceStartTime)
        && gridDisabled == !LapAllowed(raceActive, currentRaceMode)
        && latestSessions == old(latestSessions) && currentSessionId == old(currentSessionId)
        && currentSession == old(currentSession) && buttons == old(buttons) && gridText == old(gridText)
      ensures old(GridInSync()) ==> GridInSync()
    {
      if !MatchesSession(sessionId, currentSessionId) {
        return;
      }
      currentRaceMode := ModeOf(mode);
      UpdateGridEnabled();
    }

    /** The `race-started` handler; `now` stands for `Date.now()`. */
    method OnRaceStarted(sessionId: Scalar, startTime: Scalar, now: int)
      modifies this
      ensures !MatchesSession(sessionId, old(currentSessionId)) ==> unchanged(this)
      ensures MatchesSession(sessionId, old(currentSessionId)) ==>
        raceActive && raceStartTime == Or(startTime, Num(now)) && currentRaceMode == old(currentRaceMode)
        && gridDisabled == !LapAllowed(raceActive, currentRaceMode)
        && latestSessions == old(latestSessions) && currentSessionId == old(currentSessionId)
        && currentSession == old(currentSession) && buttons == old(buttons) && gridText == old(gridText)
      ensures old(GridInSync()) ==> GridInSync()
    {
      if !MatchesSession(sessionId, currentSessionId) {
        return;
      }
      raceActive := true;
      raceStartTime := Or(startTime, Num(now));
      UpdateGridEnabled();
    }

    /** The `race-stopped` and `race-completed` handlers, which are the same:
        the race is no longer active, so no lap is allowed. */
    method OnRaceStopped(sessionId: Scalar)
      modifies this
      ensures !MatchesSession(sessionId, old(currentSessionId)) ==> unchanged(this)
      ensures MatchesSession(sessionId, old(currentSessionId)) ==>
        !raceActive && gridDisabled && !LapAllowed(raceActive, currentRaceMode)
        && currentRaceMode == old(currentRaceMode) && raceStartTime == old(raceStartTime)
        && latestSessions == old(latestSessions) && currentSessionId == old(currentSessionId)
        && currentSession == old(currentSession) && buttons == old(buttons) && gridText == old(gridText)
      ensures old(GridInSync()) ==> GridInSync()
    {
      if !MatchesSession(sessionId, currentSessionId) {
        return;
      }
      raceActive := false;
      UpdateGridEnabled();
    }

    /** The dropdown's `onchange`: select `value`, join its room, and disable
        laps until the new session's race state arrives. */
    method OnSelectChange(value: string) returns (emits: seq<Emit>)
      modifies this
      ensures currentSessionId == Text(value)
      ensures currentSession == FindById(latestSessions, Text(value))
      ensures emits == JoinEmits(Text(value))
      ensures !raceActive && currentRaceMode == "SAFE" && raceStartTime == Null
      ensures !LapAllowed(raceActive, currentRaceMode) && gridDisabled && GridInSync()
      ensures latestSessions == old(latestSessions)
      ensures var s := FindById(latestSessions, Text(value));
        (s.None? ==> buttons == [] && gridText == "Select a session.")
        && (s.Some? && s.value.drivers == [] ==> buttons == [] && gridText == "No drivers yet.")
        && (s.Some? && s.value.drivers != [] ==> buttons == CarNumbers(s.value.drivers) && gridText == "")
    {
      currentSessionId := Text(value);
      currentSession := FindById(latestSessions, currentSessionId);
      emits := JoinEmits(currentSessionId);
      raceActive := false;
      currentRaceMode := "SAFE";
      raceStartTime := Null;
      RenderCarButtons();
      UpdateGridEnabled();
    }
  }
}
