# F1 racing app: a Dafny model of its race logic

The F1 racing app is a small Socket.IO race-track system. Its parts:

- A Node server checks role access keys, binds a role to each connection and
  keeps a shared list of race sessions that only the receptionist may extend.
- Several browser screens react to the events the server broadcasts:
  - the **leaderboard** merges session snapshots and lap events into per-car
    best laps and lap counts, sorts the table by best lap, numbers the
    positions, and shows the timer status and flag of each tick;
  - the **lap-line tracker** lets an observer record laps, and only while the
    race runs in a safe or hazard mode;
  - **race control** runs the five-minute countdown, sets the race mode and
    falls back to a test session;
  - the **next-race** screen shows the first or the second session, by mode;
  - the **countdown** screen shows the clock;
  - the **login** page validates the form, sends each role to its page and
    guards the protected pages.

The model lifts the logic out of the DOM and socket plumbing.

Values and payloads:

- JavaScript's dynamic values are `Js.Scalar`: undefined, null, booleans,
  integers and strings. `Js.Scalar` comes with truthiness, `||`, `??`,
  `String()` and an integer `Number()`.
- Payloads and sessions are datatypes (module `Sessions`).
- A socket handler is a method that takes its payload. What it sends is a
  returned value.

Engines and screens:

- Each engine that a screen mutates in place is a class with those fields, and
  the class's methods are proved against pure specification functions. The
  engines are:
  - `LeaderboardPage.LeaderBoard` over `Leaderboard`;
  - `LapLinePage.LapLineTracker` over `LapLine`;
  - `RaceControlPage.RaceControlPanel` over `RaceControl`;
  - `Server.RaceServer`;
  - `NextRacePage.NextRaceScreen` over `NextRace`.
- The formatters are pure functions (module `Format`). Each is paired with a
  parser, and the round trips are proved in `FormatLaws`.
- A single stable insertion sort (module `Sorting`) serves both sorts:
  - the leaderboard's, with rows lacking a time last;
  - the lap-line tracker's numeric sort.
- `Strings` holds decimal digits, padding, ASCII `toUpperCase` and `trim`.

Arithmetic:

- On integers, JavaScript's `Math.floor(x / n)` with `n > 0` is Dafny's `x / n`.
- JavaScript's truncating `%` is `Strings.JsRem`.

## Model

| member | source | states |
|---|---|---|
| Leaderboard.Faster | public/leader-board.js:106-113 | a best lap is replaced only by a positive number smaller than it (or where there is none); any other value leaves it; the result is never worse |
| Leaderboard.NextLap | public/leader-board.js:128-129 | the lap count after an event is max(prev, lapNumber) for a numeric lapNumber, else prev + 1; never below prev |
| Leaderboard.Remember | public/leader-board.js:94 | a Map `set` keeps an existing key's place and appends a new key at the end |
| Leaderboard.HydrateDriverEffect | public/leader-board.js:90-113 | of `HydrateDriver`, one pass of the hydrate loop: a snapshot entry with an empty key changes nothing; otherwise its car gets the entry's metadata, a numeric currentLap (or keeps or starts at 0) and the faster best lap; other cars untouched; maps stay consistent, no best lap worsens, no car moves |
| Leaderboard.HydrateAllEffect | public/leader-board.js:88-115 | of `HydrateAll`, `hydrateFromSnapshot`: a whole snapshot keeps the maps consistent, never worsens a best lap, never drops or reorders a car |
| Leaderboard.RegisterEffect | public/leader-board.js:121-126 | of `Register`, the registration in `onLapRecorded`: an unknown car is appended with no best lap and lap 0; a known car's state is left as it is; other cars untouched |
| Leaderboard.ApplyLapEffect | public/leader-board.js:121-136 | of `ApplyLap`, the body of `onLapRecorded`: an accepted lap event registers its car if needed, sets its lap count by NextLap and its best lap by Faster, and changes no other car; best lap never worsens and lap count never drops |
| Leaderboard.ReplayMonotone | public/leader-board.js:117-136 | of `Replay`, `onLapRecorded` folded over events: over any stream of lap events, consistency is kept, best laps only go down and lap counts only go up; with no current session nothing changes |
| Leaderboard.RepeatedLapKeepsCount | public/leader-board.js:128-129 | a lap number at or below the stored count leaves the count unchanged |
| Leaderboard.OrderIsPermutation | public/leader-board.js:161-169 | of `Order`: `state.order` is the driver keys sorted by the comparator, a permutation of them of the same length |
| Leaderboard.RowsOrdered | public/leader-board.js:161-167 | sorted rows: every timed row before every untimed one, timed rows by ascending best lap, untimed rows in insertion order (stability) |
| Leaderboard.TablePositions | public/leader-board.js:172-177 | of `Table`, the rendered lines: the i-th row shows position i + 1 when it has a best lap and '—' otherwise, so timed rows carry 1..k with no gap |
| Leaderboard.StatusOf | public/leader-board.js:246-257 | status by precedence: FINISH mode, else LIVE when the race is active, else ENDED when timeLeft === 0, else '—'; each as an if-and-only-if |
| Leaderboard.ClockText | public/leader-board.js:240-244 | a numeric timeLeft shows as MM:SS clamped at 0; anything else shows `--:--` |
| Leaderboard.ModeToFlag | public/leader-board.js:214-220 | SAFE, HAZARD, DANGER, FINISH map to GREEN, YELLOW, RED, CHECKERED (each both ways); every other mode maps to '' |
| Leaderboard.FlagFor | public/leader-board.js:261-285 | each switch group (GREEN; YELLOW / FULL COURSE YELLOW; RED; CHECKERED / CHECKER / CHEQUERED; SC / SAFETY_CAR) gets its classes and label, the safety car both `flag-yellow` and `flag-sc`; an unrecognised flag gets no class and shows its upper-cased text, or '—' when empty |
| Leaderboard.ModeFlags | public/leader-board.js:207-222 | each of the four modes, in any letter case, shows the flag of its colour with its label |
| Leaderboard.Pick | public/leader-board.js:35-41 | the session picked: none for an empty list; while the current id is listed, the first session with that id; else the first with drivers; else the first |
| Leaderboard.KeepsCurrent | public/leader-board.js:35-49 | while the current session's id is still listed, the pick keeps it and the page does not reset |
| LeaderboardPage.WriteLines | public/leader-board.js:171-203 | the row loop with its position counter writes exactly the numbered table lines |
| LeaderboardPage.LeaderBoard.constructor | public/leader-board.js:1-10 | no session, empty maps, empty order, not ended |
| LeaderboardPage.LeaderBoard.HydrateEntry | public/leader-board.js:90-113 | one loop pass updates the maps exactly as HydrateDriver says |
| LeaderboardPage.LeaderBoard.HydrateFromSnapshot | public/leader-board.js:88-115 | the loop over the drivers leaves the maps equal to HydrateAll of the snapshot |
| LeaderboardPage.LeaderBoard.CollectRows | public/leader-board.js:149-159 | the first loop builds one row per driver key, in insertion order |
| LeaderboardPage.LeaderBoard.RenderTable | public/leader-board.js:148-204 | `state.order` becomes the sorted keys and the table the numbered lines; the maps are unchanged |
| LeaderboardPage.LeaderBoard.EndSessionUI | public/leader-board.js:141-146 | the first call sets ENDED and shows the note; later calls change nothing (idempotent) |
| LeaderboardPage.LeaderBoard.UpdateFlag | public/leader-board.js:261-285 | the flag element becomes FlagFor of the raw flag |
| LeaderboardPage.LeaderBoard.Reset | public/leader-board.js:68-78 | switches to the session, clears the maps and order, un-ends the session, hides the note |
| LeaderboardPage.LeaderBoard.InitSession | public/leader-board.js:68-85 | the maps become the snapshot hydrated into empty maps, the table and order are rendered, the status shows '—', the name (or 'Current Session') is shown, the note is hidden, and a truthy session flag is applied; the rest of the screen, the timer text and mode among it, is kept |
| LeaderboardPage.LeaderBoard.OnSessions | public/leader-board.js:34-52 | an empty or non-array list changes nothing; a pick with a new id resets every map and re-hydrates, shows its name (or 'Current Session'), the status '—', hides the note and applies a truthy flag, keeping the rest of the screen; the same id hydrates on top of the current maps and redraws only the table |
| LeaderboardPage.LeaderBoard.RegisterCar | public/leader-board.js:121-126 | registers an unknown car as Register says |
| LeaderboardPage.LeaderBoard.RecordLap | public/leader-board.js:121-136 | the maps become ApplyLap of the event |
| LeaderboardPage.LeaderBoard.OnLapRecorded | public/leader-board.js:117-139 | events with no current session or a different sessionId change nothing; otherwise the maps become ApplyLap and the table is redrawn |
| LeaderboardPage.LeaderBoard.SetTimerFromPayload | public/leader-board.js:239-258 | timer text is ClockText; the session ends exactly on an ending tick; the status follows StatusOf, except that the first ending tick shows ENDED |
| LeaderboardPage.LeaderBoard.ApplyRaceModeVisuals | public/leader-board.js:207-222 | the mode display is the upper-cased mode; a known mode sets its flag; an unknown mode leaves the flag |
| LeaderboardPage.LeaderBoard.OnTimerUpdate | public/leader-board.js:58-65 | a tick for another session changes nothing; otherwise the session name (when given), mode, timer and status follow the tick, a known mode sets its flag (an unknown one keeps it), and the first ending tick shows the post-session note |
| FormatLaws.MinSecRoundTrip | public/race-control.js:180-189 | of `Format.MinSec`, `updateDisplay`'s MM:SS: for t >= 0 the MM:SS display reads back as t, and its seconds field is below 60 |
| FormatLaws.MinSecShort | public/race-countdown.js:8-12 | for 0 <= t < 6000 the display has length 5, a colon at index 2, and MM*60 + SS == t |
| FormatLaws.MinSecLong | public/race-countdown.js:9-12 | for t >= 6000 the minutes take three or more digits (padStart never truncates) |
| FormatLaws.LapFields | public/leader-board.js:294-301 | m*60000 + s*1000 + millis == ms with s < 60 and millis < 1000 |
| FormatLaws.FmtLapRoundTrip | public/leader-board.js:294-301 | of `Format.FmtLap`, `fmtLap`: the `M:SS.mmm` lap display reads back as the lap time |
| FormatLaws.ClockMatchesMinSec | public/leader-board.js:288-293 | of `Format.FmtClock`, `fmtClock`: the leaderboard clock for t seconds is the same text as the race-control display for t |
| LapLine.ModeOf | public/lap-line-tracker.js:80 | a falsy mode reads as SAFE; any other is upper-cased |
| LapLine.LowercaseModes | public/lap-line-tracker.js:202-205 | modes arriving in lower case read as the upper-case modes; laps are allowed in safe and hazard only |
| LapLine.ChooseSessionId | public/lap-line-tracker.js:40-44 | keep the stored id while it is set and listed; else the first session with drivers; else the first; else null; the result is truthy or null |
| LapLine.NumericCars | public/lap-line-tracker.js:182-184 | a number is kept exactly when some driver's car number converts to it |
| LapLine.NumericCarsAppend | public/lap-line-tracker.js:182-184 | map and filter work element by element: the list for two groups of drivers is the first group's list followed by the second's, for all inputs, so nothing is merged |
| LapLine.CarNumbersOrdered | public/lap-line-tracker.js:182-185 | the buttons are ascending, a permutation of the numeric car numbers (no deduplication) |
| LapLine.DuplicateCarsKept | public/lap-line-tracker.js:182-185 | two drivers with car 7 give two buttons 7 |
| LapLine.ClickedCar | public/lap-line-tracker.js:65-66 | a click reports Number(data) unless it is 0 or NaN |
| LapLine.ButtonReportsItsCar | public/lap-line-tracker.js:65-66 | a button carrying String(n) reports n, and nothing for n == 0 |
| LapLine.JoinEmits | public/lap-line-tracker.js:50-53 | join-session and get-race-state are sent exactly when a session id is set |
| LapLinePage.LapLineTracker.constructor | public/lap-line-tracker.js:2-9 | stored id or null, race inactive, mode SAFE, no start time, no sessions |
| LapLinePage.LapLineTracker.UpdateGridEnabled | public/lap-line-tracker.js:197-200 | the grid is disabled exactly when a lap is not allowed |
| LapLinePage.LapLineTracker.RenderCarButtons | public/lap-line-tracker.js:172-195 | no selected session: 'Select a session.'; no drivers: 'No drivers yet.'; else the sorted numeric car buttons, gated |
| LapLinePage.LapLineTracker.SettleSessionId | public/lap-line-tracker.js:40-44 | the selected id becomes ChooseSessionId of the list and the old id; everything else, the grid included, is kept |
| LapLinePage.LapLineTracker.OnSessions | public/lap-line-tracker.js:36-59 | keeps the list (a non-array as empty), settles the id, finds the current session, sends the join messages and redraws the grid in sync: no session gives no buttons and 'Select a session.', a session without drivers no buttons and 'No drivers yet.', otherwise its car buttons gated by the race state |
| LapLinePage.LapLineTracker.Click | public/lap-line-tracker.js:62-74 | lap:crossed is sent exactly when the car is non-zero and a lap is allowed, with the selected session id; no state changes |
| LapLinePage.LapLineTracker.OnRaceState | public/lap-line-tracker.js:77-84 | on a session mismatch nothing changes; otherwise raceActive = !!active, mode upper-cased (default SAFE), start time or null, grid gated; the list, the selection, the buttons and the grid text are kept |
| LapLinePage.LapLineTracker.OnRaceModeChange | public/lap-line-tracker.js:86-91 | on a mismatch nothing changes; otherwise only the mode changes, and the grid is re-gated; the buttons and the grid text are kept |
| LapLinePage.LapLineTracker.OnRaceStarted | public/lap-line-tracker.js:93-99 | on a mismatch nothing changes; otherwise the race is active, the start time is startTime or now, and the grid is re-gated; the buttons and the grid text are kept |
| LapLinePage.LapLineTracker.OnRaceStopped | public/lap-line-tracker.js:101-113 | race-stopped and race-completed: on a mismatch nothing changes; otherwise the race is inactive and the grid disabled; the buttons and the grid text are kept |
| LapLinePage.LapLineTracker.OnSelectChange | public/lap-line-tracker.js:150-169 | selects the value, rejoins its room, resets to inactive, SAFE and no start time, so laps are disallowed and the grid is disabled; the grid shows 'Select a session.', 'No drivers yet.' or the session's car buttons, as for `renderCarButtons` |
| RaceControl.StartClock | public/race-control.js:126-133 | no current session: nothing changes; otherwise timeLeft = duration and the race is active and ticking |
| RaceControl.Step | public/race-control.js:139-147 | a tick takes exactly one second off; at or below 0 the race is inactive and ticking stops; without an interval nothing changes |
| RaceControl.StopClock | public/race-control.js:153-161 | stop: inactive, no interval, timeLeft unchanged |
| RaceControl.Countdown | public/race-control.js:139-147 | from duration d > 0, k ticks leave d - k while k < d, and from d ticks on the race is over at 0 and does not move |
| RaceControl.StartButtonRunsFiveMinutes | public/race-control.js:255-258 | the Start button's 300 s run has 299 s left after the first tick, is still live after 299 ticks and over after 300; `startTimer` does not redraw, so the panel's first text is 04:59 (300 s would format as 05:00, never shown) and its last 00:00 |
| RaceControl.ButtonsFor | public/race-control.js:276-280 | start disabled iff active; stop and emergency disabled iff not active |
| RaceControl.StoredMode | public/race-control.js:213-221 | each button's mode is stored upper-cased, one of SAFE, HAZARD, DANGER, FINISH |
| RaceControl.ModesAgree | public/race-control.js:213-232 | if relayed, the tracker's race-mode-change handler reads the lower-case mode race control sends as the mode race control stores; laps would be allowed there in safe and hazard only |
| RaceControl.WithFallback | public/race-control.js:24-38 | with `TestSession` as the made-up session: an empty snapshot becomes one test session with drivers; any other is kept |
| RaceControl.Briefing | public/race-control.js:382-401 | 'No drivers assigned' for no drivers; else one `Car n - name` line per driver in order |
| RaceControl.SessionText | public/race-control.js:368 | the current session's name when truthy; 'No session selected' with no session or a falsy name |
| RaceControlPage.RaceControlPanel.constructor | public/race-control.js:79-119 | inactive at 0, no session, SAFE, timer 00:00 and 'Race Timer' |
| RaceControlPage.RaceControlPanel.UpdateButtonStates | public/race-control.js:276-280 | the buttons follow raceActive |
| RaceControlPage.RaceControlPanel.StartTimer | public/race-control.js:122-151 | the clock becomes StartClock; with no session nothing changes and nothing is sent; else race-started is sent with the session id |
| RaceControlPage.RaceControlPanel.StartPressed | public/race-control.js:255-258 | the Start button's `startTimer(300)`: with no session nothing changes and nothing is sent; otherwise a 300-second run starts, race-started is sent and the start time is now; the panel, the session, the list and the mode are kept |
| RaceControlPage.RaceControlPanel.UpdateDisplay | public/race-control.js:178-200 | the timer shows timeLeft as MM:SS and the status follows raceActive |
| RaceControlPage.RaceControlPanel.TimeExpired | public/race-control.js:163-176 | the race stops, the display shows 00:00, and race-completed is sent |
| RaceControlPage.RaceControlPanel.Tick | public/race-control.js:139-147 | the clock becomes Step of the old clock; the display follows; at 0 race-completed is sent |
| RaceControlPage.RaceControlPanel.StopTimer | public/race-control.js:153-161 | the clock becomes StopClock and race-stopped is sent, for both the Stop and the Emergency Stop button |
| RaceControlPage.RaceControlPanel.SetRaceMode | public/race-control.js:219-238 | the stored and shown mode is upper-cased; the lower-case mode is sent with the session id |
| RaceControlPage.RaceControlPanel.OnSessions | public/race-control.js:23-41 | the list is the snapshot or the test session; its first entry becomes current and the panel and briefing show it |
| Server.Startup | server.js:5-8 | the server starts exactly when all three keys are set and non-empty |
| Server.KeysAreNotShared | server.js:27-30 | of `Admits`, the three key checks: each role is admitted only with its own key, and never with the empty key |
| Server.RaceServer.constructor | server.js:21 | no sessions |
| Server.OtherRolesRefused | server.js:26-30 | a role other than the three is refused whatever the key |
| Server.RaceServer.OnAuth | server.js:26-39 | success exactly for the three (role, key) pairs; success binds the role and sends the snapshot; failure changes nothing and sends none |
| Server.RaceServer.OnAddSession | server.js:41-46 | a non-receptionist changes nothing; a receptionist appends exactly one session, `NewSession`'s `{ id: now, name }`, with no uniqueness check, and the list is broadcast |
| NextRace.NameOf | public/next-race.js:41 | the shown name is the session name, else its id, else `[object Object]` |
| NextRace.Show | public/next-race.js:41-48 | the name plus one `Car n - name` line per driver, in driver order |
| NextRace.RenderCases | public/next-race.js:24-49 | of `Render`, `renderSession`: none received: failure; empty: 'No sessions'; SAFE with fewer than two: 'No second session'; SAFE: index 1; other modes: index 0 |
| NextRacePage.NextRaceScreen.OnSessions | public/next-race.js:6-9 | stores the list, a non-array as empty |
| NextRacePage.NextRaceScreen.OnTimerUpdate | public/next-race.js:16-21 | the mode changes only for a non-null payload; the screen is redrawn |
| Login.RequiredRole | public/login.js:132-139 | the three protected pages map to receptionist, safety, observer; all others to null |
| Login.Redirect | public/login.js:89-103 | receptionist, safety and observer are sent to a page, and each to the page that requires that role; any other role shows 'Invalid role selected' |
| Login.RedirectRoundTrip | public/login.js:89-139 | the redirect and the page guard's role table are inverse: every protected page is where its required role is sent |
| Login.Validate | public/login.js:46-54 | an empty role fails first; then a blank (whitespace-only) key fails; otherwise no error |
| Login.Submit | public/login.js:36-81 | auth is sent exactly when validation passes; otherwise the validation error is shown |
| Login.OnAuthResult | public/login.js:66-77 | success stores the flag and role and redirects; failure stores nothing and shows the error |
| Login.Guard | public/login.js:106-129 | unprotected pages stay; with no flag or role the page goes to login; a role other than the required one goes to login after the alert |
| Login.LoginThenGuard | public/login.js:66-139 | after a successful login the page redirected to admits the user and every other protected page sends them back |
| Countdown.TimerText | public/race-countdown.js:8-12 | a number or numeric text shows MM:SS; anything else shows `NaN:NaN` |
| Countdown.TextContent | public/race-countdown.js:15-18 | null and undefined (an absent field) clear the text; anything else is stringified; the text is empty exactly for those two and the empty string |
| Countdown.Show | public/race-countdown.js:5-19 | the timer text of a tick; the mode and session texts are empty exactly when the field is absent, null or empty, and otherwise show a text field as it is |
| Countdown.SameAsRaceControl | public/race-countdown.js:8-12 | the countdown shows the race-control text for the same seconds, as number or text; it reads back; it is five characters below 100 minutes |
| Sessions.FindIndex | public/lap-line-tracker.js:41 | the first index satisfying the predicate, or none when no element does |
| Sessions.FindById | public/lap-line-tracker.js:47 | a session string-equal in id exists exactly when one is found, and the one found is the first such in the list (ids may repeat) |
| Sessions.FindWithDrivers | public/leader-board.js:40 | the first session with drivers, found exactly when one exists |
| Sessions.AsList | public/next-race.js:8 | an array payload is kept; anything else is the empty list |
| Sorting.SortBy | public/leader-board.js:161-167 | the sort's output is a permutation of its input, of the same length |
| Sorting.SortIsSorted | public/leader-board.js:161-167 | the sort's output is ordered by rank, no element ranking strictly below an earlier one |
| Sorting.SortIsStable | public/leader-board.js:161-167 | the elements of one rank keep their input order |
| Strings.TrimEmptyIffBlank | public/login.js:51 | `key.trim()` is empty exactly when the key is all whitespace |
| Js.NumberOfIntString | public/lap-line-tracker.js:65 | of `Js.ToNumber` and `Js.ToStr`: Number of the decimal text of n is n |

## Left out

- DOM and CSS are represented only by the texts and flags a screen shows. This leaves out:
  - background images and colours;
  - list elements and `console` output;
  - `alert` text;
  - `public/race-flags.js`, `public/nav.js` and `public/fullscreen.js`, which are styling only;
  - `public/front-desk.js`, which is UI glue that only sends `add-session`.
- Socket.IO transport and fan-out are not modelled. A handler is a method called with its payload, and what it sends or broadcasts is its return value.
- The server sends no session list on connect. It has no handlers for `request-race-data`, `get-sessions`, `join-session`, `get-race-state`, `lap:crossed`, the race events or `timer-update`, so the model relays nothing between clients. The server also implements no driver registry, lap timing or persistence.
- Timing and scheduling are not modelled:
  - the 500 ms auth delay and the 100 ms button set-up delay;
  - `setInterval` itself (a tick is an explicit call).
- Race control's interval leak is not modelled. A second `startTimer` does not clear the first interval, so both keep ticking; the model has one interval.
- `Date.now()` is a parameter. The elapsed-seconds race-duration text on race control and on the lap-line tracker is not modelled.
- `localStorage` and `sessionStorage` are input values. The writes of the selected lap-line session id are not modelled.
- Numbers are integers. Fractional milliseconds and floats are left out.
- `Number()` is modelled only on integers and decimal digit strings. Any other string, or NaN, is `None`.
- `toUpperCase` is ASCII-only.
- A `drivers` field that is not an array is read as the empty list. Session entries that are not objects are not modelled, so the leaderboard's `!picked` guard cannot fire.
- Race control's session list items, connection-error text, logout and the `auth-result` UI set-up are not modelled. Neither are the lap-line tracker's dropdown options and race-info panel.
- The login page's role dropdown and its connection-error message are not modelled.
- Null payloads that would make a handler throw a TypeError are not modelled, for example:
  - `null` auth or add-session data;
  - a `null` tick on the countdown screen.

  `NextRace.Render` models the one such case the source reaches in normal operation: a render before any snapshot.
- NextRace.RenderCases: the mode test is an exact comparison with upper-case `SAFE`. The screen reads its mode only from `timer-update`, which nothing in the source emits. It is modelled as written: `NextRace.LowercaseSafeShowsFirst` states that a `timer-update` whose `raceMode` is lower-case `safe` shows the first session.
- LeaderboardPage.LeaderBoard.RenderTable requires the maps to be consistent. The source never breaks this, and every handler is proved to preserve it.
- RaceControlPage.RaceControlPanel.UpdateButtonStates assumes the three buttons exist. In the source they are set up 100 ms after `auth-result`.
