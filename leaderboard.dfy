/** The leaderboard's state engine: per-car metadata, best lap and current lap
    merged from session snapshots and `lap:recorded` events, the row order and
    positions of the rendered table, the timer status read from a tick and the
    flag shown for a race mode. The page object that holds this state is
    `LeaderboardPage.LeaderBoard`. */
module Leaderboard {
  import opened Strings
  import opened Js
  import opened Sorting
  import opened Format
  import opened Sessions

  /** What `state.drivers` holds for a car: its key, display name and car number. */
  datatype DriverMeta = DriverMeta(id: string, name: Scalar, carNumber: Scalar)

  /** The three per-car maps. `keys` is the insertion order of `state.drivers`
      (a JavaScript `Map` iterates in insertion order, and setting an existing
      key keeps its place). A stored best lap of `undefined` is `None`. */
  datatype Standings = Standings(
    keys: seq<string>,
    drivers: map<string, DriverMeta>,
    best: map<string, Option<int>>,
    laps: map<string, int>)

  /** The three maps have the same keys, and `keys` lists them once each. */
  ghost predicate Valid(st: Standings) {
    Distinct(st.keys)
    && (forall k :: k in st.drivers <==> k in st.keys)
    && st.best.Keys == st.drivers.Keys
    && st.laps.Keys == st.drivers.Keys
  }

  /** No key is listed twice. */
  ghost predicate Distinct(keys: seq<string>) {
    forall i, j :: 0 <= i < j < |keys| ==> keys[i] != keys[j]
  }

  const Empty := Standings([], map[], map[], map[])

  /** The key order after `Map.prototype.set(key, …)`. */
  function Remember(keys: seq<string>, key: string): (r: seq<string>)
    ensures key in r
    ensures |keys| <= |r| && r[..|keys|] == keys
    ensures key in keys ==> r == keys
    ensures key !in keys ==> r == keys + [key]
  {
    if key in keys then keys else keys + [key]
  }

  /** `state.bestLapMs.get(key)`, where a missing key and a stored `undefined`
      both read as no value. */
  function BestOf(st: Standings, key: string): Option<int> {
    if key in st.best then st.best[key] else None
  }

  /** `state.currentLapNum.get(key) ?? 0` */
  function LapOf(st: Standings, key: string): int {
    if key in st.laps then st.laps[key] else 0
  }

  /** A best lap `b` is no worse than `a`: once there is a time, it only goes down. */
  predicate NoWorse(a: Option<int>, b: Option<int>) {
    a.Some? ==> b.Some? && b.value <= a.value
  }

  /** The best-lap rule shared by snapshots and lap events: a positive number
      replaces the stored value when there is none or when it is smaller;
      anything else leaves the stored value. */
  function Faster(prev: Option<int>, t: Scalar): (r: Option<int>)
    ensures NoWorse(prev, r)
    ensures r != prev ==> t == Num(r.value) && r.value > 0
    ensures t.Num? && t.n > 0 && (prev.None? || t.n < prev.value) ==> r == Some(t.n)
    ensures !(t.Num? && t.n > 0) ==> r == prev
  {
    if t.Num? && t.n > 0 && (prev.None? || t.n < prev.value) then Some(t.n) else prev
  }

  /** Every best lap of `a` is still there in `b`, and no worse. */
  predicate BestNoWorse(a: Standings, b: Standings) {
    forall k :: k in a.best ==> k in b.best && NoWorse(a.best[k], b.best[k])
  }

  /** Every lap count of `a` is still there in `b`, and no lower. */
  predicate LapsNoLower(a: Standings, b: Standings) {
    forall k :: k in a.laps ==> k in b.laps && b.laps[k] >= a.laps[k]
  }

  /** Cars are only ever added, at the end, and keep their metadata's place. */
  predicate Extends(a: Standings, b: Standings) {
    |a.keys| <= |b.keys| && b.keys[..|a.keys|] == a.keys
  }

  /** Every car other than `key` has the same metadata, lap and best lap in `b` as in `a`. */
  predicate KeepsOthers(a: Standings, b: Standings, key: string) {
    forall k :: k in a.drivers && k in a.laps && k in a.best && k != key ==>
      k in b.drivers && k in b.laps && k in b.best
      && b.drivers[k] == a.drivers[k] && b.laps[k] == a.laps[k] && b.best[k] == a.best[k]
  }

  /** The metadata a snapshot entry stores: `name || \`Driver ${carNumber ?? ''}\``
      and `carNumber ?? '?'`. */
  function SnapshotMeta(key: string, d: DriverSnap): DriverMeta {
    DriverMeta(key, Or(d.name, Text("Driver " + ToStr(Coalesce(d.carNumber, Text(""))))),
               Coalesce(d.carNumber, Text("?")))
  }

  /** One iteration of `hydrateFromSnapshot`'s loop. The entry is skipped when
      `String(carNumber)` is empty; otherwise its metadata is overwritten, its
      current lap is overwritten by a number (or starts at 0 for a new car), and
      its best lap follows `Faster`. */
  function HydrateDriver(st: Standings, d: DriverSnap): Standings {
    var key := ToStr(d.carNumber);
    if key == "" then st
    else
      Standings(
        Remember(st.keys, key),
        st.drivers[key := SnapshotMeta(key, d)],
        st.best[key := Faster(BestOf(st, key), d.fastestLapMs)],
        st.laps[key := if d.currentLap.Num? then d.currentLap.n else LapOf(st, key)])
  }

  /** What one snapshot entry does: nothing for an empty key; otherwise the
      entry's car takes its metadata, lap and best lap from the entry and every
      other car is untouched. The maps stay consistent, no best lap gets worse
      and no car is dropped or moved. */
  lemma HydrateDriverEffect(st: Standings, d: DriverSnap)
    requires Valid(st)
    ensures var r := HydrateDriver(st, d);
      Valid(r) && BestNoWorse(st, r) && Extends(st, r)
    ensures ToStr(d.carNumber) == "" ==> HydrateDriver(st, d) == st
    ensures var r := HydrateDriver(st, d); var key := ToStr(d.carNumber);
      key != "" ==>
        key in r.drivers && r.drivers[key] == SnapshotMeta(key, d)
        && r.laps[key] == (if d.currentLap.Num? then d.currentLap.n else LapOf(st, key))
        && r.best[key] == Faster(BestOf(st, key), d.fastestLapMs)
        && KeepsOthers(st, r, key)
  {
    var key := ToStr(d.carNumber);
    if key != "" {
      UpdateKeepsValid(st, key, SnapshotMeta(key, d), Faster(BestOf(st, key), d.fastestLapMs),
                       if d.currentLap.Num? then d.currentLap.n else LapOf(st, key));
    }
  }

  /** Remembering a key keeps the list free of repeats and adds just that key. */
  lemma RememberDistinct(keys: seq<string>, key: string)
    requires Distinct(keys)
    ensures Distinct(Remember(keys, key))
    ensures forall k :: k in Remember(keys, key) <==> k in keys || k == key
  {
    var ks := Remember(keys, key);
    if key !in keys {
      forall i, j | 0 <= i < j < |ks| ensures ks[i] != ks[j] {
        assert ks[i] == keys[i];
      }
    }
  }

  /** Setting one car's three entries, and remembering its key, keeps the maps
      consistent, keeps every other car and worsens no best lap when the new
      best is no worse. */
  lemma UpdateKeepsValid(st: Standings, key: string, m: DriverMeta, b: Option<int>, lap: int)
    requires Valid(st)
    ensures var r := Standings(Remember(st.keys, key), st.drivers[key := m], st.best[key := b], st.laps[key := lap]);
      Valid(r) && Extends(st, r) && KeepsOthers(st, r, key)
      && (NoWorse(BestOf(st, key), b) ==> BestNoWorse(st, r))
  {
    var r := Standings(Remember(st.keys, key), st.drivers[key := m], st.best[key := b], st.laps[key := lap]);
    RememberDistinct(st.keys, key);
    assert r.best.Keys == r.drivers.Keys && r.laps.Keys == r.drivers.Keys;
    assert Valid(r);
    UpdateKeepsOthers(st, key, m, b, lap);
  }

  lemma UpdateKeepsOthers(st: Standings, key: string, m: DriverMeta, b: Option<int>, lap: int)
    ensures var r := Standings(Remember(st.keys, key), st.drivers[key := m], st.best[key := b], st.laps[key := lap]);
      Extends(st, r) && KeepsOthers(st, r, key) && (NoWorse(BestOf(st, key), b) ==> BestNoWorse(st, r))
  {
  }

  /** `hydrateFromSnapshot` over a whole `drivers` array, in array order. */
  function HydrateAll(st: Standings, ds: seq<DriverSnap>): Standings
    decreases |ds|
  {
    if ds == [] then st else HydrateDriver(HydrateAll(st, ds[..|ds| - 1]), ds[|ds| - 1])
  }

  /** A whole snapshot keeps the maps consistent, never worsens a best lap and
      never drops or moves a car. */
  lemma {:induction false} HydrateAllEffect(st: Standings, ds: seq<DriverSnap>)
    requires Valid(st)
    ensures var r := HydrateAll(st, ds); Valid(r) && BestNoWorse(st, r) && Extends(st, r)
    decreases |ds|
  {
    if ds != [] {
      var prev := HydrateAll(st, ds[..|ds| - 1]);
      HydrateAllEffect(st, ds[..|ds| - 1]);
      HydrateDriverEffect(prev, ds[|ds| - 1]);
      var r := HydrateAll(st, ds);
      assert r.keys[..|prev.keys|] == prev.keys;
      assert r.keys[..|st.keys|] == prev.keys[..|st.keys|];
    }
  }

  /** The key a lap event is filed under: `String(carNumber ?? driverId)`. */
  function EventKey(ev: LapEvent): string {
    ToStr(Coalesce(ev.carNumber, ev.driverId))
  }

  /** The lap count after an event: `Math.max(prev, lapNumber)` for a numeric
      `lapNumber`, otherwise `prev + 1`. */
  function NextLap(prev: int, lapNumber: Scalar): (r: int)
    ensures r >= prev
    ensures lapNumber.Num? ==> r == if lapNumber.n > prev then lapNumber.n else prev
    ensures !lapNumber.Num? ==> r == prev + 1
  {
    var n := if lapNumber.Num? then lapNumber.n else prev + 1;
    if n > prev then n else prev
  }

  /** An unknown car is registered first: named after the event, no best lap, lap 0. */
  function Register(st: Standings, ev: LapEvent): Standings {
    var key := EventKey(ev);
    if key in st.drivers then st
    else
      Standings(
        st.keys + [key],
        st.drivers[key := DriverMeta(key, Text("Driver " + ToStr(Coalesce(ev.carNumber, ev.driverId))),
                                     Coalesce(ev.carNumber, Text("?")))],
        st.best[key := None],
        st.laps[key := 0])
  }

  /** Registering leaves a known car's state alone and gives an unknown car a
      place at the end, no best lap and lap 0. */
  lemma RegisterEffect(st: Standings, ev: LapEvent)
    requires Valid(st)
    ensures var r := Register(st, ev);
      Valid(r) && EventKey(ev) in r.drivers
      && BestNoWorse(st, r) && Extends(st, r) && KeepsOthers(st, r, EventKey(ev))
    ensures EventKey(ev) in st.drivers ==> Register(st, ev) == st
    ensures var r := Register(st, ev);
      EventKey(ev) !in st.drivers ==>
        r.keys == st.keys + [EventKey(ev)] && r.best[EventKey(ev)] == None && r.laps[EventKey(ev)] == 0
    ensures LapsNoLower(st, Register(st, ev))
  {
    var key := EventKey(ev);
    if key !in st.drivers {
      var m := DriverMeta(key, Text("Driver " + ToStr(Coalesce(ev.carNumber, ev.driverId))),
                          Coalesce(ev.carNumber, Text("?")));
      UpdateKeepsValid(st, key, m, None, 0);
      assert Register(st, ev) == Standings(Remember(st.keys, key), st.drivers[key := m], st.best[key := None], st.laps[key := 0]);
    }
  }

  /** The state change of an accepted `lap:recorded` event: the lap count
      becomes `NextLap` of the stored one, and a positive lap time below the
      stored best (or with no stored best) becomes the best lap. */
  function ApplyLap(st: Standings, ev: LapEvent): Standings {
    var s := Register(st, ev);
    var key := EventKey(ev);
    var prev := BestOf(s, key);
    Standings(s.keys, s.drivers,
              if ev.lapTimeMs.Num? && ev.lapTimeMs.n > 0 && (prev.None? || ev.lapTimeMs.n < prev.value)
              then s.best[key := Some(ev.lapTimeMs.n)] else s.best,
              s.laps[key := NextLap(LapOf(s, key), ev.lapNumber)])
  }

  /** An accepted event registers its car if needed, raises its lap count by
      `NextLap` and lowers its best lap by `Faster`; nothing else changes. */
  lemma ApplyLapEffect(st: Standings, ev: LapEvent)
    requires Valid(st)
    ensures var r := ApplyLap(st, ev);
      Valid(r) && BestNoWorse(st, r) && Extends(st, r)
    ensures LapsNoLower(st, ApplyLap(st, ev))
    ensures var r := ApplyLap(st, ev); var key := EventKey(ev);
      key in r.drivers
      && r.laps[key] == NextLap(LapOf(Register(st, ev), key), ev.lapNumber)
      && r.best[key] == Faster(BestOf(Register(st, ev), key), ev.lapTimeMs)
      && KeepsOthers(st, r, key)
  {
    RegisterEffect(st, ev);
    var s := Register(st, ev);
    var key := EventKey(ev);
    var b := Faster(BestOf(s, key), ev.lapTimeMs);
    SetSame(s.best, key);
    assert ApplyLap(st, ev) == Standings(s.keys, s.drivers, s.best[key := b], s.laps[key := NextLap(LapOf(s, key), ev.lapNumber)]);
    SetTimes(s, key, b, NextLap(LapOf(s, key), ev.lapNumber));
    StepsCompose(st, s, ApplyLap(st, ev), key);
  }

  /** Setting a key of a map to the value it already has. */
  lemma SetSame<K, V>(m: map<K, V>, k: K)
    requires k in m
    ensures m[k := m[k]] == m
  {
  }

  /** Recording a no-worse best lap and a no-lower lap count for a known car. */
  lemma SetTimes(s: Standings, key: string, b: Option<int>, lap: int)
    requires Valid(s) && key in s.drivers
    requires NoWorse(BestOf(s, key), b) && lap >= LapOf(s, key)
    ensures var r := Standings(s.keys, s.drivers, s.best[key := b], s.laps[key := lap]);
      Valid(r) && BestNoWorse(s, r) && Extends(s, r) && KeepsOthers(s, r, key)
      && LapsNoLower(s, r)
  {
    assert key in s.best && key in s.laps;
    SetTimesValid(s, key, b, lap);
    SetTimesMonotone(s, key, b, lap);
  }

  lemma SetTimesValid(s: Standings, key: string, b: Option<int>, lap: int)
    requires Valid(s) && key in s.drivers
    ensures Valid(Standings(s.keys, s.drivers, s.best[key := b], s.laps[key := lap]))
  {
    var r := Standings(s.keys, s.drivers, s.best[key := b], s.laps[key := lap]);
    assert r.best.Keys == s.best.Keys;
    assert r.laps.Keys == s.laps.Keys;
  }

  lemma SetTimesMonotone(s: Standings, key: string, b: Option<int>, lap: int)
    requires key in s.best && key in s.laps
    requires NoWorse(s.best[key], b) && lap >= s.laps[key]
    ensures var r := Standings(s.keys, s.drivers, s.best[key := b], s.laps[key := lap]);
      BestNoWorse(s, r) && Extends(s, r) && KeepsOthers(s, r, key) && LapsNoLower(s, r)
  {
    var r := Standings(s.keys, s.drivers, s.best[key := b], s.laps[key := lap]);
    assert r.keys[..|s.keys|] == s.keys;
  }

  /** Two steps that each keep the other cars, worsen no best lap, drop no car
      and lower no lap count do so together. */
  lemma StepsCompose(a: Standings, b: Standings, c: Standings, key: string)
    requires KeepsOthers(a, b, key) && KeepsOthers(b, c, key)
    requires BestNoWorse(a, b) && BestNoWorse(b, c)
    requires Extends(a, b) && Extends(b, c)
    requires LapsNoLower(a, b) && LapsNoLower(b, c)
    ensures KeepsOthers(a, c, key) && BestNoWorse(a, c) && Extends(a, c)
    ensures LapsNoLower(a, c)
  {
    assert c.keys[..|a.keys|] == b.keys[..|b.keys|][..|a.keys|];
  }

  /** Events are applied only with a current session, and only when they carry
      no `sessionId` or the current session's id. */
  predicate Accepts(current: Option<Session>, ev: LapEvent) {
    current.Some? && (!Truthy(ev.sessionId) || SameId(ev.sessionId, current.value.id))
  }

  /** A stream of events as the page handles them, each one filtered by `Accepts`. */
  function Replay(st: Standings, current: Option<Session>, evs: seq<LapEvent>): Standings
    decreases |evs|
  {
    if evs == [] then st
    else
      var prev := Replay(st, current, evs[..|evs| - 1]);
      var ev := evs[|evs| - 1];
      if Accepts(current, ev) then ApplyLap(prev, ev) else prev
  }

  /** Over any stream of lap events the maps stay consistent, the best laps
      only go down and the lap counts only go up; with no current session
      nothing changes at all. */
  lemma {:induction false} ReplayMonotone(st: Standings, current: Option<Session>, evs: seq<LapEvent>)
    requires Valid(st)
    ensures Valid(Replay(st, current, evs))
    ensures BestNoWorse(st, Replay(st, current, evs)) && LapsNoLower(st, Replay(st, current, evs))
    ensures current.None? ==> Replay(st, current, evs) == st
    decreases |evs|
  {
    if evs != [] {
      var init := evs[..|evs| - 1];
      var ev := evs[|evs| - 1];
      var prev := Replay(st, current, init);
      ReplayMonotone(st, current, init);
      var r := Replay(st, current, evs);
      if Accepts(current, ev) {
        ApplyLapEffect(prev, ev);
        assert r == ApplyLap(prev, ev);
        NoLowerCompose(st, prev, r);
      } else {
        assert r == prev;
      }
    }
  }

  lemma NoLowerCompose(a: Standings, b: Standings, c: Standings)
    requires BestNoWorse(a, b) && BestNoWorse(b, c) && LapsNoLower(a, b) && LapsNoLower(b, c)
    ensures BestNoWorse(a, c) && LapsNoLower(a, c)
  {
  }

  /** A lap number that goes backwards does not lower the count; the count
      drops only if a snapshot brings a smaller number. */
  lemma RepeatedLapKeepsCount(st: Standings, ev: LapEvent)
    requires Valid(st) && EventKey(ev) in st.drivers
    requires ev.lapNumber.Num? && ev.lapNumber.n <= LapOf(st, EventKey(ev))
    ensures ApplyLap(st, ev).laps[EventKey(ev)] == st.laps[EventKey(ev)]
  {
    RegisterEffect(st, ev);
  }

  // ---- rows, order and positions ----

  /** One row of `renderTable`. */
  datatype Row = Row(key: string, carNumber: Scalar, name: Scalar, best: Option<int>, currentLap: int)

  /** The row built for `key`; every key of a valid state has metadata. */
  function RowOf(st: Standings, key: string): (r: Row)
    ensures r.key == key && r.best == BestOf(st, key) && r.currentLap == LapOf(st, key)
  {
    var m := if key in st.drivers then st.drivers[key] else DriverMeta(key, Undefined, Undefined);
    Row(key, m.carNumber, m.name, BestOf(st, key), LapOf(st, key))
  }

  function RowFor(st: Standings): string -> Row {
    k => RowOf(st, k)
  }

  /** The rows in `state.drivers` order. */
  function Rows(st: Standings): seq<Row> {
    Map(st.keys, RowFor(st))
  }

  /** The comparator: timed rows by best lap, rows without a time after them. */
  function RowRank(r: Row): Rank {
    if r.best.Some? then Finite(r.best.value) else Last
  }

  /** The same comparator seen from a driver key. */
  function KeyRank(st: Standings): string -> Rank {
    k => RowRank(RowOf(st, k))
  }

  function Sorted(st: Standings): seq<Row> {
    SortBy(Rows(st), RowRank)
  }

  function KeyOfRow(r: Row): string {
    r.key
  }

  /** `state.order = rows.map(r => r.key)` after the sort. */
  function Order(st: Standings): seq<string> {
    Map(Sorted(st), KeyOfRow)
  }

  lemma {:induction false} MapKeys(st: Standings, ks: seq<string>)
    ensures Map(Map(ks, RowFor(st)), KeyOfRow) == ks
    decreases |ks|
  {
    if ks != [] {
      MapKeys(st, ks[1..]);
      assert Map(ks, RowFor(st))[1..] == Map(ks[1..], RowFor(st));
    }
  }

  /** `state.order` is the driver keys sorted by best lap, so it is a
      permutation of them: every car appears exactly once. */
  lemma OrderIsPermutation(st: Standings)
    ensures Order(st) == SortBy(st.keys, KeyRank(st))
    ensures multiset(Order(st)) == multiset(st.keys)
    ensures |Order(st)| == |st.keys|
  {
    SortMap(st.keys, RowFor(st), RowRank, KeyRank(st));
    MapKeys(st, SortBy(st.keys, KeyRank(st)));
  }

  /** The rows come out with every timed row first, by ascending best lap, and
      the untimed rows after them in `state.drivers` order. */
  lemma RowsOrdered(st: Standings)
    ensures SortedBy(Sorted(st), RowRank)
    ensures forall i, j :: 0 <= i < j < |Sorted(st)| && Sorted(st)[j].best.Some? ==> Sorted(st)[i].best.Some?
    ensures forall i, j :: 0 <= i < j < |Sorted(st)| && Sorted(st)[i].best.Some? && Sorted(st)[j].best.Some?
                           ==> Sorted(st)[i].best.value <= Sorted(st)[j].best.value
    ensures Filter(Sorted(st), RowRank, Last) == Filter(Rows(st), RowRank, Last)
  {
    SortIsSorted(Rows(st), RowRank);
    SortIsStable(Rows(st), RowRank, Last);
    var s := Sorted(st);
    forall i, j | 0 <= i < j < |s| && s[j].best.Some? ensures s[i].best.Some? {
      assert !RankLt(RowRank(s[j]), RowRank(s[i]));
    }
    forall i, j | 0 <= i < j < |s| && s[i].best.Some? && s[j].best.Some?
      ensures s[i].best.value <= s[j].best.value
    {
      assert !RankLt(RowRank(s[j]), RowRank(s[i]));
    }
  }

  /** One `<tr>`: position, car, driver, best lap with its CSS class, current lap. */
  datatype Line = Line(position: string, car: string, driver: string, best: string, bestClass: string, lap: string)

  const Dash := "\U{2014}"

  /** A row with the value the position counter has when the row is reached. */
  datatype Numbered = Numbered(row: Row, pos: int)

  /** The number of timed rows. */
  function Timed(rows: seq<Row>): nat
    decreases |rows|
  {
    if rows == [] then 0
    else Timed(rows[..|rows| - 1]) + (if rows[|rows| - 1].best.Some? then 1 else 0)
  }

  /** `let pos = start; for (const r of rows) … r.bestLapMs == null ? '—' : String(pos++)`:
      each row meets the counter advanced once per timed row before it. */
  function Numbering(rows: seq<Row>, start: int): (r: seq<Numbered>)
    ensures |r| == |rows|
    decreases |rows|
  {
    if rows == [] then []
    else
      var init := rows[..|rows| - 1];
      Numbering(init, start) + [Numbered(rows[|rows| - 1], start + Timed(init))]
  }

  function LineOf(n: Numbered): Line {
    var r := n.row;
    Line(if r.best.None? then Dash else IntToString(n.pos),
         ToStr(r.carNumber), ToStr(r.name),
         if r.best.None? then Dash else FmtLap(r.best.value),
         if r.best.None? then "time-na" else "time-good",
         if r.currentLap > 0 then IntToString(r.currentLap) else Dash)
  }

  /** One line per numbered row, in order. */
  function Lines(ns: seq<Numbered>): (r: seq<Line>)
    ensures |r| == |ns|
    decreases |ns|
  {
    if ns == [] then [] else Lines(ns[..|ns| - 1]) + [LineOf(ns[|ns| - 1])]
  }

  lemma {:induction false} LinesAt(ns: seq<Numbered>, i: int)
    requires 0 <= i < |ns|
    ensures Lines(ns)[i] == LineOf(ns[i])
    decreases |ns|
  {
    if i < |ns| - 1 {
      LinesAt(ns[..|ns| - 1], i);
    }
  }

  /** The table `renderTable` writes. */
  function Table(st: Standings): seq<Line> {
    Lines(Numbering(Sorted(st), 1))
  }

  /** Writing one more row extends the table by that row's line, numbered with
      the counter advanced once per timed row before it. */
  lemma TableStep(rows: seq<Row>, j: int)
    requires 0 <= j < |rows|
    ensures Lines(Numbering(rows[..j + 1], 1))
         == Lines(Numbering(rows[..j], 1)) + [LineOf(Numbered(rows[j], 1 + Timed(rows[..j])))]
    ensures Timed(rows[..j + 1]) == Timed(rows[..j]) + (if rows[j].best.Some? then 1 else 0)
  {
    NumberingStep(rows, j);
    LinesSnoc(Numbering(rows[..j], 1), Numbered(rows[j], 1 + Timed(rows[..j])));
  }

  lemma NumberingStep(rows: seq<Row>, j: int)
    requires 0 <= j < |rows|
    ensures Numbering(rows[..j + 1], 1) == Numbering(rows[..j], 1) + [Numbered(rows[j], 1 + Timed(rows[..j]))]
    ensures Timed(rows[..j + 1]) == Timed(rows[..j]) + (if rows[j].best.Some? then 1 else 0)
  {
    var done := rows[..j + 1];
    assert done[..|done| - 1] == rows[..j];
    assert done[|done| - 1] == rows[j];
  }

  lemma LinesSnoc(ns: seq<Numbered>, n: Numbered)
    ensures Lines(ns + [n]) == Lines(ns) + [LineOf(n)]
  {
    assert (ns + [n])[..|ns|] == ns;
  }

  /** Row `i` meets the counter plus the number of timed rows above it. */
  lemma {:induction false} NumberingAt(rows: seq<Row>, start: int, i: int)
    requires 0 <= i < |rows|
    ensures Numbering(rows, start)[i] == Numbered(rows[i], start + Timed(rows[..i]))
    decreases |rows|
  {
    var init := rows[..|rows| - 1];
    if i < |rows| - 1 {
      NumberingAt(init, start, i);
      assert init[..i] == rows[..i];
    }
  }

  /** Above a timed row of a sorted table every row is timed. */
  lemma {:induction false} TimedPrefix(rows: seq<Row>, i: int)
    requires 0 <= i <= |rows|
    requires forall k :: 0 <= k < i ==> rows[k].best.Some?
    ensures Timed(rows[..i]) == i
    decreases i
  {
    if i > 0 {
      TimedPrefix(rows, i - 1);
      assert rows[..i][..i - 1] == rows[..i - 1];
    }
  }

  /** Positions: the `i`-th row shows `i + 1` when it has a best lap and '—'
      otherwise, so the timed rows carry 1..k with no gap. */
  lemma TablePositions(st: Standings, i: int)
    requires 0 <= i < |Table(st)|
    ensures Sorted(st)[i].best.Some? ==> Table(st)[i].position == IntToString(i + 1)
    ensures Sorted(st)[i].best.None? ==> Table(st)[i].position == Dash
  {
    var s := Sorted(st);
    NumberingAt(s, 1, i);
    LinesAt(Numbering(s, 1), i);
    if s[i].best.Some? {
      RowsOrdered(st);
      TimedPrefix(s, i);
    }
  }

  // ---- ticks and flags ----

  /** `String(x || '').toUpperCase()`: how a mode or flag is normalised. */
  function Normalise(x: Scalar): string {
    ToUpper(ToStr(Or(x, Text(""))))
  }

  /** A tick ends the session: the mode is FINISH, or the race is not active and
      `timeLeft === 0`. */
  predicate Ends(t: Tick) {
    Normalise(t.raceMode) == "FINISH" || (!Truthy(t.raceActive) && t.timeLeft == Num(0))
  }

  /** The status a tick writes before `endSessionUI` runs, by precedence:
      FINISH mode, then an active race, then `timeLeft === 0`. */
  function StatusOf(t: Tick): (r: string)
    ensures r == "FINISH" <==> Normalise(t.raceMode) == "FINISH"
    ensures r == "LIVE" <==> Normalise(t.raceMode) != "FINISH" && Truthy(t.raceActive)
    ensures r == "ENDED" <==> Normalise(t.raceMode) != "FINISH" && !Truthy(t.raceActive) && t.timeLeft == Num(0)
    ensures r == Dash <==> !Ends(t) && !Truthy(t.raceActive)
  {
    if Normalise(t.raceMode) == "FINISH" then "FINISH"
    else if Truthy(t.raceActive) then "LIVE"
    else if t.timeLeft == Num(0) then "ENDED"
    else Dash
  }

  /** The clock a tick shows: a numeric `timeLeft` clamped at 0, else `--:--`. */
  function ClockText(t: Tick): (r: string)
    ensures t.timeLeft.Num? && t.timeLeft.n >= 0 ==> r == MinSec(t.timeLeft.n)
    ensures t.timeLeft.Num? && t.timeLeft.n < 0 ==> r == MinSec(0)
    ensures !t.timeLeft.Num? ==> r == "--:--"
  {
    if t.timeLeft.Num? then
      var s := if t.timeLeft.n > 0 then t.timeLeft.n else 0;
      assert (s * 1000) / 1000 == s;
      FmtClock(s * 1000)
    else "--:--"
  }

  /** `modeToFlag[m] || ''` */
  function ModeToFlag(m: string): (r: string)
    ensures m == "SAFE" <==> r == "GREEN"
    ensures m == "HAZARD" <==> r == "YELLOW"
    ensures m == "DANGER" <==> r == "RED"
    ensures m == "FINISH" <==> r == "CHECKERED"
    ensures r == "" <==> m !in {"SAFE", "HAZARD", "DANGER", "FINISH"}
  {
    if m == "SAFE" then "GREEN"
    else if m == "HAZARD" then "YELLOW"
    else if m == "DANGER" then "RED"
    else if m == "FINISH" then "CHECKERED"
    else ""
  }

  /** The flag element after `updateFlag`: the flag classes it carries and its label. */
  datatype FlagView = FlagView(classes: seq<string>, caption: string)

  /** `updateFlag(flagRaw)` */
  function FlagFor(flagRaw: Scalar): (r: FlagView)
    ensures Normalise(flagRaw) == "GREEN" ==> r == FlagView(["flag-green"], "Green \U{2013} Track Clear")
    ensures Normalise(flagRaw) in {"YELLOW", "FULL COURSE YELLOW"} ==> r == FlagView(["flag-yellow"], "Yellow \U{2013} Caution")
    ensures Normalise(flagRaw) == "RED" ==> r == FlagView(["flag-red"], "Red \U{2013} Session Stopped")
    ensures Normalise(flagRaw) in {"CHECKERED", "CHECKER", "CHEQUERED"} ==> r == FlagView(["flag-checker"], "Checkered \U{2013} Finish")
    ensures Normalise(flagRaw) in {"SC", "SAFETY_CAR"} ==> r == FlagView(["flag-yellow", "flag-sc"], "Safety Car")
    ensures var f := Normalise(flagRaw);
      f !in {"GREEN", "YELLOW", "FULL COURSE YELLOW", "RED", "CHECKERED", "CHECKER", "CHEQUERED", "SC", "SAFETY_CAR"}
      ==> r.classes == [] && r.caption == (if f == "" then Dash else f)
  {
    var flag := Normalise(flagRaw);
    if flag == "GREEN" then FlagView(["flag-green"], "Green \U{2013} Track Clear")
    else if flag == "YELLOW" || flag == "FULL COURSE YELLOW" then FlagView(["flag-yellow"], "Yellow \U{2013} Caution")
    else if flag == "RED" then FlagView(["flag-red"], "Red \U{2013} Session Stopped")
    else if flag == "CHECKERED" || flag == "CHECKER" || flag == "CHEQUERED" then FlagView(["flag-checker"], "Checkered \U{2013} Finish")
    else if flag == "SC" || flag == "SAFETY_CAR" then FlagView(["flag-yellow", "flag-sc"], "Safety Car")
    else FlagView([], if flag == "" then Dash else flag)
  }

  /** The four race modes show the flag of their colour, and the spelling of a
      mode does not matter: it is upper-cased first. */
  lemma ModeFlags(raw: Scalar)
    ensures var m := Normalise(raw);
      (m == "SAFE" ==> FlagFor(Text(ModeToFlag(m))) == FlagView(["flag-green"], "Green \U{2013} Track Clear"))
      && (m == "HAZARD" ==> FlagFor(Text(ModeToFlag(m))) == FlagView(["flag-yellow"], "Yellow \U{2013} Caution"))
      && (m == "DANGER" ==> FlagFor(Text(ModeToFlag(m))) == FlagView(["flag-red"], "Red \U{2013} Session Stopped"))
      && (m == "FINISH" ==> FlagFor(Text(ModeToFlag(m))) == FlagView(["flag-checker"], "Checkered \U{2013} Finish"))
  {
    ColourFlags();
  }

  lemma ColourFlags()
    ensures FlagFor(Text("GREEN")) == FlagView(["flag-green"], "Green \U{2013} Track Clear")
    ensures FlagFor(Text("YELLOW")) == FlagView(["flag-yellow"], "Yellow \U{2013} Caution")
    ensures FlagFor(Text("RED")) == FlagView(["flag-red"], "Red \U{2013} Session Stopped")
    ensures FlagFor(Text("CHECKERED")) == FlagView(["flag-checker"], "Checkered \U{2013} Finish")
  {
    NormaliseFixed("GREEN");
    NormaliseFixed("YELLOW");
    NormaliseFixed("RED");
    NormaliseFixed("CHECKERED");
  }

  lemma NormaliseFixed(s: string)
    requires s != "" && forall i :: 0 <= i < |s| ==> !('a' <= s[i] <= 'z')
    ensures Normalise(Text(s)) == s
  {
    UpperFixed(s);
  }

  // ---- session pick ----

  /** The session the `sessions` handler settles on: the current one if it is
      still listed, else the first with drivers, else the first; nothing for an
      empty list. */
  function Pick(current: Option<Session>, ss: seq<Session>): (r: Option<Session>)
    ensures r.None? <==> ss == []
    ensures r.Some? ==> r.value in ss
    ensures current.Some? && (exists j :: 0 <= j < |ss| && SameId(ss[j].id, current.value.id))
            ==> r == FindById(ss, current.value.id) && r.Some? && SameId(r.value.id, current.value.id)
    ensures (current.None? || forall j :: 0 <= j < |ss| ==> !SameId(ss[j].id, current.value.id))
            && (exists j :: 0 <= j < |ss| && HasDrivers(ss[j]))
            ==> r == FindWithDrivers(ss) && r.Some? && HasDrivers(r.value)
    ensures ss != [] && (current.None? || forall j :: 0 <= j < |ss| ==> !SameId(ss[j].id, current.value.id))
            && (forall j :: 0 <= j < |ss| ==> !HasDrivers(ss[j]))
            ==> r == Some(ss[0])
  {
    if ss == [] then None
    else
      var keep := if current.Some? then FindById(ss, current.value.id) else None;
      if keep.Some? then keep
      else
        var withDrivers := FindWithDrivers(ss);
        if withDrivers.Some? then withDrivers else Some(ss[0])
  }

  /** The pick starts a new session (resetting the maps) when there was none or
      its id differs from the current one. */
  predicate Switches(current: Option<Session>, picked: Session) {
    current.None? || !SameId(picked.id, current.value.id)
  }

  /** While the current session stays in the list the page never resets. */
  lemma KeepsCurrent(current: Session, ss: seq<Session>)
    requires exists j :: 0 <= j < |ss| && SameId(ss[j].id, current.id)
    ensures Pick(Some(current), ss).Some? && !Switches(Some(current), Pick(Some(current), ss).value)
  {
  }
}
