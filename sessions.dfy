/** The payloads the clients receive and send: race sessions with their drivers,
    timer ticks and lap events, and the lookups every client performs on a
    session list (`Array.prototype.find` / `some` with `String(a) === String(b)`
    on ids). */
module Sessions {
  import opened Js

  /** One entry of a session's `drivers` array. */
  datatype DriverSnap = DriverSnap(name: Scalar, carNumber: Scalar, currentLap: Scalar, fastestLapMs: Scalar)

  /** A session object as broadcast in `sessions`; an absent or non-array
      `drivers` field is the empty list (every client reads it as `s.drivers || []`). */
  datatype Session = Session(id: Scalar, name: Scalar, drivers: seq<DriverSnap>, flag: Scalar)

  /** The fields of a `timer-update` payload that the clients read. */
  datatype Tick = Tick(sessionId: Scalar, sessionName: Scalar, raceMode: Scalar, raceActive: Scalar, timeLeft: Scalar)

  /** The fields of a `lap:recorded` payload. */
  datatype LapEvent = LapEvent(sessionId: Scalar, driverId: Scalar, lapNumber: Scalar, lapTimeMs: Scalar, carNumber: Scalar)

  /** A `sessions` payload: `None` when it is not an array. */
  type SessionsPayload = Option<seq<Session>>

  /** `Array.isArray(p) ? p : []` */
  function AsList(p: SessionsPayload): (r: seq<Session>)
    ensures p.Some? ==> r == p.value
    ensures p.None? ==> r == []
  {
    if p.Some? then p.value else []
  }

  /** How race control and the next-race screen list a driver:
      `Car ${carNumber} - ${name}`. */
  function DriverLine(d: DriverSnap): string {
    "Car " + ToStr(d.carNumber) + " - " + ToStr(d.name)
  }

  /** `String(a) === String(b)`: how every client compares session ids. */
  predicate SameId(a: Scalar, b: Scalar) {
    ToStr(a) == ToStr(b)
  }

  /** `(s.drivers || []).length > 0` */
  predicate HasDrivers(s: Session) {
    |s.drivers| > 0
  }

  /** The index `Array.prototype.findIndex` returns: the first element that
      satisfies `p`, if any. */
  function FindIndex(ss: seq<Session>, p: Session -> bool): (r: Option<nat>)
    ensures r.Some? ==> r.value < |ss| && p(ss[r.value]) && forall j :: 0 <= j < r.value ==> !p(ss[j])
    ensures r.None? ==> forall j :: 0 <= j < |ss| ==> !p(ss[j])
  {
    if ss == [] then None
    else if p(ss[0]) then Some(0)
    else
      var t := FindIndex(ss[1..], p);
      assert forall j :: 1 <= j < |ss| ==> ss[j] == ss[1..][j - 1];
      if t.Some? then Some(t.value + 1) else None
  }

  /** `Array.prototype.find`: the first element that satisfies `p`. */
  function Find(ss: seq<Session>, p: Session -> bool): (r: Option<Session>)
    ensures r.Some? <==> exists j :: 0 <= j < |ss| && p(ss[j])
    ensures r.Some? ==> r.value in ss && p(r.value)
    ensures r.Some? ==> exists j :: 0 <= j < |ss| && ss[j] == r.value && forall k :: 0 <= k < j ==> !p(ss[k])
  {
    var i := FindIndex(ss, p);
    if i.Some? then Some(ss[i.value]) else None
  }

  /** The first session whose id is string-equal to `id`. */
  function FindById(ss: seq<Session>, id: Scalar): (r: Option<Session>)
    ensures r.Some? <==> exists j :: 0 <= j < |ss| && SameId(ss[j].id, id)
    ensures r.Some? ==> r.value in ss && SameId(r.value.id, id)
    ensures r.Some? ==> exists j :: 0 <= j < |ss| && ss[j] == r.value && forall k :: 0 <= k < j ==> !SameId(ss[k].id, id)
  {
    Find(ss, (s: Session) => SameId(s.id, id))
  }

  /** The first session that has drivers. */
  function FindWithDrivers(ss: seq<Session>): (r: Option<Session>)
    ensures r.Some? <==> exists j :: 0 <= j < |ss| && HasDrivers(ss[j])
    ensures r.Some? ==> r.value in ss && HasDrivers(r.value)
    ensures r.Some? ==> exists j :: 0 <= j < |ss| && ss[j] == r.value && forall k :: 0 <= k < j ==> !HasDrivers(ss[k])
  {
    Find(ss, HasDrivers)
  }
}
