/** The server: the start-up key check, the `auth` handshake that binds a role
    to a connection, and the receptionist-only `add-session` that grows the
    shared session list. */
module Server {
  import opened Js
  import opened Sessions

  /** The three access keys as found in the environment; `None` is unset. */
  datatype Env = Env(receptionist: Option<string>, observer: Option<string>, safety: Option<string>)

  /** The keys the server runs with. */
  datatype Keys = Keys(receptionist: string, observer: string, safety: string)

  /** `!process.env.X`: unset or empty. */
  predicate Missing(v: Option<string>) {
    v.None? || v.value == ""
  }

  /** The start-up check: the server refuses to start unless all three keys
      are set and non-empty. */
  function Startup(env: Env): (r: Option<Keys>)
    ensures r.Some? <==> !Missing(env.receptionist) && !Missing(env.observer) && !Missing(env.safety)
    ensures r.Some? ==> Some(r.value.receptionist) == env.receptionist && Some(r.value.observer) == env.observer
                        && Some(r.value.safety) == env.safety
    ensures r.Some? ==> r.value.receptionist != "" && r.value.observer != "" && r.value.safety != ""
  {
    if Missing(env.receptionist) || Missing(env.observer) || Missing(env.safety) then None
    else Some(Keys(env.receptionist.value, env.observer.value, env.safety.value))
  }

  /** The three accepted `(role, key)` pairs. */
  predicate Admits(keys: Keys, role: Scalar, key: Scalar) {
    (role == Text("receptionist") && key == Text(keys.receptionist))
    || (role == Text("observer") && key == Text(keys.observer))
    || (role == Text("safety") && key == Text(keys.safety))
  }

  /** A role other than the three is refused whatever the key. */
  lemma OtherRolesRefused(keys: Keys, role: Scalar, key: Scalar)
    requires role != Text("receptionist") && role != Text("observer") && role != Text("safety")
    ensures !Admits(keys, role, key)
  {
  }

  /** A role is admitted only with its own key: with distinct keys, one role's
      key opens no other role, and after a successful start-up the empty key
      opens nothing. */
  lemma KeysAreNotShared(env: Env, key: Scalar)
    requires Startup(env).Some?
    ensures var keys := Startup(env).value;
      (Admits(keys, Text("receptionist"), key) ==> key == Text(keys.receptionist))
      && (Admits(keys, Text("observer"), key) ==> key == Text(keys.observer))
      && (Admits(keys, Text("safety"), key) ==> key == Text(keys.safety))
      && !Admits(keys, Text("receptionist"), Text(""))
      && !Admits(keys, Text("observer"), Text(""))
      && !Admits(keys, Text("safety"), Text(""))
      && (keys.receptionist != keys.observer ==> !Admits(keys, Text("observer"), Text(keys.receptionist)))
      && (keys.receptionist != keys.safety ==> !Admits(keys, Text("safety"), Text(keys.receptionist)))
  {
  }

  /** The entry `add-session` appends: `{ id: Date.now(), name: data.name }`,
      which clients read with no drivers and no flag. */
  function NewSession(name: Scalar, now: int): Session {
    Session(Num(now), name, [], Undefined)
  }

  /** One client socket; `role` is `socket.role`, unset until an `auth` succeeds. */
  class Connection {
    var role: Scalar

    constructor ()
      ensures role == Undefined
    {
      role := Undefined;
    }
  }

  class RaceServer {
    const keys: Keys
    var sessions: seq<Session>

    /** The server after a successful start-up, with no sessions. */
    constructor (keys: Keys)
      ensures this.keys == keys && sessions == []
    {
      this.keys := keys;
      sessions := [];
    }

    /** The `auth` handler: the result it sends, and on success the role it
        binds and the session snapshot it sends. */
    method OnAuth(conn: Connection, role: Scalar, key: Scalar) returns (correct: bool, snapshot: Option<seq<Session>>)
      modifies conn
      ensures correct <==> Admits(keys, role, key)
      ensures correct ==> conn.role == role && snapshot == Some(sessions)
      ensures !correct ==> conn.role == old(conn.role) && snapshot == None
    {
      correct := false;
      if role == Text("receptionist") && key == Text(keys.receptionist) {
        correct := true;
      }
      if role == Text("observer") && key == Text(keys.observer) {
        correct := true;
      }
      if role == Text("safety") && key == Text(keys.safety) {
        correct := true;
      }
      snapshot := None;
      if correct {
        conn.role := role;
        snapshot := Some(sessions);
      }
    }

    /** The `add-session` handler: a receptionist's request appends exactly one
        session, with no check for duplicates, and broadcasts the list; any
        other connection's request is ignored. */
    method OnAddSession(conn: Connection, name: Scalar, now: int) returns (broadcast: Option<seq<Session>>)
      modifies this
      ensures conn.role != Text("receptionist") ==> sessions == old(sessions) && broadcast == None
      ensures conn.role == Text("receptionist") ==>
        sessions == old(sessions) + [NewSession(name, now)] && broadcast == Some(sessions)
      ensures |sessions| <= |old(sessions)| + 1 && sessions[..|old(sessions)|] == old(sessions)
    {
      if conn.role != Text("receptionist") {
        return None;
      }
      sessions := sessions + [NewSession(name, now)];
      broadcast := Some(sessions);
    }
  }
}
