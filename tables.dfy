/** The four tables created by `init_database`, their rows, and the
    constraints the application keeps on them. */
module Tables {
  import opened Common
  import opened Clock

  /** A row of Users. */
  datatype User = User(id: nat, username: string, password: string, name: string, email: string)

  /** A row of Sleep_Sessions; `end` and `duration` are NULL while the session is in progress. */
  datatype Session = Session(id: nat, userId: nat, start: int, end: Option<int>, duration: Option<int>, date: int)

  /** A row of Sleep_Quality. */
  datatype Quality = Quality(id: nat, sessionId: nat, rating: int, timesWoken: int, notes: string)

  /** A row of Sleep_Factors. */
  datatype Factor = Factor(id: nat, sessionId: nat, caffeine: bool, exercise: bool, screenTime: int, stress: int)

  /** The CHECK constraint on Sleep_Quality.rating and Sleep_Factors.stress_level. */
  predicate InScale(x: int)
  {
    1 <= x <= 10
  }

  predicate Matches(u: User, username: string, password: string)
  {
    u.username == username && u.password == password
  }

  /** `SELECT user_id FROM Users WHERE username = ?` finds a row. */
  function UsernameTaken(users: seq<User>, username: string): (taken: bool)
    ensures taken <==> exists u :: u in users && u.username == username
  {
    if users == [] then false
    else users[0].username == username || UsernameTaken(users[1..], username)
  }

  /** `SELECT user_id FROM Users WHERE username = ? AND password = ?`, first row. */
  function Authenticate(users: seq<User>, username: string, password: string): (r: Option<nat>)
    ensures r.Some? <==> exists u :: u in users && Matches(u, username, password)
    ensures r.Some? ==> exists u :: u in users && Matches(u, username, password) && u.id == r.value
  {
    if users == [] then None
    else if Matches(users[0], username, password) then Some(users[0].id)
    else Authenticate(users[1..], username, password)
  }

  predicate OpenFor(s: Session, user: nat)
  {
    s.userId == user && s.end.None?
  }

  /** `SELECT session_id ... WHERE user_id = ? AND sleep_end_time IS NULL`,
      first row in table order, as an index from `from` on. */
  function OpenSessionFrom(sessions: seq<Session>, user: nat, from: nat): (k: Option<nat>)
    requires from <= |sessions|
    ensures k.None? <==> forall j :: from <= j < |sessions| ==> !OpenFor(sessions[j], user)
    ensures k.Some? ==> from <= k.value < |sessions| && OpenFor(sessions[k.value], user)
    ensures k.Some? ==> forall j :: from <= j < k.value ==> !OpenFor(sessions[j], user)
    decreases |sessions| - from
  {
    if from == |sessions| then None
    else if OpenFor(sessions[from], user) then Some(from)
    else OpenSessionFrom(sessions, user, from + 1)
  }

  /** The index of the user's open session, if any. */
  function OpenSession(sessions: seq<Session>, user: nat): Option<nat>
  {
    OpenSessionFrom(sessions, user, 0)
  }

  /** AUTOINCREMENT ids with no deletions: row i has id i + 1; usernames are
      UNIQUE and, through `register`, never empty. */
  ghost predicate UsersWellFormed(users: seq<User>)
  {
    && (forall i :: 0 <= i < |users| ==> users[i].id == i + 1 && users[i].username != [] && users[i].password != [])
    && (forall i, j :: 0 <= i < j < |users| ==> users[i].username != users[j].username)
  }

  /** A session row at position i: its id, an existing owner, dated by the day
      its start falls on, and NULL end exactly when NULL duration, the duration
      being the whole minutes between start and end. */
  predicate SessionRowOk(s: Session, i: int, userCount: nat)
  {
    && s.id == i + 1
    && 1 <= s.userId <= userCount
    && DayOf(s.start) == s.date
    && (s.end.None? <==> s.duration.None?)
    && (s.end.Some? ==> s.duration == Some(WholeMinutes(s.end.value - s.start)))
  }

  ghost predicate SessionsWellFormed(sessions: seq<Session>, userCount: nat)
  {
    forall i :: 0 <= i < |sessions| ==> SessionRowOk(sessions[i], i, userCount)
  }

  /** The active-session lock: no user has two sessions without an end time. */
  ghost predicate AtMostOneOpen(sessions: seq<Session>)
  {
    forall i, j :: 0 <= i < j < |sessions| && sessions[i].userId == sessions[j].userId ==>
      sessions[i].end.Some? || sessions[j].end.Some?
  }

  /** `id` names a session that has ended. */
  predicate ClosedSession(sessions: seq<Session>, id: nat)
  {
    1 <= id <= |sessions| && sessions[id - 1].end.Some?
  }

  /** Quality rows: ids 1..n, rating within the CHECK range, attached to an
      ended session, at most one per session. */
  ghost predicate QualitiesWellFormed(qualities: seq<Quality>, sessions: seq<Session>)
  {
    && (forall i :: 0 <= i < |qualities| ==>
          qualities[i].id == i + 1 && InScale(qualities[i].rating) && ClosedSession(sessions, qualities[i].sessionId))
    && (forall i, j :: 0 <= i < j < |qualities| ==> qualities[i].sessionId != qualities[j].sessionId)
  }

  /** Factor rows are inserted together with quality rows, so row i of each
      annotates the same session; stress lies within the CHECK range. */
  ghost predicate FactorsPaired(factors: seq<Factor>, qualities: seq<Quality>)
  {
    && |factors| == |qualities|
    && forall i :: 0 <= i < |factors| ==>
         factors[i].id == i + 1 && factors[i].sessionId == qualities[i].sessionId && InScale(factors[i].stress)
  }

  /** No quality row annotates session `id` yet. */
  ghost predicate Unannotated(qualities: seq<Quality>, id: nat)
  {
    forall i :: 0 <= i < |qualities| ==> qualities[i].sessionId != id
  }

  /** Everything the schema and the handlers keep true of the four tables. */
  ghost predicate TablesValid(users: seq<User>, sessions: seq<Session>, qualities: seq<Quality>, factors: seq<Factor>)
  {
    && UsersWellFormed(users)
    && SessionsWellFormed(sessions, |users|)
    && AtMostOneOpen(sessions)
    && QualitiesWellFormed(qualities, sessions)
    && FactorsPaired(factors, qualities)
  }

  /** With unique usernames, login succeeds for a stored user exactly with
      that user's own password, and yields that user's id. */
  lemma AuthenticateFindsTheUser(users: seq<User>, i: nat, password: string)
    requires UsersWellFormed(users) && i < |users|
    ensures Authenticate(users, users[i].username, password).Some? <==> users[i].password == password
    ensures users[i].password == password ==> Authenticate(users, users[i].username, password) == Some(i + 1)
  {
    var name := users[i].username;
    if users[i].password == password {
      assert users[i] in users && Matches(users[i], name, password);
    }
    var r := Authenticate(users, name, password);
    if r.Some? {
      var u :| u in users && Matches(u, name, password) && u.id == r.value;
      var j :| 0 <= j < |users| && users[j] == u;
      assert j == i;
    }
  }

  /** Under the lock, the user's open session is the only one. */
  lemma OpenSessionIsUnique(sessions: seq<Session>, user: nat, j: nat)
    requires AtMostOneOpen(sessions)
    requires j < |sessions| && OpenFor(sessions[j], user)
    ensures OpenSession(sessions, user) == Some(j)
  {
    assert OpenSession(sessions, user).Some?;
  }
}
