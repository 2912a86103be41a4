/** The application object: the four tables it writes through SQLite, the
    logged-in user, and the end-of-session dialog it may have open. Each
    handler of the original class is a method here; a refusal leaves every
    table as it was. */
module App {
  import opened Common
  import opened Clock
  import opened Tables
  import Queries

  /** What the quality and factors widgets submit, already read as numbers. */
  datatype Annotation = Annotation(rating: int, timesWoken: int, notes: string,
                                   caffeine: bool, exercise: bool, screenTime: int, stress: int)
  {
    /** The CHECK constraints of Sleep_Quality and Sleep_Factors accept the rows. */
    predicate Acceptable()
    {
      InScale(rating) && InScale(stress)
    }
  }

  /** The "Record Sleep" form: the date entry (absent when its text is not a
      "%Y-%m-%d" date), the four clock boxes, and the annotation widgets. */
  datatype ManualForm = ManualForm(date: Option<int>, startHour: int, startMinute: int,
                                   endHour: int, endMinute: int, annotation: Annotation)
  {
    /** `strptime` accepts the date and both clock times. */
    predicate Parses()
    {
      date.Some? && ValidClock(startHour, startMinute) && ValidClock(endHour, endMinute)
    }
  }

  class SleepTrackerApp {
    var users: seq<User>
    var sessions: seq<Session>
    var qualities: seq<Quality>
    var factors: seq<Factor>
    /** `current_user_id`; absent before login and after logout. */
    var currentUser: Option<nat>
    /** The session whose modal "Sleep Session Ended" dialog is open, if any. */
    var endDialog: Option<nat>

    ghost predicate Valid()
      reads this
    {
      && TablesValid(users, sessions, qualities, factors)
      && (currentUser.Some? ==> 1 <= currentUser.value <= |users|)
      && (endDialog.Some? ==> ClosedSession(sessions, endDialog.value) && Unannotated(qualities, endDialog.value))
    }

    /** The contents of all four tables. */
    ghost function Snapshot(): (seq<User>, seq<Session>, seq<Quality>, seq<Factor>)
      reads this
    {
      (users, sessions, qualities, factors)
    }

    /** `__init__` and `init_database` on a fresh database file. */
    constructor ()
      ensures Valid()
      ensures users == [] && sessions == [] && qualities == [] && factors == []
      ensures currentUser == None && endDialog == None
    {
      users, sessions, qualities, factors := [], [], [], [];
      currentUser, endDialog := None, None;
    }

    /** `register`: both credentials required, usernames unique. */
    method Register(username: string, password: string, name: string, email: string) returns (r: Outcome<nat>)
      requires Valid()
      modifies this`users
      ensures Valid()
      ensures username == [] || password == [] ==>
        r == Refused(MissingCredentials) && users == old(users)
      ensures username != [] && password != [] && UsernameTaken(old(users), username) ==>
        r == Refused(DuplicateUsername) && users == old(users)
      ensures username != [] && password != [] && !UsernameTaken(old(users), username) ==>
        && r == Done(|old(users)| + 1)
        && users == old(users) + [User(|old(users)| + 1, username, password, name, email)]
    {
      if username == [] || password == [] {
        return Refused(MissingCredentials);
      }
      if UsernameTaken(users, username) {
        return Refused(DuplicateUsername);
      }
      var id := |users| + 1;
      forall i | 0 <= i < |users| ensures users[i].username != username {
        assert users[i] in users;
      }
      users := users + [User(id, username, password, name, email)];
      r := Done(id);
    }

    /** `login`: both credentials required; the user whose row matches both
        becomes the current user. */
    method Login(username: string, password: string) returns (r: Outcome<nat>)
      requires Valid()
      modifies this`currentUser
      ensures Valid()
      ensures username == [] || password == [] ==>
        r == Refused(MissingCredentials) && currentUser == old(currentUser)
      ensures username != [] && password != [] && Authenticate(users, username, password).None? ==>
        r == Refused(InvalidCredentials) && currentUser == old(currentUser)
      ensures username != [] && password != [] && Authenticate(users, username, password).Some? ==>
        var id := Authenticate(users, username, password).value;
        r == Done(id) && currentUser == Some(id)
    {
      if username == [] || password == [] {
        return Refused(MissingCredentials);
      }
      var found := Authenticate(users, username, password);
      if found.None? {
        return Refused(InvalidCredentials);
      }
      ghost var u :| u in users && Matches(u, username, password) && u.id == found.value;
      ghost var i :| 0 <= i < |users| && users[i] == u;
      currentUser := found;
      r := Done(found.value);
    }

    /** `logout`. */
    method Logout()
      requires Valid()
      modifies this`currentUser
      ensures Valid() && currentUser == None
    {
      currentUser := None;
    }

    /** `start_sleep_session`: refused while the user has a session without an
        end time; otherwise one open session dated by its start is appended.
        With no user logged in the INSERT breaks `user_id NOT NULL`. */
    method StartSleepSession(now: int) returns (r: Outcome<nat>)
      requires Valid()
      modifies this`sessions
      ensures Valid()
      ensures currentUser.None? ==>
        r == Refused(ConstraintViolation) && sessions == old(sessions)
      ensures currentUser.Some? && OpenSession(old(sessions), currentUser.value).Some? ==>
        r == Refused(ActiveSessionExists) && sessions == old(sessions)
      ensures currentUser.Some? && OpenSession(old(sessions), currentUser.value).None? ==>
        var id := |old(sessions)| + 1;
        && r == Done(id)
        && sessions == old(sessions) + [Session(id, currentUser.value, now, None, None, DayOf(now))]
    {
      if currentUser.None? {
        return Refused(ConstraintViolation);
      }
      var user := currentUser.value;
      if OpenSession(sessions, user).Some? {
        return Refused(ActiveSessionExists);
      }
      var id := |sessions| + 1;
      sessions := sessions + [Session(id, user, now, None, None, DayOf(now))];
      r := Done(id);
    }

    /** `end_sleep_session`: refused when the user has no open session;
        otherwise that session alone gets `now` as its end and the whole
        minutes since its start as its duration, and the dialog asking for
        its quality and factors opens. */
    method EndSleepSession(now: int) returns (r: Outcome<(nat, int)>)
      requires Valid()
      modifies this`sessions, this`endDialog
      ensures Valid()
      ensures currentUser.None? || OpenSession(old(sessions), currentUser.value).None? ==>
        r == Refused(NoActiveSession) && sessions == old(sessions) && endDialog == old(endDialog)
      ensures currentUser.Some? && OpenSession(old(sessions), currentUser.value).Some? ==>
        var k := OpenSession(old(sessions), currentUser.value).value;
        var s := old(sessions)[k];
        var minutes := WholeMinutes(now - s.start);
        && r == Done((s.id, minutes))
        && sessions == old(sessions)[k := s.(end := Some(now), duration := Some(minutes))]
        && endDialog == Some(s.id)
      ensures currentUser.Some? ==> OpenSession(sessions, currentUser.value).None?
    {
      if currentUser.None? {
        return Refused(NoActiveSession);
      }
      var user := currentUser.value;
      var open := OpenSession(sessions, user);
      if open.None? {
        return Refused(NoActiveSession);
      }
      var k := open.value;
      var s := sessions[k];
      var minutes := WholeMinutes(now - s.start);
      ghost var before := sessions;
      sessions := sessions[k := s.(end := Some(now), duration := Some(minutes))];
      endDialog := Some(s.id);
      r := Done((s.id, minutes));
      forall j | 0 <= j < |sessions| ensures !OpenFor(sessions[j], user) {
        if j < k {
          assert before[j].userId == before[k].userId ==> before[j].end.Some?;
        } else if j > k {
          assert before[k].userId == before[j].userId ==> before[j].end.Some?;
        }
      }
      forall i | 0 <= i < |qualities| ensures qualities[i].sessionId != s.id {
        assert ClosedSession(before, qualities[i].sessionId);
      }
    }

    /** "Save Sleep Data" in the end-of-session dialog: one quality row and
        one factor row for the dialog's session, committed together; a row the
        CHECK constraints reject commits neither and leaves the dialog open. */
    method SaveEndSessionData(a: Annotation) returns (r: Outcome<nat>)
      requires Valid() && endDialog.Some?
      modifies this`qualities, this`factors, this`endDialog
      ensures Valid()
      ensures !a.Acceptable() ==>
        && r == Refused(ConstraintViolation)
        && qualities == old(qualities) && factors == old(factors) && endDialog == old(endDialog)
      ensures a.Acceptable() ==>
        var id := old(endDialog).value;
        && r == Done(id)
        && qualities == old(qualities) + [Quality(|old(qualities)| + 1, id, a.rating, a.timesWoken, a.notes)]
        && factors == old(factors) + [Factor(|old(factors)| + 1, id, a.caffeine, a.exercise, a.screenTime, a.stress)]
        && endDialog == None
    {
      if !a.Acceptable() {
        return Refused(ConstraintViolation);
      }
      var id := endDialog.value;
      qualities := qualities + [Quality(|qualities| + 1, id, a.rating, a.timesWoken, a.notes)];
      factors := factors + [Factor(|factors| + 1, id, a.caffeine, a.exercise, a.screenTime, a.stress)];
      endDialog := None;
      r := Done(id);
    }

    /** `save_sleep_record`: a form whose date or clocks do not parse is
        refused; otherwise one closed session dated by the entered date, its
        quality row and its factor row are committed together, or none of
        them when an INSERT breaks a constraint. */
    method SaveSleepRecord(form: ManualForm) returns (r: Outcome<nat>)
      requires Valid()
      modifies this`sessions, this`qualities, this`factors
      ensures Valid()
      ensures !form.Parses() ==>
        r == Refused(InvalidDateTime) && Snapshot() == old(Snapshot())
      ensures form.Parses() && (currentUser.None? || !form.annotation.Acceptable()) ==>
        r == Refused(ConstraintViolation) && Snapshot() == old(Snapshot())
      ensures form.Parses() && currentUser.Some? && form.annotation.Acceptable() ==>
        var span := ManualSpan(form.date.value, MinuteOfDay(form.startHour, form.startMinute),
                               MinuteOfDay(form.endHour, form.endMinute));
        var id := |old(sessions)| + 1;
        var a := form.annotation;
        && r == Done(id)
        && sessions == old(sessions) + [Session(id, currentUser.value, span.0, Some(span.1),
                                                Some(WholeMinutes(span.1 - span.0)), form.date.value)]
        && qualities == old(qualities) + [Quality(|old(qualities)| + 1, id, a.rating, a.timesWoken, a.notes)]
        && factors == old(factors) + [Factor(|old(factors)| + 1, id, a.caffeine, a.exercise, a.screenTime, a.stress)]
    {
      if !form.Parses() {
        return Refused(InvalidDateTime);
      }
      var span := ManualSpan(form.date.value, MinuteOfDay(form.startHour, form.startMinute),
                             MinuteOfDay(form.endHour, form.endMinute));
      var duration := WholeMinutes(span.1 - span.0);
      if currentUser.None? || !form.annotation.Acceptable() {
        return Refused(ConstraintViolation);
      }
      var a := form.annotation;
      var id := |sessions| + 1;
      sessions := sessions + [Session(id, currentUser.value, span.0, Some(span.1), Some(duration), form.date.value)];
      qualities := qualities + [Quality(|qualities| + 1, id, a.rating, a.timesWoken, a.notes)];
      factors := factors + [Factor(|factors| + 1, id, a.caffeine, a.exercise, a.screenTime, a.stress)];
      r := Done(id);
    }

    /** `load_sleep_history`: one displayed line per row of the history query, in order. */
    method LoadSleepHistory() returns (entries: seq<Queries.HistoryEntry>)
      ensures var rows := Queries.HistoryRows(sessions, qualities, currentUser);
        |entries| == |rows| && forall i :: 0 <= i < |rows| ==> entries[i] == Queries.Entry(rows[i])
    {
      var rows := Queries.HistoryRows(sessions, qualities, currentUser);
      entries := [];
      var i := 0;
      while i < |rows|
        invariant 0 <= i <= |rows|
        invariant |entries| == i
        invariant forall k :: 0 <= k < i ==> entries[k] == Queries.Entry(rows[k])
      {
        entries := entries + [Queries.Entry(rows[i])];
        i := i + 1;
      }
    }
  }

  /** A client run that the contracts alone decide: register, log in, start
      at `t`, a second start refused, end 90 minutes later. */
  method ActiveSessionScenario(t: int)
  {
    var app := new SleepTrackerApp();
    var reg := app.Register("ada", "secret", "", "");
    assert reg == Done(1);
    var login := app.Login("ada", "secret");
    assert app.users[0] in app.users && Matches(app.users[0], "ada", "secret");
    assert login == Done(1);
    var started := app.StartSleepSession(t);
    assert started == Done(1);
    var again := app.StartSleepSession(t + 60);
    assert again == Refused(ActiveSessionExists);
    var ended := app.EndSleepSession(t + 90 * 60);
    assert ended == Done((1, 90));
    var none := app.EndSleepSession(t + 100 * 60);
    assert none == Refused(NoActiveSession);
  }
}
