/** The read-only queries behind the dashboard, the history list and the
    statistics panel. None of them changes a table. */
module Queries {
  import opened Common
  import opened Clock
  import opened Tables
  import opened Sorting

  /** `ss.user_id = ?` with the logged-in user's id; with no user logged in
      the parameter is NULL and no row matches. */
  predicate Owned(s: Session, user: Option<nat>)
  {
    user.Some? && s.userId == user.value
  }

  // ---------------------------------------------------------------- windows

  /** The dashboard summary always looks back seven days. */
  const DashboardDays: nat := 7

  /** The number of days the statistics panel looks back for a range label. */
  function DaysBack(selection: string): (days: nat)
    ensures days in {7, 30, 90, 3650}
    ensures days == 30 <==> selection == "Last 30 Days"
    ensures days == 90 <==> selection == "Last 90 Days"
    ensures days == 3650 <==> selection == "All Time"
  {
    if selection == "Last 30 Days" then 30
    else if selection == "Last 90 Days" then 90
    else if selection == "All Time" then 3650
    else 7
  }

  /** `date >= date('now', '-N days')`: on or after the day N days before today. */
  predicate InWindow(date: int, today: int, days: nat)
  {
    date >= today - days
  }

  /** The user's sessions dated within the window, in table order. */
  function Windowed(sessions: seq<Session>, user: Option<nat>, today: int, days: nat): (w: seq<Session>)
    ensures forall s :: s in w <==> s in sessions && Owned(s, user) && InWindow(s.date, today, days)
    ensures forall s ::
      multiset(w)[s] == (if Owned(s, user) && InWindow(s.date, today, days) then multiset(sessions)[s] else 0)
    ensures |w| <= |sessions|
  {
    if sessions == [] then []
    else
      var rest := Windowed(sessions[1..], user, today, days);
      assert sessions == [sessions[0]] + sessions[1..];
      if Owned(sessions[0], user) && InWindow(sessions[0].date, today, days) then [sessions[0]] + rest else rest
  }

  /** A longer look-back selects every session a shorter one does, and more. */
  lemma {:induction false} WiderWindowSeesMore(sessions: seq<Session>, user: Option<nat>, today: int, shorter: nat, longer: nat)
    requires shorter <= longer
    ensures multiset(Windowed(sessions, user, today, shorter)) <= multiset(Windowed(sessions, user, today, longer))
  {
    if sessions != [] {
      WiderWindowSeesMore(sessions[1..], user, today, shorter, longer);
    }
  }

  // ------------------------------------------------------------- aggregates

  function Sum(xs: seq<int>): int
  {
    if xs == [] then 0 else xs[0] + Sum(xs[1..])
  }

  /** Values between 1 and 10 sum to between |xs| and 10 |xs|. */
  lemma {:induction false} SumInScale(xs: seq<int>)
    requires forall x :: x in xs ==> InScale(x)
    ensures |xs| <= Sum(xs) <= 10 * |xs|
  {
    if xs != [] {
      assert xs[0] in xs;
      SumInScale(xs[1..]);
    }
  }

  /** An aggregate as shown on the dashboard: `AVG` over no rows is NULL, and
      `if avg:` also treats an average of 0 as missing, so both show "No data". */
  datatype Average = NoData | Mean(total: int, count: nat)

  function Shown(total: int, count: nat): Average
  {
    if count == 0 || total == 0 then NoData else Mean(total, count)
  }

  /** The non-NULL durations of `w`; `AVG(duration)` skips the NULL ones. */
  function Durations(w: seq<Session>): (ds: seq<int>)
    ensures forall d :: d in ds <==> exists s :: s in w && s.duration == Some(d)
    ensures |ds| <= |w|
  {
    if w == [] then []
    else
      var rest := Durations(w[1..]);
      assert forall s :: s in w[1..] ==> s in w;
      if w[0].duration.Some? then [w[0].duration.value] + rest else rest
  }

  /** The durations of sessions concatenated are the concatenated durations. */
  lemma {:induction false} DurationsAppend(a: seq<Session>, b: seq<Session>)
    ensures Durations(a + b) == Durations(a) + Durations(b)
  {
    if a != [] {
      var head := if a[0].duration.Some? then [a[0].duration.value] else [];
      assert (a + b)[0] == a[0];
      assert (a + b)[1..] == a[1..] + b;
      assert Durations(a) == head + Durations(a[1..]);
      assert Durations(a + b) == head + Durations(a[1..] + b);
      DurationsAppend(a[1..], b);
    } else {
      assert a + b == b;
    }
  }

  /** Each session contributes its own duration exactly once, in place, and
      nothing when its duration is NULL. */
  lemma DurationsOnePerSession(before: seq<Session>, s: Session, after: seq<Session>)
    ensures Durations(before + [s] + after) ==
      Durations(before) + (if s.duration.Some? then [s.duration.value] else []) + Durations(after)
  {
    DurationsAppend(before, [s]);
    DurationsAppend(before + [s], after);
  }

  /** `SELECT AVG(duration) FROM Sleep_Sessions WHERE user_id = ? AND date >= date('now', '-7 days')`. */
  function AverageDuration(sessions: seq<Session>, user: Option<nat>, today: int): Average
  {
    var ds := Durations(Windowed(sessions, user, today, DashboardDays));
    Shown(Sum(ds), |ds|)
  }

  /** The average duration shows "No data" exactly when no session of the user
      in the last seven days has a duration, or their durations sum to 0;
      otherwise it averages exactly those durations. */
  lemma AverageDurationNoData(sessions: seq<Session>, user: Option<nat>, today: int)
    ensures AverageDuration(sessions, user, today) == NoData <==>
      (forall s :: s in sessions && Owned(s, user) && InWindow(s.date, today, DashboardDays) ==> s.duration.None?)
      || Sum(Durations(Windowed(sessions, user, today, DashboardDays))) == 0
  {
    var w := Windowed(sessions, user, today, DashboardDays);
    var ds := Durations(w);
    if ds != [] {
      assert ds[0] in ds;
    } else {
      forall s | s in sessions && Owned(s, user) && InWindow(s.date, today, DashboardDays)
        ensures s.duration.None?
      {
        assert s in w;
      }
    }
  }

  /** `ON sq.session_id = ss.session_id`: the first session row with that id. */
  function SessionById(sessions: seq<Session>, id: nat): (r: Option<Session>)
    ensures r.Some? ==> r.value in sessions && r.value.id == id
    ensures r.None? <==> forall s :: s in sessions ==> s.id != id
  {
    if sessions == [] then None
    else if sessions[0].id == id then Some(sessions[0])
    else SessionById(sessions[1..], id)
  }

  /** A quality row joins a session of the user dated within the window. */
  predicate JoinsWindow(q: Quality, sessions: seq<Session>, user: Option<nat>, today: int, days: nat)
  {
    var s := SessionById(sessions, q.sessionId);
    s.Some? && Owned(s.value, user) && InWindow(s.value.date, today, days)
  }

  /** The quality rows that join a windowed session of the user, in table order,
      each as often as it occurs in the table. */
  function Joining(qualities: seq<Quality>, sessions: seq<Session>, user: Option<nat>, today: int, days: nat): (j: seq<Quality>)
    ensures forall q :: q in j <==> q in qualities && JoinsWindow(q, sessions, user, today, days)
    ensures forall q ::
      multiset(j)[q] == (if JoinsWindow(q, sessions, user, today, days) then multiset(qualities)[q] else 0)
  {
    if qualities == [] then []
    else
      var rest := Joining(qualities[1..], sessions, user, today, days);
      assert qualities == [qualities[0]] + qualities[1..];
      if JoinsWindow(qualities[0], sessions, user, today, days) then [qualities[0]] + rest else rest
  }

  /** The `rating` column of some quality rows, row by row. */
  function RatingsOf(j: seq<Quality>): (rs: seq<int>)
    ensures |rs| == |j| && forall i :: 0 <= i < |j| ==> rs[i] == j[i].rating
    ensures forall q :: q in j ==> q.rating in rs
    ensures forall r :: r in rs ==> exists q :: q in j && q.rating == r
  {
    var rs := seq(|j|, i requires 0 <= i < |j| => j[i].rating);
    assert forall q :: q in j ==> exists i :: 0 <= i < |j| && j[i] == q && rs[i] == q.rating;
    rs
  }

  /** The ratings `AVG(sq.rating)` ranges over: one per joining quality row. */
  function WindowedRatings(qualities: seq<Quality>, sessions: seq<Session>, user: Option<nat>, today: int, days: nat): (rs: seq<int>)
    ensures rs == [] <==> forall q :: q in qualities ==> !JoinsWindow(q, sessions, user, today, days)
    ensures forall r :: r in rs ==> exists q :: q in qualities && JoinsWindow(q, sessions, user, today, days) && q.rating == r
    ensures forall q :: q in qualities && JoinsWindow(q, sessions, user, today, days) ==> q.rating in rs
    ensures |rs| == |Joining(qualities, sessions, user, today, days)|
    ensures forall i :: 0 <= i < |rs| ==> rs[i] == Joining(qualities, sessions, user, today, days)[i].rating
  {
    RatingsOf(Joining(qualities, sessions, user, today, days))
  }

  /** `SELECT AVG(sq.rating) FROM Sleep_Quality sq JOIN Sleep_Sessions ss ... date >= date('now', '-7 days')`. */
  function AverageQuality(qualities: seq<Quality>, sessions: seq<Session>, user: Option<nat>, today: int): Average
  {
    var rs := WindowedRatings(qualities, sessions, user, today, DashboardDays);
    Shown(Sum(rs), |rs|)
  }

  /** With every rating within the CHECK range, the quality average shows
      "No data" exactly when no quality row belongs to a session of the user
      in the last seven days, and otherwise lies between 1 and 10. */
  lemma AverageQualityInScale(qualities: seq<Quality>, sessions: seq<Session>, user: Option<nat>, today: int)
    requires forall q :: q in qualities ==> InScale(q.rating)
    ensures AverageQuality(qualities, sessions, user, today) == NoData <==>
      forall q :: q in qualities ==> !JoinsWindow(q, sessions, user, today, DashboardDays)
    ensures AverageQuality(qualities, sessions, user, today).Mean? ==>
      var a := AverageQuality(qualities, sessions, user, today);
      a.count <= a.total <= 10 * a.count
  {
    var rs := WindowedRatings(qualities, sessions, user, today, DashboardDays);
    forall r | r in rs ensures InScale(r) {
      var q :| q in qualities && q.rating == r;
    }
    SumInScale(rs);
  }

  // ----------------------------------------------------------- last session

  /** `ORDER BY sleep_start_time DESC LIMIT 1` over the user's sessions, open or
      closed; among equal start times any one may come first. */
  function LastSession(sessions: seq<Session>, user: Option<nat>): (r: Option<Session>)
    ensures r.None? <==> forall s :: s in sessions ==> !Owned(s, user)
    ensures r.Some? ==> r.value in sessions && Owned(r.value, user)
    ensures r.Some? ==> forall s :: s in sessions && Owned(s, user) ==> s.start <= r.value.start
  {
    if sessions == [] then None
    else
      var rest := LastSession(sessions[1..], user);
      assert forall s :: s in sessions ==> s == sessions[0] || s in sessions[1..];
      if !Owned(sessions[0], user) then rest
      else if rest.Some? && rest.value.start > sessions[0].start then rest
      else Some(sessions[0])
  }

  /** The "Last Sleep Session" lines: `end` absent shows "In progress", and so
      does `duration` when it is NULL or 0 (`if last_session[2]`). */
  datatype LastView = LastView(start: int, end: Option<int>, duration: Option<int>)

  function LastViewOf(s: Session): (v: LastView)
    ensures v.start == s.start && v.end == s.end
    ensures v.duration.None? <==> s.duration.None? || s.duration == Some(0)
    ensures v.duration.Some? ==> v.duration == s.duration
  {
    LastView(s.start, s.end, if s.duration.Some? && s.duration.value != 0 then s.duration else None)
  }

  /** The dashboard's "Sleep Summary"; `last` absent shows "No data". */
  datatype DashboardView = DashboardView(avgDuration: Average, avgQuality: Average, last: Option<LastView>)

  function Dashboard(sessions: seq<Session>, qualities: seq<Quality>, user: Option<nat>, today: int): (v: DashboardView)
    ensures v.last.None? <==> forall s :: s in sessions ==> !Owned(s, user)
    ensures v.last.Some? ==> exists s :: s in sessions && Owned(s, user) && v.last.value == LastViewOf(s)
    ensures v.last.Some? ==> forall s :: s in sessions && Owned(s, user) ==> s.start <= v.last.value.start
  {
    var last := LastSession(sessions, user);
    DashboardView(
      AverageDuration(sessions, user, today),
      AverageQuality(qualities, sessions, user, today),
      if last.Some? then Some(LastViewOf(last.value)) else None)
  }

  // ---------------------------------------------------------------- history

  /** A row of the history query: date, start, end, duration and the joined rating. */
  datatype HistoryRow = HistoryRow(date: int, start: int, end: Option<int>, duration: Option<int>, rating: Option<int>)

  /** `LEFT JOIN Sleep_Quality sq ON ss.session_id = sq.session_id`: the rating
      of the first quality row for the session, absent when there is none. */
  function RatingOf(qualities: seq<Quality>, id: nat): (r: Option<int>)
    ensures r.None? <==> forall q :: q in qualities ==> q.sessionId != id
    ensures r.Some? ==> exists q :: q in qualities && q.sessionId == id && q.rating == r.value
  {
    if qualities == [] then None
    else if qualities[0].sessionId == id then Some(qualities[0].rating)
    else RatingOf(qualities[1..], id)
  }

  function HistoryRowOf(s: Session, qualities: seq<Quality>): HistoryRow
  {
    HistoryRow(s.date, s.start, s.end, s.duration, RatingOf(qualities, s.id))
  }

  /** The user's sessions as history rows, in table order. */
  function OwnedRows(sessions: seq<Session>, qualities: seq<Quality>, user: Option<nat>): (rows: seq<HistoryRow>)
    ensures |rows| <= |sessions|
  {
    if sessions == [] then []
    else
      var rest := OwnedRows(sessions[1..], qualities, user);
      if Owned(sessions[0], user) then [HistoryRowOf(sessions[0], qualities)] + rest else rest
  }

  /** `ORDER BY ss.date DESC, ss.sleep_start_time DESC`: `a` may precede `b`. */
  function NewestFirst(): (HistoryRow, HistoryRow) -> bool
  {
    (a: HistoryRow, b: HistoryRow) => a.date > b.date || (a.date == b.date && a.start >= b.start)
  }

  lemma NewestFirstIsTotalPreorder()
    ensures TotalPreorder(NewestFirst())
  {
  }

  /** The history query: the user's sessions with their ratings, newest first. */
  function HistoryRows(sessions: seq<Session>, qualities: seq<Quality>, user: Option<nat>): seq<HistoryRow>
  {
    SortBy(OwnedRows(sessions, qualities, user), NewestFirst())
  }

  /** The history lists each of the user's sessions once, ordered by date and
      then start time, both descending. */
  lemma HistoryRowsOrderedNewestFirst(sessions: seq<Session>, qualities: seq<Quality>, user: Option<nat>)
    ensures multiset(HistoryRows(sessions, qualities, user)) == multiset(OwnedRows(sessions, qualities, user))
    ensures var rows := HistoryRows(sessions, qualities, user);
      forall i, j :: 0 <= i < j < |rows| ==>
        rows[i].date > rows[j].date || (rows[i].date == rows[j].date && rows[i].start >= rows[j].start)
  {
    NewestFirstIsTotalPreorder();
    SortByIsSorted(OwnedRows(sessions, qualities, user), NewestFirst());
  }

  lemma {:induction false} OwnedRowsAppend(sessions: seq<Session>, qualities: seq<Quality>, user: Option<nat>, s: Session)
    ensures OwnedRows(sessions + [s], qualities, user) ==
      OwnedRows(sessions, qualities, user) + (if Owned(s, user) then [HistoryRowOf(s, qualities)] else [])
  {
    if sessions != [] {
      assert (sessions + [s])[1..] == sessions[1..] + [s];
      OwnedRowsAppend(sessions[1..], qualities, user, s);
    }
  }

  /** A quality row for a new session leaves every older session's rows as they were. */
  lemma {:induction false} OwnedRowsIgnoreNewQuality(sessions: seq<Session>, qualities: seq<Quality>, user: Option<nat>, q: Quality)
    requires forall t :: t in sessions ==> t.id != q.sessionId
    ensures OwnedRows(sessions, qualities + [q], user) == OwnedRows(sessions, qualities, user)
  {
    if sessions != [] {
      var s := sessions[0];
      assert s in sessions;
      RatingOfAppend(qualities, q, s.id);
      assert forall t :: t in sessions[1..] ==> t in sessions;
      OwnedRowsIgnoreNewQuality(sessions[1..], qualities, user, q);
    }
  }

  lemma {:induction false} RatingOfAppend(qualities: seq<Quality>, q: Quality, id: nat)
    ensures RatingOf(qualities + [q], id) ==
      if RatingOf(qualities, id).Some? then RatingOf(qualities, id)
      else if q.sessionId == id then Some(q.rating) else None
  {
    if qualities != [] {
      assert (qualities + [q])[1..] == qualities[1..] + [q];
      RatingOfAppend(qualities[1..], q, id);
    }
  }

  /** Round trip of a manual record: adding a session of the user with a fresh
      id and its quality row adds exactly one history row, which carries that
      rating, and leaves every other row as it was. */
  lemma ManualRecordAppearsInHistory(sessions: seq<Session>, qualities: seq<Quality>, user: nat, s: Session, q: Quality)
    requires forall t :: t in sessions ==> t.id != s.id
    requires Unannotated(qualities, s.id)
    requires s.userId == user && q.sessionId == s.id
    ensures multiset(HistoryRows(sessions + [s], qualities + [q], Some(user))) ==
      multiset(HistoryRows(sessions, qualities, Some(user)))
      + multiset{HistoryRow(s.date, s.start, s.end, s.duration, Some(q.rating))}
  {
    RatingOfAppend(qualities, q, s.id);
    OwnedRowsAppend(sessions, qualities + [q], Some(user), s);
    OwnedRowsIgnoreNewQuality(sessions, qualities, Some(user), q);
  }

  /** A history line as displayed: start and end as "%H:%M" clocks, "In
      progress" for a missing end, "N/A" for a NULL or 0 duration or rating. */
  datatype HistoryEntry = HistoryEntry(date: int, startClock: int, endClock: Option<int>, duration: Option<int>, quality: Option<int>)

  function Entry(row: HistoryRow): (e: HistoryEntry)
    ensures e.date == row.date && e.startClock == ClockOf(row.start)
    ensures e.endClock.None? <==> row.end.None?
    ensures e.endClock.Some? ==> e.endClock.value == ClockOf(row.end.value)
    ensures e.duration.None? <==> row.duration.None? || row.duration == Some(0)
    ensures e.duration.Some? ==> e.duration == row.duration
    ensures e.quality.None? <==> row.rating.None? || row.rating == Some(0)
    ensures e.quality.Some? ==> e.quality == row.rating
  {
    HistoryEntry(
      row.date,
      ClockOf(row.start),
      if row.end.Some? then Some(ClockOf(row.end.value)) else None,
      if row.duration.Some? && row.duration.value != 0 then row.duration else None,
      if row.rating.Some? && row.rating.value != 0 then row.rating else None)
  }

  // ------------------------------------------------------------- statistics

  /** A row of the statistics query: session date and duration with the
      left-joined rating and factors (absent when there is no such row). */
  datatype StatRow = StatRow(date: int, duration: Option<int>, rating: Option<int>,
                             caffeine: Option<bool>, exercise: Option<bool>,
                             screenTime: Option<int>, stress: Option<int>)

  /** `LEFT JOIN Sleep_Factors sf ON ss.session_id = sf.session_id`, first row. */
  function FactorOf(factors: seq<Factor>, id: nat): (r: Option<Factor>)
    ensures r.None? <==> forall f :: f in factors ==> f.sessionId != id
    ensures r.Some? ==> r.value in factors && r.value.sessionId == id
  {
    if factors == [] then None
    else if factors[0].sessionId == id then Some(factors[0])
    else FactorOf(factors[1..], id)
  }

  function StatRowOf(s: Session, qualities: seq<Quality>, factors: seq<Factor>): StatRow
  {
    var f := FactorOf(factors, s.id);
    StatRow(s.date, s.duration, RatingOf(qualities, s.id),
            if f.Some? then Some(f.value.caffeine) else None,
            if f.Some? then Some(f.value.exercise) else None,
            if f.Some? then Some(f.value.screenTime) else None,
            if f.Some? then Some(f.value.stress) else None)
  }

  function StatRowsOf(w: seq<Session>, qualities: seq<Quality>, factors: seq<Factor>): (rows: seq<StatRow>)
    ensures |rows| == |w|
    ensures forall i :: 0 <= i < |w| ==> rows[i] == StatRowOf(w[i], qualities, factors)
  {
    if w == [] then [] else [StatRowOf(w[0], qualities, factors)] + StatRowsOf(w[1..], qualities, factors)
  }

  /** `ORDER BY ss.date`. */
  function OldestFirst(): (StatRow, StatRow) -> bool
  {
    (a: StatRow, b: StatRow) => a.date <= b.date
  }

  /** The statistics query for a look-back of `days`. */
  function StatRows(sessions: seq<Session>, qualities: seq<Quality>, factors: seq<Factor>,
                    user: Option<nat>, today: int, days: nat): seq<StatRow>
  {
    SortBy(StatRowsOf(Windowed(sessions, user, today, days), qualities, factors), OldestFirst())
  }

  /** What the statistics panel shows: a "No sleep data" message for an empty
      result, else charts of the rows, with the correlation line only when
      there are at least two rows (`len(df) > 1`). */
  datatype StatsView = NoDataInRange | Report(rows: seq<StatRow>, showsCorrelation: bool)

  function Statistics(sessions: seq<Session>, qualities: seq<Quality>, factors: seq<Factor>,
                      user: Option<nat>, selection: string, today: int): StatsView
  {
    var rows := StatRows(sessions, qualities, factors, user, today, DaysBack(selection));
    if rows == [] then NoDataInRange else Report(rows, |rows| > 1)
  }

  /** The panel reports no data exactly when the user has no session dated on
      or after today minus the selected number of days; otherwise it holds one
      row per such session, oldest first, and shows a correlation exactly when
      there are at least two. */
  lemma StatisticsWindow(sessions: seq<Session>, qualities: seq<Quality>, factors: seq<Factor>,
                         user: Option<nat>, selection: string, today: int)
    ensures var days := DaysBack(selection);
      Statistics(sessions, qualities, factors, user, selection, today) == NoDataInRange <==>
        forall s :: s in sessions ==> !(Owned(s, user) && InWindow(s.date, today, days))
    ensures var v := Statistics(sessions, qualities, factors, user, selection, today);
      v.Report? ==>
        && |v.rows| == |Windowed(sessions, user, today, DaysBack(selection))|
        && multiset(v.rows) == multiset(StatRowsOf(Windowed(sessions, user, today, DaysBack(selection)), qualities, factors))
        && (v.showsCorrelation <==> |v.rows| >= 2)
        && forall i, j :: 0 <= i < j < |v.rows| ==> v.rows[i].date <= v.rows[j].date
  {
    var days := DaysBack(selection);
    var w := Windowed(sessions, user, today, days);
    if w != [] {
      assert w[0] in w;
    }
    assert TotalPreorder(OldestFirst());
    SortByIsSorted(StatRowsOf(w, qualities, factors), OldestFirst());
  }
}
