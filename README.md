# Sleep Tracker ledger — a Dafny model

This project models the logic inside the `SleepTrackerApp` class of the Sleep
Tracker desktop application: the sleep-session ledger and the rules around it.
SQLite is replaced by four in-memory tables (sequences of rows), and each
handler that writes to them becomes a method of a class that holds those tables,
the logged-in user and the open end-of-session dialog. The read-only queries
behind the dashboard, the history list and the statistics panel are pure
functions with lemmas.

- `common.dfy` — `Option`, the refusal reasons and the `Outcome` of a handler.
- `clock.dfy` — instants as whole seconds since a midnight-aligned local epoch,
  days, clock times, Python's truncating `int(seconds / 60)`, and the overnight
  rule of the manual form.
- `tables.dfy` — the rows of Users, Sleep_Sessions, Sleep_Quality and
  Sleep_Factors, the lookups the handlers run, and `TablesValid`: the schema's
  constraints (AUTOINCREMENT ids, UNIQUE username, CHECK ranges) together with
  what the handlers keep true, above all the active-session lock (no user ever
  has two sessions without an end time).
- `sorting.dfy` — `ORDER BY` as insertion into a sorted sequence.
- `queries.dfy` — the 7-day averages, the last session, the history query and
  its display, the range labels and the statistics window.
- `app.dfy` — the class `SleepTrackerApp`. Every method preserves `Valid()`
  (which includes the lock) and states the whole new state, or that nothing
  changed when it refuses. A short client, `ActiveSessionScenario`, shows that
  the contracts alone decide a run: register, log in, start, a refused second
  start, an end 90 minutes later with duration 90.

Timestamps are integers. The application stores them as the fixed-width strings
`"%Y-%m-%d %H:%M:%S"` and `"%Y-%m-%d"`, so SQL string comparison and `ORDER BY`
agree with integer order. The clock (`datetime.now()`, SQLite's `date('now')`)
is a parameter: `now` in seconds for the handlers and `today` as a day number
for the queries.

Some of the code's behaviour is easy to misread. The model follows the code as written:
- The overnight rule moves the end to the next day only when the end clock is
  strictly earlier than the start clock. Equal clocks give a duration of 0, not
  24 hours.
- An ended session's duration is `int(seconds / 60)`. That truncates toward
  zero; it does not round.
- The window test is `date >= today - N`. It selects every date from today − N
  on: the N days before today, today itself, and also any later date, since a
  manual record may carry a future date. "Last 7 Days" and the dashboard's
  7-day averages therefore include 8 past-or-present dates.
- There is no validation of times woken or screen time beyond what the schema
  checks. The only range checks are the CHECK constraints on rating and stress
  level (1 to 10). A row that breaks one makes its INSERT fail, and nothing of
  that handler is committed.
- Nothing rejects a second quality row for a session. The model instead shows
  that the code's own flow never creates one. Quality rows are written only for
  a new manual session or for the session whose end-of-session dialog is open.
  Saving that dialog closes it. The invariant in `Valid()` therefore keeps at
  most one quality row and one factor row per session, and never one for a
  session still in progress.

Displays use Python's truthiness, and the model keeps that. A duration of 0 is
shown as "N/A" in the history and as "In progress" on the dashboard, like a NULL
duration (`Queries.Entry`, `Queries.LastViewOf`). An average of exactly 0 is
shown as "No data" (`Queries.Shown`).

## Model

| member | source | states |
|---|---|---|
| `Clock.MinuteOfDay` | sleep_tracker_app.py:785-786 | a clock accepted by `%H:%M` is a minute of the day in [0, 1440) whose hour and minute are read back from it |
| `Clock.ClockOf` | sleep_tracker_app.py:585-586 | the `%H:%M` shown for an instant is the minute of its day in which the instant falls |
| `Clock.ClockOfAt` | sleep_tracker_app.py:585 | round trip: the day and the clock read back from an instant built from a day and a clock are that day and that clock |
| `Clock.WholeMinutes` | sleep_tracker_app.py:660 | `int(seconds / 60)`: the whole minutes in a span, truncated toward zero on both sides of 0 |
| `Clock.ManualSpan` | sleep_tracker_app.py:785-794 | the manual start falls on the entered day at the entered start clock; the end shows the entered end clock, is at or after the start and less than a day later, and falls on the next day exactly when the end clock is earlier than the start clock |
| `Clock.ManualDurationIsClockDifference` | sleep_tracker_app.py:788-797 | the manual duration is (end clock − start clock) mod 1440, lies in [0, 1439], and is 0 exactly when the two clocks are equal |
| `Clock.OvernightExample` | sleep_tracker_app.py:788-797 | 23:00 to 06:00 ends at 06:00 of the next day and lasts 420 minutes |
| `Tables.UsernameTaken` | sleep_tracker_app.py:155-157 | the duplicate check finds a row exactly when some user has that username |
| `Tables.Authenticate` | sleep_tracker_app.py:188-192 | login finds a user id exactly when some row matches both username and password, and the id is that row's |
| `Tables.AuthenticateFindsTheUser` | sleep_tracker_app.py:188-198 | with unique usernames, login as a stored user succeeds exactly with that user's password and yields that user's id |
| `Tables.OpenSessionFrom` | sleep_tracker_app.py:642-647 | the active-session query finds a row exactly when the user has a session with NULL end time, and it returns the first such row |
| `Tables.OpenSessionIsUnique` | sleep_tracker_app.py:642-654 | under the lock, the session the query finds is the user's only open session |
| `Queries.DaysBack` | sleep_tracker_app.py:472-479 | "Last 30 Days" gives 30, "Last 90 Days" 90, "All Time" 3650, and any other selection 7 |
| `Queries.Windowed` | sleep_tracker_app.py:491 | a session is selected exactly when it belongs to the logged-in user and is dated on or after today minus N days, and it is selected as many times as it occurs in the table |
| `Queries.WiderWindowSeesMore` | sleep_tracker_app.py:472-491 | a longer range selects every session a shorter one selects |
| `Queries.Durations` | sleep_tracker_app.py:255-259 | `AVG(duration)` averages exactly the non-NULL durations of the selected sessions, and there are no more of them than sessions |
| `Queries.DurationsAppend` | sleep_tracker_app.py:255-259 | the durations of two runs of sessions are the durations of the first followed by those of the second |
| `Queries.DurationsOnePerSession` | sleep_tracker_app.py:255-259 | each session contributes its duration exactly once, in table order, and a session with a NULL duration contributes nothing |
| `Queries.AverageDurationNoData` | sleep_tracker_app.py:255-286 | the 7-day duration shows "No data" exactly when no session of the user in the window has a duration, or their durations sum to 0 |
| `Queries.Joining` | sleep_tracker_app.py:262-267 | the join keeps a quality row exactly when its session belongs to the user and lies in the window, and keeps it as many times as it occurs in the table |
| `Queries.WindowedRatings` | sleep_tracker_app.py:262-267 | the quality average ranges over exactly the ratings of the joining quality rows, one rating per row, so sessions without a quality row contribute nothing; there is no rating exactly when no row joins |
| `Queries.AverageQualityInScale` | sleep_tracker_app.py:262-291 | with ratings in 1..10, the 7-day quality shows "No data" exactly when no quality row joins a session of the user in the window, and otherwise lies between 1 and 10 |
| `Queries.LastSession` | sleep_tracker_app.py:270-277 | the last session is a session of the user, open or closed, whose start is the greatest; there is none exactly when the user has no session |
| `Queries.Dashboard` | sleep_tracker_app.py:250-303 | the dashboard shows no last session exactly when the user has none; otherwise it shows the view of one of the user's sessions, and no session of the user starts later |
| `Queries.LastViewOf` | sleep_tracker_app.py:293-303 | the dashboard shows the session's start and end (no end shows "In progress"), and its duration unless that is NULL or 0 |
| `Queries.RatingOf` | sleep_tracker_app.py:574 | the left join gives a session's rating from a quality row of that session, and no rating exactly when it has none |
| `Queries.HistoryRowsOrderedNewestFirst` | sleep_tracker_app.py:571-577 | the history holds each of the user's sessions once with its rating, ordered by date and then start time, both descending |
| `Queries.ManualRecordAppearsInHistory` | sleep_tracker_app.py:819-839 | saving a manual record adds exactly one history row, carrying the entered rating, and leaves the other rows as they were |
| `Queries.Entry` | sleep_tracker_app.py:583-590 | a history line shows the row's date, the clock of its start and of its end, its duration and its rating; "In progress" exactly for a missing end, and "N/A" exactly for a NULL or 0 duration or rating |
| `Queries.FactorOf` | sleep_tracker_app.py:490 | the left join gives a session's factor row when it has one, and none exactly when it has none |
| `Queries.StatRowsOf` | sleep_tracker_app.py:485-491 | the statistics query gives, for each selected session in order, its date and duration joined with its rating and factor row |
| `Queries.StatisticsWindow` | sleep_tracker_app.py:485-538 | the panel shows no data exactly when the user has no session in the selected window; otherwise its rows are exactly the joined rows of those sessions, reordered oldest date first, and the correlation is shown exactly when there are at least two rows |
| `App.SleepTrackerApp.constructor` | sleep_tracker_app.py:29-87 | a fresh database has four empty tables, no user is logged in, and the invariants hold |
| `App.SleepTrackerApp.Register` | sleep_tracker_app.py:140-173 | an empty username or password, or a taken username, is refused with no change; otherwise exactly one user is appended, so usernames stay unique |
| `App.SleepTrackerApp.Login` | sleep_tracker_app.py:175-202 | empty credentials are refused; the current user becomes the matching row's id exactly when one matches, and is unchanged otherwise |
| `App.SleepTrackerApp.Logout` | sleep_tracker_app.py:861-864 | no user is logged in afterwards |
| `App.SleepTrackerApp.StartSleepSession` | sleep_tracker_app.py:595-633 | with an open session the table is unchanged; otherwise exactly one session is appended, open, with NULL duration, the user's id, and dated by its start; the lock is preserved |
| `App.SleepTrackerApp.EndSleepSession` | sleep_tracker_app.py:635-676 | with no open session nothing changes; otherwise only that session changes, getting `now` as end and the truncated minutes since its start as duration, and afterwards the user has no open session |
| `App.SleepTrackerApp.SaveEndSessionData` | sleep_tracker_app.py:740-769 | the dialog's quality and factor rows are both appended for its session, or neither when a CHECK constraint rejects them |
| `App.SleepTrackerApp.SaveSleepRecord` | sleep_tracker_app.py:773-859 | an unparsable date or clock, or a constraint violation, changes nothing; otherwise one closed session dated by the entered date, with the overnight-adjusted end and duration, plus one quality and one factor row referencing it, are appended together |
| `App.SleepTrackerApp.LoadSleepHistory` | sleep_tracker_app.py:560-593 | the displayed list has one line per row of the history query, in the query's order |

## Left out

- Widgets, layout, screens, dialogs and message boxes are presentation only. Each handler's outcome is modelled as done or refused; the message text is not.
- Charts, the floating-point averages and their rounding for display, the value of the Pearson correlation, and the per-factor mean durations are left out. These are float numerics done through matplotlib and pandas. Only the empty-result check and the `len(df) > 1` guard before the correlation are modelled (`Queries.StatisticsWindow`).
- Parsing and formatting of date strings are left out. The date field is a day number, or absent when its text does not parse. The model assumes the canonical zero-padded form: `strptime` also accepts "2024-1-5", which would be stored verbatim and would then compare out of order as a string.
- Reading the spinbox text with `int()` is left out. The form's fields arrive as numbers, so the `ValueError` that non-numeric text would raise is not modelled.
- SQLite connections, `print` logging in `init_database`, and failures of the database itself are left out. An existing database file is not modelled either: the constructor starts from empty tables.
- App.SleepTrackerApp.EndSleepSession: `now` is taken in whole seconds. The sub-second part of `datetime.now()` is not modelled, and neither is float rounding in `total_seconds() / 60`.
- App.SleepTrackerApp.StartSleepSession: the start time and the session date come from two separate `datetime.now()` calls (sleep_tracker_app.py:615-616). The model reads the clock once and uses that instant for both, so a start just before midnight with its date taken just after is not modelled; `DayOf(start) == date` in `Tables.SessionRowOk` relies on this.
- SQLite's `date('now')` is UTC, while session dates are written in local time. The model passes `today` as one parameter and does not model that offset.
- The `date_created` column and its `CURRENT_TIMESTAMP` default are not modelled.
- `is_logged_in` is not modelled separately; it is `currentUser.Some?`.
- Closing the end-of-session dialog without saving is not modelled. `endDialog` stays set until the next save or the next ended session.
- Password handling is plain equality, as in the code. Security is not modelled.
- Queries.LastSession: among sessions with equal start times, SQLite may return any one. The contract does not say which, and neither do the ordering lemmas for rows with equal sort keys.
- Concurrent use of one database by several processes is not modelled.
