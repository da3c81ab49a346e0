/** The login throttle: the handler of api/v1/users.go counts recent failures, verifies the
    password (slowly), and only then records its attempt, so handlers overlap. */
module Throttle {
  import opened Wrappers

  const WINDOW: Time := 15 * 60 * 1_000_000
  const THRESHOLD: nat := 10

  datatype LoginAttempt = LoginAttempt(username: string, successful: bool, createdOn: Time)

  /** inFlight holds the handlers that passed the check and have not yet recorded or given up. */
  datatype State = State(rows: seq<LoginAttempt>, inFlight: map<nat, string>, now: Time)

  datatype Event =
    | Check(handler: nat, username: string, time: Time)
    | Record(handler: nat, successful: bool, time: Time)
    | Abort(handler: nat, time: Time)

  predicate Matches(row: LoginAttempt, username: string, after: Time, before: Time) {
    row.username == username && !row.successful && after < row.createdOn < before
  }

  /** The number of failed attempts of the user strictly between two times. */
  function Failures(rows: seq<LoginAttempt>, username: string, after: Time, before: Time): nat {
    if rows == [] then 0 else
      var last := |rows| - 1;
      Failures(rows[..last], username, after, before) + if Matches(rows[last], username, after, before) then 1 else 0
  }

  predicate Exhausted(rows: seq<LoginAttempt>, username: string, now: Time) {
    Failures(rows, username, now - WINDOW, now) >= THRESHOLD
  }

  /** The failures recorded in the half-open window that ends at t and includes t. */
  function InWindow(rows: seq<LoginAttempt>, username: string, t: Time): nat {
    Failures(rows, username, t - WINDOW, t + 1)
  }

  /** The handlers of one user between check and record. */
  function Flying(s: State, username: string): set<nat> {
    set h | h in s.inFlight && s.inFlight[h] == username
  }

  /** The clock rises strictly from step to step. */
  predicate Enabled(s: State, e: Event) {
    && s.now < e.time
    && match e
       case Check(h, _, _) => h !in s.inFlight
       case Record(h, _, _) => h in s.inFlight
       case Abort(h, _) => h in s.inFlight
  }

  function Step(s: State, e: Event): State
    requires Enabled(s, e)
  {
    match e
    case Check(h, u, t) =>
      if Exhausted(s.rows, u, t) then s.(now := t)
      else s.(inFlight := s.inFlight[h := u], now := t)
    case Record(h, ok, t) =>
      State(s.rows + [LoginAttempt(s.inFlight[h], ok, t)], s.inFlight - {h}, t)
    case Abort(h, t) =>
      s.(inFlight := s.inFlight - {h}, now := t)
  }

  ghost predicate IsSegment(ss: seq<State>, es: seq<Event>) {
    && |ss| == |es| + 1
    && forall i :: 0 <= i < |es| ==> Enabled(ss[i], es[i]) && ss[i + 1] == Step(ss[i], es[i])
  }

  ghost predicate IsRun(ss: seq<State>, es: seq<Event>) {
    IsSegment(ss, es) && ss[0].rows == [] && ss[0].inFlight == map[]
  }

  // ----- counting -----

  lemma {:induction false} FailuresAppend(rows: seq<LoginAttempt>, row: LoginAttempt, u: string,
                                          after: Time, before: Time)
    ensures Failures(rows + [row], u, after, before)
         == Failures(rows, u, after, before) + if Matches(row, u, after, before) then 1 else 0
  {
  }

  lemma {:induction false} FailuresMonotone(rows: seq<LoginAttempt>, u: string, a: Time, b: Time, c: Time, d: Time)
    requires forall i :: 0 <= i < |rows| && c < rows[i].createdOn < d ==> a < rows[i].createdOn < b
    ensures Failures(rows, u, c, d) <= Failures(rows, u, a, b)
  {
    if rows != [] {
      FailuresMonotone(rows[..|rows| - 1], u, a, b, c, d);
    }
  }

  /** The rows of a user's failures strictly between two times. */
  ghost function FailedBetween(rows: seq<LoginAttempt>, u: string, after: Time, before: Time): set<int> {
    set i | 0 <= i < |rows| && rows[i].username == u && !rows[i].successful && after < rows[i].createdOn < before
  }

  lemma {:induction false} FailuresCountRows(rows: seq<LoginAttempt>, u: string, after: Time, before: Time)
    ensures Failures(rows, u, after, before) == |FailedBetween(rows, u, after, before)|
  {
    if rows == [] {
      assert FailedBetween(rows, u, after, before) == {};
    } else {
      var last := |rows| - 1;
      FailuresCountRows(rows[..last], u, after, before);
      assert FailedBetween(rows, u, after, before) == FailedBetween(rows[..last], u, after, before)
           + if Matches(rows[last], u, after, before) then {last} else {};
    }
  }

  // ----- the concurrent bound -----

  ghost predicate RowsPast(s: State) {
    forall i :: 0 <= i < |s.rows| ==> s.rows[i].createdOn <= s.now
  }

  /** The inductive form of the bound: what is recorded in the current window plus what is still
      in flight stays within the budget, and so did every earlier window. */
  ghost predicate WithinBudget(s: State, u: string, k: nat) {
    && RowsPast(s)
    && InWindow(s.rows, u, s.now) + |Flying(s, u)| <= THRESHOLD - 1 + k
    && AllWindows(s.rows, u, THRESHOLD - 1 + k)
  }

  /** No window, wherever it ends, holds more failures than the bound. */
  ghost predicate AllWindows(rows: seq<LoginAttempt>, u: string, bound: nat) {
    forall t: Time :: InWindow(rows, u, t) <= bound
  }

  lemma LaterWindow(rows: seq<LoginAttempt>, u: string, now: Time, t: Time)
    requires forall i :: 0 <= i < |rows| ==> rows[i].createdOn <= now
    requires now <= t
    ensures InWindow(rows, u, t) <= InWindow(rows, u, now)
  {
    FailuresMonotone(rows, u, now - WINDOW, now + 1, t - WINDOW, t + 1);
  }

  lemma CheckKeepsBudget(s: State, e: Event, u: string, k: nat)
    requires WithinBudget(s, u, k) && Enabled(s, e) && e.Check?
    requires |Flying(Step(s, e), u)| <= k
    ensures WithinBudget(Step(s, e), u, k)
  {
    var s' := Step(s, e);
    LaterWindow(s.rows, u, s.now, e.time);
    if Exhausted(s.rows, e.username, e.time) || e.username != u {
      assert Flying(s', u) == Flying(s, u);
    } else {
      FailuresMonotone(s.rows, u, e.time - WINDOW, e.time, e.time - WINDOW, e.time + 1);
    }
  }

  lemma LandingHandler(s: State, h: nat, u: string)
    requires h in s.inFlight
    ensures |Flying(s.(inFlight := s.inFlight - {h}), u)|
         == |Flying(s, u)| - if s.inFlight[h] == u then 1 else 0
  {
    assert Flying(s.(inFlight := s.inFlight - {h}), u) == Flying(s, u) - {h};
  }

  /** A new row is too late for the windows that end before it, and fits the one that ends at it best. */
  lemma WindowAfterRecord(rows: seq<LoginAttempt>, row: LoginAttempt, u: string, t: Time, bound: nat)
    requires forall i :: 0 <= i < |rows| ==> rows[i].createdOn <= row.createdOn
    requires InWindow(rows, u, t) <= bound && InWindow(rows + [row], u, row.createdOn) <= bound
    ensures InWindow(rows + [row], u, t) <= bound
  {
    if t < row.createdOn {
      FailuresAppend(rows, row, u, t - WINDOW, t + 1);
    } else {
      LaterWindow(rows + [row], u, row.createdOn, t);
    }
  }

  lemma AllWindowsAfterRecord(rows: seq<LoginAttempt>, row: LoginAttempt, u: string, bound: nat)
    requires forall i :: 0 <= i < |rows| ==> rows[i].createdOn <= row.createdOn
    requires AllWindows(rows, u, bound) && InWindow(rows + [row], u, row.createdOn) <= bound
    ensures AllWindows(rows + [row], u, bound)
  {
    forall t: Time
      ensures InWindow(rows + [row], u, t) <= bound
    {
      WindowAfterRecord(rows, row, u, t, bound);
    }
  }

  /** Recording moves a handler of the user from those in flight to the window, or, if successful,
      out of both. */
  lemma CurrentWindowAfterRecord(s: State, h: nat, successful: bool, time: Time, u: string)
    requires RowsPast(s) && h in s.inFlight && s.now < time
    ensures var row := LoginAttempt(s.inFlight[h], successful, time);
      InWindow(s.rows + [row], u, time) + |Flying(s.(inFlight := s.inFlight - {h}), u)|
        <= InWindow(s.rows, u, s.now) + |Flying(s, u)|
  {
    LandingHandler(s, h, u);
    LaterWindow(s.rows, u, s.now, time);
    FailuresAppend(s.rows, LoginAttempt(s.inFlight[h], successful, time), u, time - WINDOW, time + 1);
  }

  lemma RecordEffect(s: State, e: Event, u: string)
    requires Enabled(s, e) && e.Record?
    ensures Step(s, e).rows == s.rows + [LoginAttempt(s.inFlight[e.handler], e.successful, e.time)]
    ensures Step(s, e).now == e.time
    ensures Flying(Step(s, e), u) == Flying(s.(inFlight := s.inFlight - {e.handler}), u)
  {
  }

  lemma Assemble(s: State, u: string, k: nat)
    requires RowsPast(s) && InWindow(s.rows, u, s.now) + |Flying(s, u)| <= THRESHOLD - 1 + k
    requires AllWindows(s.rows, u, THRESHOLD - 1 + k)
    ensures WithinBudget(s, u, k)
  {
  }

  lemma RecordKeepsBudget(s: State, e: Event, u: string, k: nat)
    requires WithinBudget(s, u, k) && Enabled(s, e) && e.Record?
    ensures WithinBudget(Step(s, e), u, k)
  {
    RecordEffect(s, e, u);
    CurrentWindowAfterRecord(s, e.handler, e.successful, e.time, u);
    AllWindowsAfterRecord(s.rows, LoginAttempt(s.inFlight[e.handler], e.successful, e.time), u, THRESHOLD - 1 + k);
    Assemble(Step(s, e), u, k);
  }

  lemma StepKeepsBudget(s: State, e: Event, u: string, k: nat)
    requires WithinBudget(s, u, k) && Enabled(s, e)
    requires |Flying(Step(s, e), u)| <= k
    ensures WithinBudget(Step(s, e), u, k)
  {
    match e
    case Check(_, _, _) => CheckKeepsBudget(s, e, u, k);
    case Record(_, _, _) => RecordKeepsBudget(s, e, u, k);
    case Abort(h, t) =>
      LandingHandler(s, h, u);
      assert Flying(Step(s, e), u) == Flying(s.(inFlight := s.inFlight - {h}), u);
      LaterWindow(s.rows, u, s.now, t);
  }

  lemma {:induction false} RunWithinBudget(ss: seq<State>, es: seq<Event>, u: string, k: nat, n: nat)
    requires IsRun(ss, es) && n <= |es|
    requires forall i :: 0 <= i < |ss| ==> |Flying(ss[i], u)| <= k
    ensures WithinBudget(ss[n], u, k)
  {
    if n == 0 {
      assert Flying(ss[0], u) == {};
    } else {
      RunWithinBudget(ss, es, u, k, n - 1);
      assert ss[n - 1 + 1] == Step(ss[n - 1], es[n - 1]);
      StepKeepsBudget(ss[n - 1], es[n - 1], u, k);
    }
  }

  /** In every interleaving where at most k handlers of a user are between check and record, no
      fifteen-minute window, wherever it ends, holds more than 9 + k recorded failures. */
  lemma ConcurrentThrottleBound(ss: seq<State>, es: seq<Event>, u: string, k: nat, t: Time)
    requires IsRun(ss, es)
    requires forall i :: 0 <= i < |ss| ==> |set h | h in ss[i].inFlight && ss[i].inFlight[h] == u| <= k
    ensures var rows := ss[|es|].rows;
      |set i | 0 <= i < |rows| && rows[i].username == u && !rows[i].successful
               && t - 900_000_000 < rows[i].createdOn <= t| <= 9 + k
  {
    forall i | 0 <= i < |ss|
      ensures |Flying(ss[i], u)| <= k
    {
      assert Flying(ss[i], u) == set h | h in ss[i].inFlight && ss[i].inFlight[h] == u;
    }
    RunWithinBudget(ss, es, u, k, |es|);
    var rows := ss[|es|].rows;
    assert InWindow(rows, u, t) <= 9 + k;
    FailuresCountRows(rows, u, t - 900_000_000, t + 1);
    assert FailedBetween(rows, u, t - 900_000_000, t + 1)
        == set i | 0 <= i < |rows| && rows[i].username == u && !rows[i].successful
                   && t - 900_000_000 < rows[i].createdOn <= t;
  }

  // ----- the bound is attained -----

  lemma ExtendRun(ss: seq<State>, es: seq<Event>, e: Event)
    requires IsRun(ss, es) && Enabled(ss[|es|], e)
    ensures IsRun(ss + [Step(ss[|es|], e)], es + [e])
  {
  }

  /** All rows are failures of u at times 1..now, and handlers 0..f of u are in flight. */
  ghost predicate Staged(s: State, u: string, n: nat, f: nat) {
    && |s.rows| == n
    && 0 <= s.now < WINDOW
    && (forall i :: 0 <= i < n ==> Matches(s.rows[i], u, 0, s.now + 1))
    && (forall h :: h in s.inFlight <==> 0 <= h < f)
    && (forall h :: h in s.inFlight ==> s.inFlight[h] == u)
  }

  lemma {:induction false} AllMatch(rows: seq<LoginAttempt>, u: string, after: Time, before: Time)
    requires forall i :: 0 <= i < |rows| ==> Matches(rows[i], u, after, before)
    ensures Failures(rows, u, after, before) == |rows|
  {
    if rows != [] {
      AllMatch(rows[..|rows| - 1], u, after, before);
    }
  }

  function FirstHandlers(f: nat): (r: set<nat>)
    ensures forall h :: h in r <==> 0 <= h < f
    ensures |r| == f
  {
    if f == 0 then {} else FirstHandlers(f - 1) + {f - 1}
  }

  lemma StagedCounts(s: State, u: string, n: nat, f: nat, t: Time)
    requires Staged(s, u, n, f) && s.now < t <= WINDOW
    ensures Failures(s.rows, u, t - WINDOW, t) == n
    ensures |Flying(s, u)| == f
  {
    AllMatch(s.rows, u, t - WINDOW, t);
    assert Flying(s, u) == FirstHandlers(f);
  }

  ghost predicate StagedRun(ss: seq<State>, es: seq<Event>, u: string, n: nat, f: nat, k: nat) {
    && IsRun(ss, es)
    && (forall i :: 0 <= i < |ss| ==> |Flying(ss[i], u)| <= k)
    && Staged(ss[|es|], u, n, f)
  }

  /** One more handler passes the check while fewer than ten failures are recorded. */
  lemma Launch(ss: seq<State>, es: seq<Event>, u: string, n: nat, f: nat, k: nat)
    returns (ss': seq<State>, es': seq<Event>)
    requires StagedRun(ss, es, u, n, f, k) && n < THRESHOLD && f < k && ss[|es|].now + 1 < WINDOW
    ensures StagedRun(ss', es', u, n, f + 1, k) && ss'[|es'|].now == ss[|es|].now + 1
  {
    var s := ss[|es|];
    var e := Check(f, u, s.now + 1);
    StagedCounts(s, u, n, f, s.now + 1);
    ExtendRun(ss, es, e);
    ss', es' := ss + [Step(s, e)], es + [e];
    StagedCounts(Step(s, e), u, n, f + 1, s.now + 2);
  }

  /** The youngest handler in flight records a failure. */
  lemma Land(ss: seq<State>, es: seq<Event>, u: string, n: nat, f: nat, k: nat)
    returns (ss': seq<State>, es': seq<Event>)
    requires StagedRun(ss, es, u, n, f, k) && 0 < f <= k && ss[|es|].now + 1 < WINDOW
    ensures StagedRun(ss', es', u, n + 1, f - 1, k) && ss'[|es'|].now == ss[|es|].now + 1
  {
    var s := ss[|es|];
    var e := Record(f - 1, false, s.now + 1);
    ExtendRun(ss, es, e);
    ss', es' := ss + [Step(s, e)], es + [e];
    StagedCounts(Step(s, e), u, n + 1, f - 1, s.now + 2);
  }

  lemma NineSerialFailures(u: string, k: nat) returns (ss: seq<State>, es: seq<Event>)
    requires 1 <= k
    ensures StagedRun(ss, es, u, 9, 0, k) && ss[|es|].now == 18
  {
    ss, es := [State([], map[], 0)], [];
    assert Flying(ss[0], u) == {};
    for i := 0 to 9
      invariant StagedRun(ss, es, u, i, 0, k) && ss[|es|].now == 2 * i
    {
      ss, es := Launch(ss, es, u, i, 0, k);
      ss, es := Land(ss, es, u, i, 1, k);
    }
  }

  lemma OverlappingFailures(u: string, k: nat) returns (ss: seq<State>, es: seq<Event>)
    requires 1 <= k && 18 + 2 * k < WINDOW
    ensures StagedRun(ss, es, u, 9 + k, 0, k)
  {
    ss, es := NineSerialFailures(u, k);
    for i := 0 to k
      invariant StagedRun(ss, es, u, 9, i, k) && ss[|es|].now == 18 + i
    {
      ss, es := Launch(ss, es, u, 9, i, k);
    }
    for i := 0 to k
      invariant StagedRun(ss, es, u, 9 + i, k - i, k) && ss[|es|].now == 18 + k + i
    {
      ss, es := Land(ss, es, u, 9 + i, k - i, k);
    }
  }

  /** For every k >= 1 (that fits the window's clock ticks) the bound 9 + k is reached: nine
      failures one at a time, then k overlapping handlers that all fail. */
  lemma BoundIsAttained(u: string, k: nat) returns (ss: seq<State>, es: seq<Event>, t: Time)
    requires 1 <= k && 18 + 2 * k < 900_000_000
    ensures IsRun(ss, es)
    ensures forall i :: 0 <= i < |ss| ==> |set h | h in ss[i].inFlight && ss[i].inFlight[h] == u| <= k
    ensures var rows := ss[|es|].rows;
      |set i | 0 <= i < |rows| && rows[i].username == u && !rows[i].successful
               && t - 900_000_000 < rows[i].createdOn <= t| == 9 + k
  {
    ss, es := OverlappingFailures(u, k);
    t := ss[|es|].now;
    forall i | 0 <= i < |ss|
      ensures |set h | h in ss[i].inFlight && ss[i].inFlight[h] == u| <= k
    {
      assert Flying(ss[i], u) == set h | h in ss[i].inFlight && ss[i].inFlight[h] == u;
    }
    var rows := ss[|es|].rows;
    AllMatch(rows, u, t - 900_000_000, t + 1);
    FailuresCountRows(rows, u, t - 900_000_000, t + 1);
    assert FailedBetween(rows, u, t - 900_000_000, t + 1)
        == set i | 0 <= i < |rows| && rows[i].username == u && !rows[i].successful
                   && t - 900_000_000 < rows[i].createdOn <= t;
  }

  // ----- lockout length -----

  /** The times of a user's failures, oldest first. */
  function FailureTimes(rows: seq<LoginAttempt>, u: string): seq<Time> {
    if rows == [] then [] else
      var last := |rows| - 1;
      FailureTimes(rows[..last], u)
      + if rows[last].username == u && !rows[last].successful then [rows[last].createdOn] else []
  }

  ghost predicate Ordered(rows: seq<LoginAttempt>) {
    forall i, j :: 0 <= i < j < |rows| ==> rows[i].createdOn < rows[j].createdOn
  }

  ghost predicate WellTimed(s: State) {
    RowsPast(s) && Ordered(s.rows)
  }

  lemma StepWellTimed(s: State, e: Event)
    requires WellTimed(s) && Enabled(s, e)
    ensures WellTimed(Step(s, e))
  {
  }

  lemma {:induction false} SegmentWellTimed(ss: seq<State>, es: seq<Event>, n: nat)
    requires IsSegment(ss, es) && WellTimed(ss[0]) && n <= |es|
    ensures WellTimed(ss[n])
  {
    if n > 0 {
      SegmentWellTimed(ss, es, n - 1);
      assert ss[n - 1 + 1] == Step(ss[n - 1], es[n - 1]);
      StepWellTimed(ss[n - 1], es[n - 1]);
    }
  }

  lemma {:induction false} FailureTimesBefore(rows: seq<LoginAttempt>, u: string, t: Time)
    requires forall i :: 0 <= i < |rows| ==> rows[i].createdOn < t
    ensures forall i :: 0 <= i < |FailureTimes(rows, u)| ==> FailureTimes(rows, u)[i] < t
  {
    if rows != [] {
      FailureTimesBefore(rows[..|rows| - 1], u, t);
    }
  }

  lemma {:induction false} FailureTimesOrdered(rows: seq<LoginAttempt>, u: string)
    requires Ordered(rows)
    ensures forall i, j :: 0 <= i < j < |FailureTimes(rows, u)| ==> FailureTimes(rows, u)[i] < FailureTimes(rows, u)[j]
  {
    if rows != [] {
      var last := |rows| - 1;
      FailureTimesOrdered(rows[..last], u);
      FailureTimesBefore(rows[..last], u, rows[last].createdOn);
    }
  }

  /** Counting m or more failures after a time means the m-th most recent one is after it. */
  lemma {:induction false} MthMostRecent(rows: seq<LoginAttempt>, u: string, after: Time, before: Time, m: nat)
    requires Ordered(rows) && forall i :: 0 <= i < |rows| ==> rows[i].createdOn < before
    requires m > 0
    ensures var f := FailureTimes(rows, u);
      Failures(rows, u, after, before) >= m <==> |f| >= m && f[|f| - m] > after
  {
    FailureTimesOrdered(rows, u);
    if rows != [] {
      var last := |rows| - 1;
      var f, g := FailureTimes(rows, u), FailureTimes(rows[..last], u);
      if rows[last].username == u && !rows[last].successful {
        if m > 1 {
          MthMostRecent(rows[..last], u, after, before, m - 1);
          assert |f| >= m ==> f[|f| - m] == g[|g| - (m - 1)];
        }
        if rows[last].createdOn <= after {
          NoneMatch(rows[..last], u, after, before);
        }
      } else {
        MthMostRecent(rows[..last], u, after, before, m);
      }
    }
  }

  lemma {:induction false} NoneMatch(rows: seq<LoginAttempt>, u: string, after: Time, before: Time)
    requires forall i :: 0 <= i < |rows| ==> rows[i].createdOn <= after
    ensures Failures(rows, u, after, before) == 0
  {
    if rows != [] {
      NoneMatch(rows[..|rows| - 1], u, after, before);
    }
  }

  lemma {:induction false} FailureListed(rows: seq<LoginAttempt>, u: string, i: nat)
    requires i < |rows| && rows[i].username == u && !rows[i].successful
    ensures rows[i].createdOn in FailureTimes(rows, u)
  {
    if i < |rows| - 1 {
      FailureListed(rows[..|rows| - 1], u, i);
    }
  }

  lemma {:induction false} ListedFailure(rows: seq<LoginAttempt>, u: string, t: Time) returns (i: nat)
    requires t in FailureTimes(rows, u)
    ensures i < |rows| && rows[i].username == u && !rows[i].successful && rows[i].createdOn == t
  {
    var last := |rows| - 1;
    if t in FailureTimes(rows[..last], u) {
      i := ListedFailure(rows[..last], u, t);
    } else {
      i := last;
    }
  }

  /** The list holds the time of each failure of the user, once and in order. */
  lemma FailureTimesExact(rows: seq<LoginAttempt>, u: string)
    requires Ordered(rows)
    ensures var f := FailureTimes(rows, u);
      && (forall i, j :: 0 <= i < j < |f| ==> f[i] < f[j])
      && (forall t: Time :: t in f <==>
            exists i :: 0 <= i < |rows| && rows[i].username == u && !rows[i].successful && rows[i].createdOn == t)
  {
    FailureTimesOrdered(rows, u);
    forall t: Time | t in FailureTimes(rows, u)
      ensures exists i :: 0 <= i < |rows| && rows[i].username == u && !rows[i].successful && rows[i].createdOn == t
    {
      var i := ListedFailure(rows, u, t);
    }
    forall i: nat | i < |rows| && rows[i].username == u && !rows[i].successful
      ensures rows[i].createdOn in FailureTimes(rows, u)
    {
      FailureListed(rows, u, i);
    }
  }

  /** A check at time c is refused exactly when at least ten failures lie in the fifteen minutes before
      it, that is, when the tenth most recent failure is later than fifteen minutes before c. */
  lemma LockoutIsExact(s: State, u: string, c: Time)
    requires WellTimed(s) && s.now < c
    ensures var f := FailureTimes(s.rows, u);
      Exhausted(s.rows, u, c) <==> |f| >= 10 && c < f[|f| - 10] + 900_000_000
    ensures Exhausted(s.rows, u, c) <==>
      |set i | 0 <= i < |s.rows| && s.rows[i].username == u && !s.rows[i].successful
               && c - 900_000_000 < s.rows[i].createdOn < c| >= 10
  {
    MthMostRecent(s.rows, u, c - 900_000_000, c, 10);
    FailuresCountRows(s.rows, u, c - 900_000_000, c);
    assert FailedBetween(s.rows, u, c - 900_000_000, c)
        == set i | 0 <= i < |s.rows| && s.rows[i].username == u && !s.rows[i].successful
                   && c - 900_000_000 < s.rows[i].createdOn < c;
  }

  /** e does not write a failure of u. */
  predicate Silent(s: State, e: Event, u: string) {
    e.Record? && e.handler in s.inFlight ==> e.successful || s.inFlight[e.handler] != u
  }

  lemma SilentStepKeepsFailureTimes(s: State, e: Event, u: string)
    requires Enabled(s, e) && Silent(s, e, u)
    ensures FailureTimes(Step(s, e).rows, u) == FailureTimes(s.rows, u)
  {
    if e.Record? {
      assert Step(s, e).rows[..|s.rows|] == s.rows;
    }
  }

  lemma {:induction false} SilentKeepsFailureTimes(ss: seq<State>, es: seq<Event>, u: string, n: nat)
    requires IsSegment(ss, es) && n <= |es|
    requires forall i :: 0 <= i < |es| ==> Silent(ss[i], es[i], u)
    ensures FailureTimes(ss[n].rows, u) == FailureTimes(ss[0].rows, u)
  {
    if n > 0 {
      SilentKeepsFailureTimes(ss, es, u, n - 1);
      assert ss[n - 1 + 1] == Step(ss[n - 1], es[n - 1]);
      SilentStepKeepsFailureTimes(ss[n - 1], es[n - 1], u);
    }
  }

  /** A refused login leaves no trace but the clock, and retrying while locked out (or anything
      else short of a recorded failure of that user) cannot move the end of the lockout. */
  lemma RetriesCannotExtendLockout(ss: seq<State>, es: seq<Event>, u: string, c: Time)
    requires IsSegment(ss, es) && WellTimed(ss[0])
    requires forall i :: 0 <= i < |es| ==> Silent(ss[i], es[i], u)
    requires ss[|es|].now < c
    ensures var f := FailureTimes(ss[0].rows, u);
      Exhausted(ss[|es|].rows, u, c) <==> |f| >= 10 && c < f[|f| - 10] + 900_000_000
    ensures forall i :: 0 <= i < |es| && es[i].Check? && Exhausted(ss[i].rows, es[i].username, es[i].time) ==>
      ss[i + 1].rows == ss[i].rows && ss[i + 1].inFlight == ss[i].inFlight
  {
    SegmentWellTimed(ss, es, |es|);
    SilentKeepsFailureTimes(ss, es, u, |es|);
    LockoutIsExact(ss[|es|], u, c);
  }

  // ----- the handler -----

  datatype Lookup = Found(passwordMatches: bool) | Missing | LookupFailed

  /** What follows a correct password: a session, or a failure of hashing or of the cookie (400), or
      of storing the new hash (500). */
  datatype Completion = LoggedIn | Unhashed | Unstored

  lemma CheckAlone(s: State, u: string, time: Time)
    requires WithinBudget(s, u, 1) && s.inFlight == map[] && s.now < time
    ensures WithinBudget(Step(s, Check(0, u, time)), u, 1)
    ensures Step(s, Check(0, u, time)).inFlight == if Exhausted(s.rows, u, time) then map[] else map[0 := u]
  {
    var flying := Flying(Step(s, Check(0, u, time)), u);
    assert flying == if Exhausted(s.rows, u, time) then {} else {0};
    StepKeepsBudget(s, Check(0, u, time), u, 1);
  }

  lemma LandAlone(s: State, e: Event, u: string)
    requires WithinBudget(s, u, 1) && s.inFlight == map[0 := u] && Enabled(s, e) && !e.Check?
    ensures WithinBudget(Step(s, e), u, 1) && Step(s, e).inFlight == map[]
  {
    assert Flying(Step(s, e), u) == {};
    StepKeepsBudget(s, e, u, 1);
  }

  /** The login_attempts table with the logins being served. */
  class LoginServer {
    var rows: seq<LoginAttempt>
    var inFlight: map<nat, string>
    var now: Time

    constructor ()
      ensures S() == State([], map[], 0)
      ensures forall u: string, k: nat :: WithinBudget(S(), u, k)
    {
      rows, inFlight, now := [], map[], 0;
      new;
      forall u: string, k: nat
        ensures WithinBudget(S(), u, k)
      {
        assert Flying(S(), u) == {};
      }
    }

    ghost function S(): State
      reads this
    {
      State(rows, inFlight, now)
    }

    /** LoginAttemptsHaveBeenExhausted, asked at the start of the login handler. */
    method CheckAttempts(h: nat, username: string, time: Time) returns (exhausted: bool)
      requires Enabled(S(), Check(h, username, time))
      modifies this
      ensures exhausted <==> |FailedBetween(old(rows), username, time - 900_000_000, time)| >= 10
      ensures rows == old(rows) && now == time
      ensures inFlight == if exhausted then old(inFlight) else old(inFlight)[h := username]
      ensures exhausted == Exhausted(old(rows), username, time)
      ensures S() == Step(old(S()), Check(h, username, time))
    {
      FailuresCountRows(rows, username, time - 900_000_000, time);
      var loginCount := Failures(rows, username, time - WINDOW, time);
      exhausted := loginCount >= THRESHOLD;
      if !exhausted {
        inFlight := inFlight[h := username];
      }
      now := time;
    }

    method CreateLoginAttempt(h: nat, successful: bool, time: Time)
      requires Enabled(S(), Record(h, successful, time))
      modifies this
      ensures rows == old(rows) + [LoginAttempt(old(inFlight)[h], successful, time)]
      ensures inFlight == old(inFlight) - {h} && now == time
      ensures S() == Step(old(S()), Record(h, successful, time))
    {
      rows := rows + [LoginAttempt(inFlight[h], successful, time)];
      inFlight := inFlight - {h};
      now := time;
    }

    method GiveUp(h: nat, time: Time)
      requires Enabled(S(), Abort(h, time))
      modifies this
      ensures rows == old(rows) && inFlight == old(inFlight) - {h} && now == time
      ensures S() == Step(old(S()), Abort(h, time))
    {
      inFlight := inFlight - {h};
      now := time;
    }

    /** The login handler served alone. checkFails and record are the calls on the login_attempts table;
        the user lookup and the password comparison are the parameter found. A session takes a correct
        password, no lockout and a recorded attempt; an attempt whose recording fails late is recorded. */
    method Login(username: string, validBody: bool, checkFails: bool, found: Lookup, record: Fault,
                 completion: Completion, checked: Time, recorded: Time) returns (status: Status)
      requires inFlight == map[] && now < checked < recorded
      requires WithinBudget(S(), username, 1)
      modifies this
      ensures inFlight == map[] && old(now) <= now <= recorded
      ensures WithinBudget(S(), username, 1)
      ensures var lockedOut := |FailedBetween(old(rows), username, checked - 900_000_000, checked)| >= 10;
        && rows == (if !validBody || checkFails || lockedOut || !found.Found? || record == Fails then old(rows)
                    else old(rows) + [LoginAttempt(username, found.passwordMatches, recorded)])
        && status == (if !validBody then BadRequest400
                      else if checkFails then Internal500
                      else if lockedOut then Unauthorized401
                      else if found.Missing? then NotFound404
                      else if found.LookupFailed? || record != NoFault then Internal500
                      else if !found.passwordMatches then Unauthorized401
                      else if completion.LoggedIn? then OK200
                      else if completion.Unhashed? then BadRequest400
                      else Internal500)
      ensures status == OK200 ==>
        && |FailedBetween(old(rows), username, checked - 900_000_000, checked)| < 10
        && found == Found(true)
        && rows == old(rows) + [LoginAttempt(username, true, recorded)]
    {
      if !validBody {
        return BadRequest400;
      }
      if checkFails {
        return Internal500;
      }
      CheckAlone(S(), username, checked);
      var exhausted := CheckAttempts(0, username, checked);
      if exhausted {
        return Unauthorized401;
      }
      if !found.Found? || record == Fails {
        LandAlone(S(), Abort(0, recorded), username);
        GiveUp(0, recorded);
        return if found.Missing? then NotFound404 else Internal500;
      }
      LandAlone(S(), Record(0, found.passwordMatches, recorded), username);
      CreateLoginAttempt(0, found.passwordMatches, recorded);
      if record == FailsLate {
        return Internal500;
      }
      if !found.passwordMatches {
        return Unauthorized401;
      }
      return match completion
             case LoggedIn => OK200
             case Unhashed => BadRequest400
             case Unstored => Internal500;
    }
  }
}
