/** Grouping of job errors in `LoggerMiddleware` (jobs/middlewares.go): a counter per error key under a
    mutex, and one sleeping goroutine per open group, as a timed transition system. */
module ErrorGrouping {
  import opened Wrappers
  import opened Hashing

  /** `sentryErrorGroupingTime`, in seconds. */
  const GROUPING_TIME: nat := 30

  /** What the wrapped job returned. */
  datatype Outcome = Success | Snoozed | Failed(message: string)

  /** The goroutine started for a group: it sleeps until `due` and then reports `error`. */
  datatype Reporter = Reporter(key: string, due: nat, error: string)

  function ErrorKey(kind: string, message: string): string {
    kind + ":" + message
  }

  /** Failures share a key exactly when they are of one kind and have one message, as long as kinds
      contain no colon. */
  lemma KeysTellFailures(k: string, m: string, l: string, n: string)
    requires ':' !in k && ':' !in l
    ensures ErrorKey(k, m) == ErrorKey(l, n) <==> k == l && m == n
  {
    if ErrorKey(k, m) == ErrorKey(l, n) {
      SplitUnique(k, m, l, n, ':');
    }
  }

  /** With colons they may not be told apart. */
  lemma ColonsConfuseKeys()
    ensures ErrorKey("a", "b:c") == ErrorKey("a:b", "c")
  {
  }

  // ----- the two critical sections -----

  /** `m.errorCount[errorKey]++`; a missing key counts as zero. */
  function Incremented(counts: map<string, nat>, key: string): map<string, nat> {
    counts[key := (if key in counts then counts[key] else 0) + 1]
  }

  class LoggerMiddleware {
    var errorCount: map<string, nat>

    constructor ()
      ensures errorCount == map[]
    {
      errorCount := map[];
    }

    /** `aggregateAndLogError`, run with the lock held at time now; spawned is the goroutine that is
        started, if any. */
    method AggregateAndLogError(kind: string, message: string, now: nat)
      returns (spawned: Option<Reporter>)
      modifies this
      ensures errorCount == Incremented(old(errorCount), ErrorKey(kind, message))
      ensures spawned ==
        if errorCount[ErrorKey(kind, message)] == 1
        then Some(Reporter(ErrorKey(kind, message), now + GROUPING_TIME, message)) else None
    {
      var errorKey := ErrorKey(kind, message);
      var count := if errorKey in errorCount then errorCount[errorKey] else 0;
      errorCount := errorCount[errorKey := count + 1];
      spawned := None;
      if errorCount[errorKey] == 1 {
        spawned := Some(Reporter(errorKey, now + GROUPING_TIME, message));
      }
    }

    /** The end of the goroutine, run with the lock held: forget the group and report. */
    method Wake(r: Reporter) returns (reported: string)
      modifies this
      ensures errorCount == old(errorCount) - {r.key} && reported == r.error
    {
      errorCount := errorCount - {r.key};
      reported := r.error;
    }

    /** `Work` after the job returned: only a failure that is not a snooze is counted. */
    method Work(kind: string, outcome: Outcome, now: nat) returns (spawned: Option<Reporter>)
      modifies this
      ensures !outcome.Failed? ==> errorCount == old(errorCount) && spawned == None
      ensures outcome.Failed? ==>
        var key := ErrorKey(kind, outcome.message);
        && errorCount == Incremented(old(errorCount), key)
        && spawned == if errorCount[key] == 1
                      then Some(Reporter(key, now + GROUPING_TIME, outcome.message)) else None
    {
      spawned := None;
      if outcome.Failed? {
        spawned := AggregateAndLogError(kind, outcome.message, now);
      }
    }
  }

  // ----- the system of jobs, reporters and time -----

  datatype Event =
    | Failure(key: string, at: nat, error: string)
    | Report(key: string, at: nat, error: string)

  datatype State = State(
    counts: map<string, nat>, sleeping: seq<Reporter>, now: nat, log: seq<Event>)

  datatype Step =
    | Finish(kind: string, outcome: Outcome)  // a job ends and its middleware takes the lock
    | WakeUp(k: nat)                          // a sleeping reporter takes the lock
    | Tick(duration: nat)

  const INIT: State := State(map[], [], 0, [])

  /** A sleeping goroutine takes the lock no earlier than its due time, and possibly much later. */
  predicate Enabled(s: State, step: Step) {
    step.WakeUp? ==> step.k < |s.sleeping| && s.sleeping[step.k].due <= s.now
  }

  function Next(s: State, step: Step): State
    requires Enabled(s, step)
  {
    match step
    case Finish(kind, Failed(message)) =>
      var key := ErrorKey(kind, message);
      var counts := Incremented(s.counts, key);
      s.(counts := counts,
         sleeping := if counts[key] == 1
                     then s.sleeping + [Reporter(key, s.now + GROUPING_TIME, message)]
                     else s.sleeping,
         log := s.log + [Failure(key, s.now, message)])
    case Finish(_, _) => s
    case WakeUp(k) =>
      var r := s.sleeping[k];
      s.(counts := s.counts - {r.key},
         sleeping := s.sleeping[..k] + s.sleeping[k + 1..],
         log := s.log + [Report(r.key, s.now, r.error)])
    case Tick(d) => s.(now := s.now + d)
  }

  /** The steps of the system are what the middleware does when it gets the lock. */
  method Execute(m: LoggerMiddleware, s: State, step: Step) returns (sleeping: seq<Reporter>)
    requires m.errorCount == s.counts && Enabled(s, step)
    modifies m
    ensures m.errorCount == Next(s, step).counts && sleeping == Next(s, step).sleeping
  {
    sleeping := s.sleeping;
    match step {
      case Finish(kind, outcome) =>
        var spawned := m.Work(kind, outcome, s.now);
        if spawned.Some? {
          sleeping := sleeping + [spawned.value];
        }
      case WakeUp(k) =>
        var reported := m.Wake(sleeping[k]);
        sleeping := sleeping[..k] + sleeping[k + 1..];
      case Tick(_) =>
    }
  }

  /** The states that some interleaving of jobs, wake-ups and passing time leads to. */
  ghost predicate Reaches(steps: seq<Step>, s: State) {
    if steps == [] then s == INIT
    else
      var last := steps[|steps| - 1];
      exists p :: Reaches(steps[..|steps| - 1], p) && Enabled(p, last) && s == Next(p, last)
  }

  // ----- reading the log -----

  /** Failures of key since its last report. */
  function Open(log: seq<Event>, key: string): seq<Event> {
    if log == [] then []
    else
      var rest, e := Open(log[..|log| - 1], key), log[|log| - 1];
      if e.key != key then rest else if e.Failure? then rest + [e] else []
  }

  function Failures(log: seq<Event>, key: string): nat {
    if log == [] then 0
    else
      var e := log[|log| - 1];
      Failures(log[..|log| - 1], key) + if e.key == key && e.Failure? then 1 else 0
  }

  /** For each report of key, the failures it closes. */
  function Closed(log: seq<Event>, key: string): seq<seq<Event>> {
    if log == [] then []
    else
      var before, e := log[..|log| - 1], log[|log| - 1];
      if e.key == key && e.Report? then Closed(before, key) + [Open(before, key)]
      else Closed(before, key)
  }

  function Reports(log: seq<Event>, key: string): seq<Event> {
    if log == [] then []
    else
      var e := log[|log| - 1];
      if e.key == key && e.Report? then Reports(log[..|log| - 1], key) + [e]
      else Reports(log[..|log| - 1], key)
  }

  function Total(groups: seq<seq<Event>>): nat {
    if groups == [] then 0 else Total(groups[..|groups| - 1]) + |groups[|groups| - 1]|
  }

  // ----- the invariant -----

  /** The groups as the log defines them: the counter of a key is the number of its open failures, and
      the one reporter of the key is due 30 seconds after the first of them and carries its error. */
  ghost predicate Grouped(s: State) {
    && (forall key :: key in s.counts <==> Open(s.log, key) != [])
    && (forall key | key in s.counts :: s.counts[key] == |Open(s.log, key)|)
    && (forall key | key in s.counts :: exists k :: 0 <= k < |s.sleeping| && s.sleeping[k].key == key)
    && (forall i, j :: 0 <= i < j < |s.sleeping| ==> s.sleeping[i].key != s.sleeping[j].key)
    && (forall k :: 0 <= k < |s.sleeping| ==> Opened(s, s.sleeping[k]))
  }

  predicate Opened(s: State, r: Reporter) {
    var open := Open(s.log, r.key);
    open != [] && r.due == open[0].at + GROUPING_TIME && r.error == open[0].error
  }

  /** Every event of the log happened by now, in order. */
  predicate InOrder(s: State) {
    && (forall i :: 0 <= i < |s.log| ==> s.log[i].at <= s.now)
    && forall i, j :: 0 <= i < j < |s.log| ==> s.log[i].at <= s.log[j].at
  }

  /** Each report closes a group that was opened at least 30 seconds before, with its error. */
  predicate ReportsAreRight(log: seq<Event>) {
    forall n :: 0 <= n < |log| && log[n].Report? ==> ReportIsRight(Open(log[..n], log[n].key), log[n])
  }

  predicate ReportIsRight(open: seq<Event>, e: Event) {
    open != [] && e.at >= open[0].at + GROUPING_TIME && e.error == open[0].error
  }

  ghost predicate Inv(s: State) {
    Grouped(s) && InOrder(s) && ReportsAreRight(s.log)
  }

  lemma OpenGrows(log: seq<Event>, e: Event, key: string)
    ensures Open(log + [e], key) ==
      if e.key != key then Open(log, key) else if e.Failure? then Open(log, key) + [e] else []
  {
    assert (log + [e])[..|log|] == log;
  }

  lemma LogGrows(log: seq<Event>, e: Event)
    requires ReportsAreRight(log) && (e.Report? ==> ReportIsRight(Open(log, e.key), e))
    ensures ReportsAreRight(log + [e])
  {
    var l := log + [e];
    forall n | 0 <= n < |l| && l[n].Report? ensures ReportIsRight(Open(l[..n], l[n].key), l[n]) {
      assert l[..n] == log[..n];
      assert log[..|log|] == log;
    }
  }

  lemma LogStaysInOrder(s: State, t: State, e: Event)
    requires InOrder(s) && e.at == s.now == t.now && t.log == s.log + [e]
    ensures InOrder(t)
  {
  }

  lemma FailKeepsInv(s: State, kind: string, message: string)
    requires Inv(s)
    ensures Inv(Next(s, Finish(kind, Failed(message))))
  {
    hide Next, Open, Opened, InOrder, ReportsAreRight, Joins;
    var key, t := ErrorKey(kind, message), Next(s, Finish(kind, Failed(message)));
    var e := Failure(key, s.now, message);
    FailJoins(s, kind, message);
    LogGrows(s.log, e);
    LogStaysInOrder(s, t, e);
    FailKeepsCounts(s, t, key, e);
    FailKeepsReporters(s, t, key, e);
  }

  lemma FailJoins(s: State, kind: string, message: string)
    requires Grouped(s)
    ensures var key, t := ErrorKey(kind, message), Next(s, Finish(kind, Failed(message)));
      var e := Failure(key, s.now, message);
      Joins(s, t, key, e) && t.now == s.now && t.log == s.log + [e]
  {
    hide ErrorKey, Open, Opened;
    var key, t := ErrorKey(kind, message), Next(s, Finish(kind, Failed(message)));
    var e := Failure(key, s.now, message);
    assert t.counts[key] == 1 <==> key !in s.counts;
    forall k ensures Open(t.log, k) == if k == key then Open(s.log, k) + [e] else Open(s.log, k) {
      OpenGrows(s.log, e, k);
    }
  }

  /** What a failure does to the groups: e joins the group of its key. */
  ghost predicate Joins(s: State, t: State, key: string, e: Event) {
    && e == Failure(key, s.now, e.error)
    && (forall k :: Open(t.log, k) == if k == key then Open(s.log, k) + [e] else Open(s.log, k))
    && t.counts == Incremented(s.counts, key)
    && t.sleeping == if key !in s.counts
                     then s.sleeping + [Reporter(key, s.now + GROUPING_TIME, e.error)]
                     else s.sleeping
  }

  lemma FailKeepsCounts(s: State, t: State, key: string, e: Event)
    requires Grouped(s) && Joins(s, t, key, e)
    ensures forall k :: k in t.counts <==> Open(t.log, k) != []
    ensures forall k | k in t.counts :: t.counts[k] == |Open(t.log, k)|
    ensures forall k | k in t.counts :: exists i :: 0 <= i < |t.sleeping| && t.sleeping[i].key == k
  {
    hide Open;
    forall k | k in t.counts ensures exists i :: 0 <= i < |t.sleeping| && t.sleeping[i].key == k {
      if k in s.counts {
        var i :| 0 <= i < |s.sleeping| && s.sleeping[i].key == k;
        assert t.sleeping[i] == s.sleeping[i];
      } else {
        assert t.sleeping[|s.sleeping|].key == k;
      }
    }
  }

  lemma FailKeepsReporters(s: State, t: State, key: string, e: Event)
    requires Grouped(s) && Joins(s, t, key, e)
    ensures forall i, j :: 0 <= i < j < |t.sleeping| ==> t.sleeping[i].key != t.sleeping[j].key
    ensures forall k :: 0 <= k < |t.sleeping| ==> Opened(t, t.sleeping[k])
  {
    hide Open;
    forall i | 0 <= i < |t.sleeping| ensures Opened(t, t.sleeping[i]) {
      if i < |s.sleeping| {
        assert Opened(s, s.sleeping[i]);
      }
    }
    if key !in s.counts {
      forall i | 0 <= i < |s.sleeping| ensures s.sleeping[i].key != key {
        assert Opened(s, s.sleeping[i]);
      }
    }
  }

  lemma WakeKeepsInv(s: State, k: nat)
    requires Inv(s) && Enabled(s, WakeUp(k))
    ensures Inv(Next(s, WakeUp(k)))
  {
    var r, t := s.sleeping[k], Next(s, WakeUp(k));
    var e := Report(r.key, s.now, r.error);
    assert Opened(s, r);
    LogGrows(s.log, e);
    forall key ensures Open(t.log, key) == if key == r.key then [] else Open(s.log, key) {
      OpenGrows(s.log, e, key);
    }
    WakeKeepsGroups(s, t, k);
  }

  lemma WakeKeepsGroups(s: State, t: State, k: nat)
    requires Grouped(s) && k < |s.sleeping|
    requires forall key :: Open(t.log, key) == if key == s.sleeping[k].key then [] else Open(s.log, key)
    requires t.counts == s.counts - {s.sleeping[k].key}
    requires t.sleeping == s.sleeping[..k] + s.sleeping[k + 1..]
    ensures Grouped(t)
  {
    hide Open, Opened;
    forall key | key in t.counts
      ensures exists i :: 0 <= i < |t.sleeping| && t.sleeping[i].key == key
    {
      var i :| 0 <= i < |s.sleeping| && s.sleeping[i].key == key;
      assert t.sleeping[if i < k then i else i - 1] == s.sleeping[i];
    }
    OthersStay(s, t, k);
  }

  lemma OthersStay(s: State, t: State, k: nat)
    requires k < |s.sleeping| && t.sleeping == s.sleeping[..k] + s.sleeping[k + 1..]
    requires forall key | key != s.sleeping[k].key :: Open(t.log, key) == Open(s.log, key)
    requires forall i, j :: 0 <= i < j < |s.sleeping| ==> s.sleeping[i].key != s.sleeping[j].key
    requires forall i :: 0 <= i < |s.sleeping| ==> Opened(s, s.sleeping[i])
    ensures forall i, j :: 0 <= i < j < |t.sleeping| ==> t.sleeping[i].key != t.sleeping[j].key
    ensures forall i :: 0 <= i < |t.sleeping| ==> Opened(t, t.sleeping[i])
  {
    forall i | 0 <= i < |t.sleeping| ensures Opened(t, t.sleeping[i]) {
      var j := if i < k then i else i + 1;
      assert t.sleeping[i] == s.sleeping[j] && Opened(s, s.sleeping[j]);
    }
  }

  /** In every interleaving: a key is counted exactly while its group is open, its one sleeping
      reporter belongs to that group, and all past reports were right. */
  lemma {:induction false} Invariant(steps: seq<Step>, s: State)
    requires Reaches(steps, s)
    ensures Inv(s)
  {
    if steps != [] {
      var last := steps[|steps| - 1];
      var p :| Reaches(steps[..|steps| - 1], p) && Enabled(p, last) && s == Next(p, last);
      Invariant(steps[..|steps| - 1], p);
      match last
      case Finish(kind, Failed(message)) => FailKeepsInv(p, kind, message);
      case Finish(_, _) =>
      case WakeUp(k) => WakeKeepsInv(p, k);
      case Tick(_) =>
        assert forall r :: Opened(p, r) ==> Opened(s, r);
    }
  }

  // ----- what it means for the reports -----

  /** Counting: every failure is in exactly one group, closed or open; there is one closed group per
      report, and none is empty. */
  lemma {:induction false} NoFailureIsLost(log: seq<Event>, key: string)
    requires ReportsAreRight(log)
    ensures Failures(log, key) == Total(Closed(log, key)) + |Open(log, key)|
    ensures |Closed(log, key)| == |Reports(log, key)|
    ensures forall g | g in Closed(log, key) :: g != []
    ensures |Reports(log, key)| + (if Open(log, key) == [] then 0 else 1) <= Failures(log, key)
  {
    if log != [] {
      var before, e := log[..|log| - 1], log[|log| - 1];
      PrefixIsRight(log);
      NoFailureIsLost(before, key);
      if e.key == key && e.Report? {
        assert ReportIsRight(Open(before, key), e);
        assert Closed(log, key)[..|Closed(before, key)|] == Closed(before, key);
      }
    }
  }

  lemma PrefixIsRight(log: seq<Event>)
    requires ReportsAreRight(log) && log != []
    ensures ReportsAreRight(log[..|log| - 1])
  {
    var before := log[..|log| - 1];
    assert forall n :: 0 <= n < |before| ==> before[..n] == log[..n] && before[n] == log[n];
  }

  predicate Ordered(log: seq<Event>) {
    forall i, j :: 0 <= i < j < |log| ==> log[i].at <= log[j].at
  }

  lemma {:induction false} SelectedFromLog(log: seq<Event>, key: string)
    ensures forall x | x in Open(log, key) :: x in log
    ensures forall x | x in Reports(log, key) :: x in log
  {
    if log != [] {
      var before, e := log[..|log| - 1], log[|log| - 1];
      SelectedFromLog(before, key);
      assert log == before + [e];
    }
  }

  /** The failures still open came after the last report. */
  lemma {:induction false} OpenAfterReports(log: seq<Event>, key: string)
    requires Ordered(log)
    ensures var open, reports := Open(log, key), Reports(log, key);
      open != [] && reports != [] ==> reports[|reports| - 1].at <= open[0].at
  {
    if log != [] {
      var before, e := log[..|log| - 1], log[|log| - 1];
      OpenAfterReports(before, key);
      SelectedFromLog(before, key);
      assert forall x | x in before :: x.at <= e.at;
    }
  }

  /** Two consecutive reports of one key are at least 30 seconds apart. */
  lemma {:induction false} ReportsAreSpaced(log: seq<Event>, key: string)
    requires Ordered(log) && ReportsAreRight(log)
    ensures forall n :: 0 < n < |Reports(log, key)| ==>
      Reports(log, key)[n].at >= Reports(log, key)[n - 1].at + GROUPING_TIME
  {
    if log != [] {
      var before, e := log[..|log| - 1], log[|log| - 1];
      PrefixIsRight(log);
      ReportsAreSpaced(before, key);
      OpenAfterReports(before, key);
      if e.key == key && e.Report? {
        assert ReportIsRight(Open(before, key), e);
      }
    }
  }

  lemma {:induction false} SpacedSpan(reports: seq<Event>, n: nat)
    requires forall k :: 0 < k < |reports| ==> reports[k].at >= reports[k - 1].at + GROUPING_TIME
    requires n < |reports|
    ensures reports[n].at >= reports[0].at + n * GROUPING_TIME
  {
    if n > 0 {
      SpacedSpan(reports, n - 1);
    }
  }

  /** Over any run, n reports of one key span at least (n - 1) times 30 seconds, they are no more than
      its failures, and a failure that is not yet reported has a reporter, asleep or due. */
  lemma RunTheorem(steps: seq<Step>, s: State, key: string)
    requires Reaches(steps, s)
    ensures var reports := Reports(s.log, key);
      && (forall n :: 0 <= n < |reports| ==> reports[n].at >= reports[0].at + n * 30)
      && |reports| <= Failures(s.log, key)
      && Failures(s.log, key)
         == Total(Closed(s.log, key)) + (if key in s.counts then s.counts[key] else 0)
      && (key in s.counts <==> exists k :: 0 <= k < |s.sleeping| && s.sleeping[k].key == key)
  {
    Invariant(steps, s);
    NoFailureIsLost(s.log, key);
    ReportsAreSpaced(s.log, key);
    var reports := Reports(s.log, key);
    forall n | 0 <= n < |reports|
      ensures reports[n].at >= reports[0].at + n * GROUPING_TIME
    {
      SpacedSpan(reports, n);
    }
    assert forall k :: 0 <= k < |s.sleeping| ==> Opened(s, s.sleeping[k]);
  }

  lemma {:induction false} StillOpen(log: seq<Event>, n: nat)
    requires n < |log| && log[n].Failure?
    requires forall m :: n < m < |log| ==> !(log[m].Report? && log[m].key == log[n].key)
    ensures log[n] in Open(log, log[n].key)
    decreases |log|
  {
    if n < |log| - 1 {
      var before := log[..|log| - 1];
      assert before[n] == log[n];
      assert forall m :: n < m < |before| ==> before[m] == log[m];
      StillOpen(before, n);
    }
  }

  /** The first of the open failures is the oldest. */
  lemma {:induction false} OldestIsFirst(log: seq<Event>, key: string)
    requires Ordered(log)
    ensures forall x | x in Open(log, key) :: Open(log, key)[0].at <= x.at
  {
    if log != [] {
      var before, e := log[..|log| - 1], log[|log| - 1];
      OldestIsFirst(before, key);
      SelectedFromLog(before, key);
      assert forall x | x in before :: x.at <= e.at;
    }
  }

  /** In every reachable state a failure that is at least 30 seconds old has been followed by a report
      of its key, or a reporter for it may wake up. */
  lemma FailureIsReportedInTime(steps: seq<Step>, s: State, n: nat)
    requires Reaches(steps, s) && n < |s.log| && s.log[n].Failure?
    requires s.now >= s.log[n].at + 30
    ensures var key := s.log[n].key;
      || (exists m :: n < m < |s.log| && s.log[m].Report? && s.log[m].key == key)
      || (exists k :: 0 <= k < |s.sleeping| && s.sleeping[k].key == key && Enabled(s, WakeUp(k)))
  {
    Invariant(steps, s);
    var key := s.log[n].key;
    if !exists m :: n < m < |s.log| && s.log[m].Report? && s.log[m].key == key {
      StillOpen(s.log, n);
      OldestIsFirst(s.log, key);
      hide Open;
      var k :| 0 <= k < |s.sleeping| && s.sleeping[k].key == key;
      assert Opened(s, s.sleeping[k]);
      assert Enabled(s, WakeUp(k));
    }
  }

  // ----- what a report tells -----

  /** The kinds of the jobs that end in these steps contain no colon. */
  predicate PlainKinds(steps: seq<Step>) {
    forall n :: 0 <= n < |steps| ==> (steps[n].Finish? ==> ':' !in steps[n].kind)
  }

  /** Every event carries the key of its own error, for some plain kind. */
  ghost predicate KeyedByError(key: string, error: string) {
    exists kind :: ':' !in kind && key == ErrorKey(kind, error)
  }

  ghost predicate AllKeyed(s: State) {
    && (forall n :: 0 <= n < |s.log| ==> KeyedByError(s.log[n].key, s.log[n].error))
    && forall k :: 0 <= k < |s.sleeping| ==> KeyedByError(s.sleeping[k].key, s.sleeping[k].error)
  }

  lemma {:induction false} EventsAreKeyed(steps: seq<Step>, s: State)
    requires Reaches(steps, s) && PlainKinds(steps)
    ensures AllKeyed(s)
  {
    if steps != [] {
      var last := steps[|steps| - 1];
      var p :| Reaches(steps[..|steps| - 1], p) && Enabled(p, last) && s == Next(p, last);
      EventsAreKeyed(steps[..|steps| - 1], p);
      hide ErrorKey;
      if last.Finish? && last.outcome.Failed? {
        assert KeyedByError(ErrorKey(last.kind, last.outcome.message), last.outcome.message);
      }
    }
  }

  /** All failures and reports of one key have the same error: the report of a group carries the message
      of every failure that it closes, and errors with other messages have reports of their own. */
  lemma ReportsCarryTheError(steps: seq<Step>, s: State, i: nat, j: nat)
    requires Reaches(steps, s) && PlainKinds(steps) && i < |s.log| && j < |s.log|
    ensures s.log[i].key == s.log[j].key ==> s.log[i].error == s.log[j].error
  {
    EventsAreKeyed(steps, s);
    var k :| ':' !in k && s.log[i].key == ErrorKey(k, s.log[i].error);
    var l :| ':' !in l && s.log[j].key == ErrorKey(l, s.log[j].error);
    KeysTellFailures(k, s.log[i].error, l, s.log[j].error);
  }
}
