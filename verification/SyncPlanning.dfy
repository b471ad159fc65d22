/** Planning the current season's poll jobs. Instants are microseconds since the epoch; intervals and
    windows are whole seconds, as the configuration gives them. */
module SyncPlanning {
  import opened Wrappers

  const SECOND: nat := 1_000_000

  datatype PollTiming = PollTiming(scheduleInterval: nat, resultInterval: nat, correctionInterval: nat,
                                   correctionWindow: nat)

  const DEFAULT_TIMING := PollTiming(300, 300, 6 * 3600, 7 * 24 * 3600)

  predicate Positive(t: PollTiming) {
    t.scheduleInterval > 0 && t.resultInterval > 0 && t.correctionInterval > 0 && t.correctionWindow > 0
  }

  datatype Status = Cancelled | Postponed | OtherStatus

  datatype Match = Match(code: string, scheduledStart: nat, status: Status, firstFinal: Option<nat>,
                         latestResult: Option<nat>)

  datatype JobKey =
    | ScheduleKey(scope: string, bucket: nat)
    | ResultKey(scope: string, code: string, bucket: nat)
    | CorrectionKey(scope: string, code: string, bucket: nat)

  datatype Job = Job(key: JobKey, due: nat, deadline: nat)

  /** The second at which the instant's bucket starts. */
  function Bucket(now: nat, interval: nat): nat
    requires interval > 0
  {
    now / SECOND / interval * interval
  }

  function LastObserved(m: Match): nat
    requires m.firstFinal.Some?
  {
    if m.latestResult.Some? then m.latestResult.value else m.firstFinal.value
  }

  /** Not yet final, started, and neither cancelled nor postponed. */
  predicate AwaitsResult(m: Match, now: nat) {
    m.firstFinal.None? && m.scheduledStart <= now && m.status != Cancelled && m.status != Postponed
  }

  /** Final, still inside its correction window, and not observed for a correction interval. */
  predicate DueForCorrection(t: PollTiming, m: Match, now: nat) {
    && m.firstFinal.Some? && now < m.firstFinal.value + t.correctionWindow * SECOND
    && LastObserved(m) + t.correctionInterval * SECOND <= now
  }

  function Min(a: nat, b: nat): nat {
    if b < a then b else a
  }

  /** The job a match needs now, if any. */
  function MatchJobs(t: PollTiming, scope: string, m: Match, now: nat): seq<Job>
    requires Positive(t)
  {
    if AwaitsResult(m, now) then
      [Job(ResultKey(scope, m.code, Bucket(now, t.resultInterval)), now, now + t.resultInterval * SECOND)]
    else if DueForCorrection(t, m, now) then
      [Job(CorrectionKey(scope, m.code, Bucket(now, t.correctionInterval)), now,
           Min(m.firstFinal.value + t.correctionWindow * SECOND, now + t.correctionInterval * SECOND))]
    else []
  }

  function AllMatchJobs(t: PollTiming, scope: string, matches: seq<Match>, now: nat): seq<Job>
    requires Positive(t)
  {
    if matches == [] then [] else
      AllMatchJobs(t, scope, matches[..|matches| - 1], now) + MatchJobs(t, scope, matches[|matches| - 1], now)
  }

  /** One schedule poll, and for each match in order the job it needs. */
  method Plan(t: PollTiming, scope: string, matches: seq<Match>, now: nat) returns (jobs: seq<Job>)
    requires Positive(t)
    ensures jobs == [Job(ScheduleKey(scope, Bucket(now, t.scheduleInterval)), now, now + t.scheduleInterval * SECOND)]
                    + AllMatchJobs(t, scope, matches, now)
    ensures IsBucket(jobs[0].key.bucket, now, t.scheduleInterval)
    ensures forall code :: PlansResultFor(jobs[1..], code) <==> AwaitsResultOf(matches, code, now)
  {
    hide Bucket, IsBucket, PlansResultFor, AwaitsResultOf;
    BucketHolds(now, t.scheduleInterval);
    var first := Job(ScheduleKey(scope, Bucket(now, t.scheduleInterval)), now, now + t.scheduleInterval * SECOND);
    jobs := [first];
    for i := 0 to |matches|
      invariant jobs == [first] + AllMatchJobs(t, scope, matches[..i], now)
    {
      var m := matches[i];
      assert matches[..i + 1][..i] == matches[..i];
      if m.firstFinal.None? {
        if m.scheduledStart <= now && m.status !in {Cancelled, Postponed} {
          var bucket := Bucket(now, t.resultInterval);
          jobs := jobs + [Job(ResultKey(scope, m.code, bucket), now, now + t.resultInterval * SECOND)];
        }
        continue;
      }
      var windowEnd := m.firstFinal.value + t.correctionWindow * SECOND;
      var lastObserved := if m.latestResult.Some? then m.latestResult.value else m.firstFinal.value;
      if now < windowEnd && lastObserved + t.correctionInterval * SECOND <= now {
        var bucket := Bucket(now, t.correctionInterval);
        jobs := jobs + [Job(CorrectionKey(scope, m.code, bucket), now,
                            Min(windowEnd, now + t.correctionInterval * SECOND))];
      }
    }
    assert matches[..|matches|] == matches;
    assert jobs[1..] == AllMatchJobs(t, scope, matches, now);
    forall code
      ensures PlansResultFor(jobs[1..], code) <==> AwaitsResultOf(matches, code, now)
    {
      ResultPolledIff(t, scope, matches, now, code);
    }
  }

  // ---- The jobs in columns ----

  /** The bucket that holds the instant: it starts at a multiple of the interval and lasts one interval. */
  predicate IsBucket(bucket: nat, now: nat, interval: nat) {
    interval > 0 && bucket % interval == 0 && bucket * SECOND <= now < (bucket + interval) * SECOND
  }

  lemma BucketHolds(now: nat, interval: nat)
    requires interval > 0
    ensures IsBucket(Bucket(now, interval), now, interval)
  {
    var s := now / SECOND;
    Quotient(now, SECOND);
    Quotient(s, interval);
    assert s / interval * interval % interval == 0 by { MultipleHasNoRest(s / interval, interval); }
    LessTimes(Bucket(now, interval), s, SECOND);
    LessTimes(s + 1, Bucket(now, interval) + interval, SECOND);
  }

  lemma MultipleHasNoRest(a: nat, b: nat)
    requires b > 0
    ensures a * b % b == 0
  {
    var n := a * b;
    Quotient(n, b);
    if n / b < a {
      LessTimes(n / b + 1, a, b);
    }
    assert n % b == n - n / b * b;
  }

  lemma MultiplesApart(a: nat, b: nat, interval: nat)
    requires interval > 0 && a % interval == 0 && b % interval == 0 && a < b
    ensures a + interval <= b
  {
    var p, q := a / interval, b / interval;
    Quotient(a, interval);
    Quotient(b, interval);
    assert a == p * interval && b == q * interval;
    if q <= p {
      LessTimes(q, p, interval);
    }
    LessTimes(p + 1, q, interval);
  }

  lemma OneBucket(a: nat, b: nat, now: nat, interval: nat)
    requires IsBucket(a, now, interval) && IsBucket(b, now, interval)
    ensures a == b
  {
    if a < b {
      MultiplesApart(a, b, interval);
    } else if b < a {
      MultiplesApart(b, a, interval);
    }
  }

  /** The match has started, has no final result yet, and is neither cancelled nor postponed; the job's key
      is the match's in the bucket of this instant, and it is due for one result interval. */
  predicate IsResultJob(t: PollTiming, scope: string, m: Match, now: nat, job: Job) {
    && m.firstFinal == None && m.scheduledStart <= now && m.status == OtherStatus
    && job.key.ResultKey? && job.key.scope == scope && job.key.code == m.code
    && IsBucket(job.key.bucket, now, t.resultInterval)
    && job.due == now && job.deadline == now + t.resultInterval * SECOND
  }

  /** The match has a final result, its correction window is open, and its latest result is at least a
      correction interval old; the job ends with the interval or the window. */
  predicate IsCorrectionJob(t: PollTiming, scope: string, m: Match, now: nat, job: Job) {
    && m.firstFinal.Some? && now < m.firstFinal.value + t.correctionWindow * SECOND
    && (if m.latestResult.Some? then m.latestResult.value + t.correctionInterval * SECOND <= now
        else m.firstFinal.value + t.correctionInterval * SECOND <= now)
    && job.key.CorrectionKey? && job.key.scope == scope && job.key.code == m.code
    && IsBucket(job.key.bucket, now, t.correctionInterval)
    && job.due == now
    && (job.deadline == m.firstFinal.value + t.correctionWindow * SECOND
        || job.deadline == now + t.correctionInterval * SECOND)
    && job.deadline <= m.firstFinal.value + t.correctionWindow * SECOND
    && job.deadline <= now + t.correctionInterval * SECOND
  }

  lemma MatchJobInColumns(t: PollTiming, scope: string, m: Match, now: nat, job: Job)
    requires Positive(t)
    ensures job in MatchJobs(t, scope, m, now) <==>
            IsResultJob(t, scope, m, now, job) || IsCorrectionJob(t, scope, m, now, job)
  {
    hide Bucket, IsBucket;
    BucketHolds(now, t.resultInterval);
    BucketHolds(now, t.correctionInterval);
    if IsResultJob(t, scope, m, now, job) {
      OneBucket(job.key.bucket, Bucket(now, t.resultInterval), now, t.resultInterval);
    }
    if IsCorrectionJob(t, scope, m, now, job) {
      OneBucket(job.key.bucket, Bucket(now, t.correctionInterval), now, t.correctionInterval);
    }
  }

  /** The planned jobs beside the schedule poll are exactly the result jobs of the matches that await a
      result and the correction jobs of those that are due for one. */
  lemma {:induction false} JobsInColumns(t: PollTiming, scope: string, matches: seq<Match>, now: nat, job: Job)
    requires Positive(t)
    ensures job in AllMatchJobs(t, scope, matches, now) <==>
            exists i :: 0 <= i < |matches| && (IsResultJob(t, scope, matches[i], now, job)
                                              || IsCorrectionJob(t, scope, matches[i], now, job))
  {
    hide MatchJobs, IsResultJob, IsCorrectionJob;
    if matches != [] {
      var n := |matches| - 1;
      JobsInColumns(t, scope, matches[..n], now, job);
      MatchJobInColumns(t, scope, matches[n], now, job);
      assert matches == matches[..n] + [matches[n]];
    }
  }

  predicate PlansResultFor(jobs: seq<Job>, code: string) {
    exists i :: 0 <= i < |jobs| && jobs[i].key.ResultKey? && jobs[i].key.code == code
  }

  predicate AwaitsResultOf(matches: seq<Match>, code: string, now: nat) {
    exists i :: 0 <= i < |matches| && matches[i].code == code && matches[i].firstFinal == None
                && matches[i].scheduledStart <= now && matches[i].status == OtherStatus
  }

  /** A result is polled for a match exactly while it has started, has no final result, and is neither
      cancelled nor postponed. */
  lemma ResultPolledIff(t: PollTiming, scope: string, matches: seq<Match>, now: nat, code: string)
    requires Positive(t)
    ensures PlansResultFor(AllMatchJobs(t, scope, matches, now), code) <==> AwaitsResultOf(matches, code, now)
  {
    hide IsBucket;
    var jobs := AllMatchJobs(t, scope, matches, now);
    if PlansResultFor(jobs, code) {
      var i :| 0 <= i < |jobs| && jobs[i].key.ResultKey? && jobs[i].key.code == code;
      JobsInColumns(t, scope, matches, now, jobs[i]);
    }
    if AwaitsResultOf(matches, code, now) {
      var i :| 0 <= i < |matches| && matches[i].code == code && matches[i].firstFinal == None
               && matches[i].scheduledStart <= now && matches[i].status == OtherStatus;
      var job := Job(ResultKey(scope, code, Bucket(now, t.resultInterval)), now, now + t.resultInterval * SECOND);
      BucketHolds(now, t.resultInterval);
      assert IsResultJob(t, scope, matches[i], now, job);
      JobsInColumns(t, scope, matches, now, job);
      var k :| 0 <= k < |jobs| && jobs[k] == job;
    }
  }

  /** Ticks throughout the wait plan one key for each result interval: two of them the same key exactly
      when one bucket holds both. */
  lemma OneResultKeyPerInterval(t: PollTiming, scope: string, m: Match, a: nat, b: nat, x: Job, y: Job)
    requires Positive(t) && IsResultJob(t, scope, m, a, x) && IsResultJob(t, scope, m, b, y)
    ensures x.key == y.key <==> IsBucket(x.key.bucket, b, t.resultInterval)
    ensures a + t.resultInterval * SECOND <= b ==> x.key != y.key
  {
    if IsBucket(x.key.bucket, b, t.resultInterval) {
      OneBucket(x.key.bucket, y.key.bucket, b, t.resultInterval);
    }
  }

  // ---- One match over any set of ticks ----

  /** One planning run, as far as one match is concerned: when, and the latest result known by then. */
  datatype Tick = Tick(now: nat, latestResult: Option<nat>)

  /** The match as a tick sees it; a result is never older than the first final one. */
  predicate Seen(firstFinal: nat, tick: Tick) {
    tick.latestResult.Some? ==> firstFinal <= tick.latestResult.value
  }

  function MatchAt(m: Match, firstFinal: nat, tick: Tick): Match {
    m.(firstFinal := Some(firstFinal), latestResult := tick.latestResult)
  }

  /** The correction keys all the ticks plan for the match. */
  function CorrectionKeys(t: PollTiming, scope: string, m: Match, firstFinal: nat, ticks: set<Tick>): set<JobKey>
    requires Positive(t)
  {
    set tick, job | tick in ticks && job in MatchJobs(t, scope, MatchAt(m, firstFinal, tick), tick.now) :: job.key
  }

  /** A final match is planned for nothing but corrections, only between one interval after its first
      final result and the end of its window, and its key is the tick's bucket. */
  lemma CorrectionsLieInTheWindow(t: PollTiming, scope: string, m: Match, firstFinal: nat, tick: Tick, job: Job)
    requires Positive(t) && Seen(firstFinal, tick)
    requires job in MatchJobs(t, scope, MatchAt(m, firstFinal, tick), tick.now)
    ensures job.key == CorrectionKey(scope, m.code, Bucket(tick.now, t.correctionInterval))
    ensures firstFinal + t.correctionInterval * SECOND <= tick.now < firstFinal + t.correctionWindow * SECOND
    ensures job.due == tick.now < job.deadline <= firstFinal + t.correctionWindow * SECOND
  {
    hide Bucket;
  }

  function CeilingDiv(a: nat, b: nat): nat
    requires b > 0
  {
    (a + b - 1) / b
  }

  lemma Quotient(a: nat, b: nat)
    requires b > 0
    ensures a / b * b <= a < a / b * b + b
  {
  }

  lemma SecondsOf(now: nat, from: nat, seconds: nat)
    ensures from + seconds * SECOND <= now ==> from / SECOND + seconds <= now / SECOND
    ensures now < from + seconds * SECOND ==> now / SECOND <= from / SECOND + seconds
  {
  }

  lemma LessTimes(a: nat, b: nat, c: nat)
    requires a <= b
    ensures a * c <= b * c
  {
  }

  lemma MultiplesInWindow(f: nat, s: nat, interval: nat, window: nat, q: nat, b: nat, c: nat)
    requires q * interval <= f < q * interval + interval && b * interval <= s < b * interval + interval
    requires window <= c * interval && f + interval <= s <= f + window
    ensures q < b <= q + c
  {
    assert (q + c + 1) * interval == q * interval + c * interval + interval;
    if b <= q {
      LessTimes(b, q, interval);
      assert false;
    }
    if b > q + c {
      LessTimes(q + c + 1, b, interval);
      assert false;
    }
  }

  lemma CeilingCovers(a: nat, b: nat)
    requires b > 0
    ensures a <= CeilingDiv(a, b) * b
  {
    Quotient(a + b - 1, b);
  }

  /** Instants between one interval and one window after `from` fall into the buckets after the one of
      `from`, no more of them than intervals cover the window. */
  lemma BucketsInWindow(now: nat, from: nat, interval: nat, window: nat)
    requires interval > 0 && from + interval * SECOND <= now < from + window * SECOND
    ensures var q := from / SECOND / interval;
            q < now / SECOND / interval <= q + CeilingDiv(window, interval)
  {
    hide CeilingDiv;
    SecondsOf(now, from, interval);
    SecondsOf(now, from, window);
    var f, s := from / SECOND, now / SECOND;
    Quotient(f, interval);
    Quotient(s, interval);
    CeilingCovers(window, interval);
    MultiplesInWindow(f, s, interval, window, f / interval, s / interval, CeilingDiv(window, interval));
  }

  predicate InRange(scope: string, code: string, interval: nat, low: nat, n: nat, key: JobKey) {
    exists b: nat :: low < b <= low + n && key == CorrectionKey(scope, code, b * interval)
  }

  /** Keys of one match whose bucket numbers lie above `low` and up to `low + n` are at most n. */
  lemma {:induction false} FewKeys(scope: string, code: string, interval: nat, low: nat, n: nat, keys: set<JobKey>)
    requires forall k :: k in keys ==> InRange(scope, code, interval, low, n, k)
    ensures |keys| <= n
    decreases n
  {
    if n == 0 {
      assert forall k :: k !in keys;
    } else {
      var top := CorrectionKey(scope, code, (low + n) * interval);
      var rest := keys - {top};
      forall k | k in rest
        ensures InRange(scope, code, interval, low, n - 1, k)
      {
        var b: nat :| low < b <= low + n && k == CorrectionKey(scope, code, b * interval);
        assert b != low + n;
      }
      FewKeys(scope, code, interval, low, n - 1, rest);
      assert keys <= rest + {top};
      assert |keys| <= |rest + {top}|  by { SubsetIsSmaller(keys, rest + {top}); }
    }
  }

  lemma {:induction false} SubsetIsSmaller(a: set<JobKey>, b: set<JobKey>)
    requires a <= b
    ensures |a| <= |b|
  {
    if a != {} {
      var x :| x in a;
      SubsetIsSmaller(a - {x}, b - {x});
    }
  }

  /** However often the planner runs, it makes no more distinct correction jobs for one match than
      correction intervals cover the window: 28 under the default timing. */
  lemma CorrectionKeysAreBounded(t: PollTiming, scope: string, m: Match, firstFinal: nat, ticks: set<Tick>)
    requires Positive(t) && forall tick :: tick in ticks ==> Seen(firstFinal, tick)
    ensures |CorrectionKeys(t, scope, m, firstFinal, ticks)| <= CeilingDiv(t.correctionWindow, t.correctionInterval)
    ensures t == DEFAULT_TIMING ==> |CorrectionKeys(t, scope, m, firstFinal, ticks)| <= 28
  {
    hide MatchJobs, CeilingDiv, Seen;
    var keys := CorrectionKeys(t, scope, m, firstFinal, ticks);
    var low := firstFinal / SECOND / t.correctionInterval;
    var n := CeilingDiv(t.correctionWindow, t.correctionInterval);
    forall k | k in keys
      ensures InRange(scope, m.code, t.correctionInterval, low, n, k)
    {
      var tick, job :| tick in ticks && job in MatchJobs(t, scope, MatchAt(m, firstFinal, tick), tick.now)
                        && job.key == k;
      KeyInRange(t, scope, m, firstFinal, tick, job);
    }
    FewKeys(scope, m.code, t.correctionInterval, low, n, keys);
    DefaultBound();
  }

  lemma KeyInRange(t: PollTiming, scope: string, m: Match, firstFinal: nat, tick: Tick, job: Job)
    requires Positive(t) && Seen(firstFinal, tick)
    requires job in MatchJobs(t, scope, MatchAt(m, firstFinal, tick), tick.now)
    ensures InRange(scope, m.code, t.correctionInterval, firstFinal / SECOND / t.correctionInterval,
                    CeilingDiv(t.correctionWindow, t.correctionInterval), job.key)
  {
    hide MatchJobs, CeilingDiv, Seen;
    CorrectionsLieInTheWindow(t, scope, m, firstFinal, tick, job);
    BucketsInWindow(tick.now, firstFinal, t.correctionInterval, t.correctionWindow);
    var b := tick.now / SECOND / t.correctionInterval;
    assert job.key == CorrectionKey(scope, m.code, b * t.correctionInterval);
  }

  lemma DefaultBound()
    ensures CeilingDiv(DEFAULT_TIMING.correctionWindow, DEFAULT_TIMING.correctionInterval) == 28
  {
  }

  /** Two ticks plan the same correction key exactly when they fall into the same bucket. */
  lemma SameKeyIffSameBucket(t: PollTiming, scope: string, m: Match, firstFinal: nat, a: Tick, b: Tick, x: Job, y: Job)
    requires Positive(t) && Seen(firstFinal, a) && Seen(firstFinal, b)
    requires x in MatchJobs(t, scope, MatchAt(m, firstFinal, a), a.now)
    requires y in MatchJobs(t, scope, MatchAt(m, firstFinal, b), b.now)
    ensures x.key == y.key <==> a.now / SECOND / t.correctionInterval == b.now / SECOND / t.correctionInterval
  {
    hide MatchJobs;
    CorrectionsLieInTheWindow(t, scope, m, firstFinal, a, x);
    CorrectionsLieInTheWindow(t, scope, m, firstFinal, b, y);
    var p, q := a.now / SECOND / t.correctionInterval, b.now / SECOND / t.correctionInterval;
    if p < q {
      LessTimes(p + 1, q, t.correctionInterval);
    } else if q < p {
      LessTimes(q + 1, p, t.correctionInterval);
    }
  }

  /** The bound is reached: each of these 28 ticks, none with a newer result, plans a key of its own. */
  lemma DefaultBoundIsReached(scope: string, code: string, k: nat)
    requires 1 <= k <= 28
    ensures var m := Match(code, 0, OtherStatus, None, None);
            var first: nat := (6 * 3600 - 1) * SECOND;
            var tick := Tick(if k == 1 then first + 6 * 3600 * SECOND else k * 6 * 3600 * SECOND, None);
            CorrectionKey(scope, code, k * 6 * 3600) in CorrectionKeys(DEFAULT_TIMING, scope, m, first, {tick})
  {
    var m := Match(code, 0, OtherStatus, None, None);
    var first: nat := (6 * 3600 - 1) * SECOND;
    var tick := Tick(if k == 1 then first + 6 * 3600 * SECOND else k * 6 * 3600 * SECOND, None);
    var seen := MatchAt(m, first, tick);
    assert DueForCorrection(DEFAULT_TIMING, seen, tick.now);
    assert Bucket(tick.now, 6 * 3600) == k * 6 * 3600;
    var jobs := MatchJobs(DEFAULT_TIMING, scope, seen, tick.now);
    assert jobs[0] in jobs && jobs[0].key == CorrectionKey(scope, code, k * 6 * 3600);
  }
}
