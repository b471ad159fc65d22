/** Strict T-60 publication: the stored rows, the transactions of every prediction run, and what holds in
    all interleavings of them with schedule changes and lease changes. */
module Publication {
  import opened Wrappers
  import opened Timing

  datatype Revision = Revision(id: nat, scheduled: real, actual: Option<real>, live: bool)

  datatype JobState = Queued | RetryWait | InProgress | Succeeded | Failed | Expired | Cancelled

  datatype Job = Job(state: JobState, owner: Option<nat>, leaseUntil: real, deadline: Option<real>)

  /** The leased job as the worker received it. `binding` is the variant the orchestrator has a runner for. */
  datatype Ticket = Ticket(job: nat, owner: nat, attemptNo: nat, matchId: nat, revision: nat, cutoff: real,
                           variant: nat, binding: nat, stage: nat)

  datatype AttemptStatus = AttemptSucceeded | AttemptFailed | AttemptSkipped | AttemptLate

  /** `run` names the execution that wrote the row; the stored row has no such column. */
  datatype AttemptRow = AttemptRow(run: nat, job: nat, variant: nat, started: real, completed: real,
                                   status: AttemptStatus)

  /** There is one snapshot for each revision and cutoff. */
  datatype Key = Key(matchId: nat, revision: nat, cutoff: real, variant: nat, stage: nat)

  datatype Prediction = Prediction(run: nat, job: nat, revision: nat, started: real, completed: real, digest: nat)

  /** What the model call came to; a digest stands for the output's canonical bytes. */
  datatype Result = Output(digest: nat, valid: bool) | NoOutput(skipped: bool, retryable: bool)

  datatype Problem = ScheduleGone | CutoffNotReached | DeadlineExpired | NotLive | BadTicket | InvalidOutput | Conflict

  datatype Outcome =
    | Raised(problem: Problem)
    | AlreadyStored
    | StartTooLate(windowExpired: bool)
    | ModelFailed(retryable: bool)
    | LateResponse
    | LostLease
    | Published(created: bool)
    | Crashed

  /** Where an execution stands between its transactions. */
  datatype Progress =
    | Loaded(t: Ticket, schedule: Revision)
    | Frozen(t: Ticket, schedule: Revision)
    | Ready(t: Ticket, schedule: Revision, prior: bool)
    | Running(t: Ticket, schedule: Revision, started: real)
    | Finished(t: Ticket, schedule: Revision, started: real, completed: real, digest: nat)
    | Unpublished(t: Ticket, schedule: Revision, started: real, completed: real)
    | Done(outcome: Outcome)

  datatype State = State(revisions: map<nat, seq<Revision>>, jobs: map<nat, Job>, attempts: seq<AttemptRow>,
                         predictions: map<Key, Prediction>, runs: map<nat, Progress>)

  datatype Step =
    | AddRevision(matchId: nat, revision: Revision)
    | SetJob(job: nat, row: Job)
    | Load(run: nat, ticket: Ticket)
    | Freeze(run: nat, now: real)
    | Check(run: nat)
    | Start(run: nat, at: real)
    | Complete(run: nat, at: real, result: Result)
    | Publish(run: nat)
    | RecordLost(run: nat)
    | Crash(run: nat)

  const EMPTY := State(map[], map[], [], map[], map[])

  // ---- Queries ----

  function RevisionsOf(revisions: map<nat, seq<Revision>>, m: nat): seq<Revision> {
    if m in revisions then revisions[m] else []
  }

  /** The ticket's revision, if it is the match's latest and the ticket's cutoff is still its own. */
  function LoadSchedule(cfg: Settings, revisions: map<nat, seq<Revision>>, t: Ticket): Option<Revision> {
    var rows := RevisionsOf(revisions, t.matchId);
    if rows == [] then None else
      var latest := rows[|rows| - 1];
      if latest.id == t.revision && t.cutoff == latest.scheduled - cfg.cutoff then Some(latest) else None
  }

  predicate HoldsLease(jobs: map<nat, Job>, t: Ticket, now: real) {
    && t.job in jobs && jobs[t.job].state == InProgress && jobs[t.job].owner == Some(t.owner)
    && jobs[t.job].leaseUntil > now
  }

  function Publishable(cfg: Settings, s: State, t: Ticket, completed: real): Option<Revision> {
    if !HoldsLease(s.jobs, t, completed) then None else
      var schedule := LoadSchedule(cfg, s.revisions, t);
      if schedule.None? || !schedule.value.live then None
      else if !CompletionIsOnTime(cfg, completed, schedule.value.scheduled, schedule.value.actual) then None
      else schedule
  }

  function FinishedJob(job: Job, completed: real): Job {
    var late := job.deadline.Some? && job.deadline.value <= completed;
    job.(state := if late then Expired else Succeeded, owner := None)
  }

  function KeyOf(t: Ticket): Key {
    Key(t.matchId, t.revision, t.cutoff, t.variant, t.stage)
  }

  predicate ProvesStart(cfg: Settings, a: AttemptRow, t: Ticket, schedule: Revision) {
    && a.job == t.job && a.variant == t.variant && StartIsOnTime(cfg, a.started, schedule.scheduled)
    && a.status != AttemptSkipped
  }

  predicate PriorStart(cfg: Settings, attempts: seq<AttemptRow>, t: Ticket, schedule: Revision) {
    exists a :: a in attempts && ProvesStart(cfg, a, t, schedule)
  }

  function RowOf(run: nat, t: Ticket, started: real, completed: real, status: AttemptStatus): AttemptRow {
    AttemptRow(run, t.job, t.variant, started, completed, status)
  }

  // ---- Transactions of one execution ----

  function Loading(cfg: Settings, s: State, t: Ticket): Progress {
    var schedule := LoadSchedule(cfg, s.revisions, t);
    if schedule.None? then Done(Raised(ScheduleGone)) else Loaded(t, schedule.value)
  }

  function Freezing(cfg: Settings, s: State, t: Ticket, schedule: Revision, now: real): Progress {
    var current := LoadSchedule(cfg, s.revisions, t);
    if current.None? then Done(Raised(ScheduleGone))
    else if now < current.value.scheduled - cfg.cutoff then Done(Raised(CutoffNotReached))
    else if now >= DeadlineAt(cfg, current.value.scheduled, current.value.actual) then Done(Raised(DeadlineExpired))
    else if !current.value.live then Done(Raised(NotLive))
    else if t.variant != t.binding || t.attemptNo == 0 then Done(Raised(BadTicket))
    else Frozen(t, schedule)
  }

  function Checking(cfg: Settings, s: State, t: Ticket, schedule: Revision): Progress {
    if KeyOf(t) in s.predictions then Done(AlreadyStored)
    else Ready(t, schedule, t.attemptNo > 1 && PriorStart(cfg, s.attempts, t, schedule))
  }

  function Starting(cfg: Settings, t: Ticket, schedule: Revision, prior: bool, at: real): Progress {
    var deadline := DeadlineAt(cfg, schedule.scheduled, schedule.actual);
    if StartIsOnTime(cfg, at, schedule.scheduled) || (t.attemptNo > 1 && prior && at < deadline)
    then Running(t, schedule, at)
    else Done(StartTooLate(at < deadline && (t.attemptNo == 1 || !prior)))
  }

  function Completing(cfg: Settings, s: State, run: nat, t: Ticket, schedule: Revision, started: real, at: real,
                      result: Result): State {
    match result
    case NoOutput(skipped, retryable) =>
      s.(attempts := s.attempts + [RowOf(run, t, started, at, if skipped then AttemptSkipped else AttemptFailed)],
         runs := s.runs[run := Done(ModelFailed(retryable))])
    case Output(digest, valid) =>
      if !CompletionIsOnTime(cfg, at, schedule.scheduled, schedule.actual) then
        s.(attempts := s.attempts + [RowOf(run, t, started, at, AttemptLate)],
           runs := s.runs[run := Done(LateResponse)])
      else
        s.(runs := s.runs[run := if valid then Finished(t, schedule, started, at, digest)
                                 else Done(Raised(InvalidOutput))])
  }

  function Publishing(cfg: Settings, s: State, run: nat, p: Progress): State
    requires p.Finished?
  {
    var key := KeyOf(p.t);
    if Publishable(cfg, s, p.t, p.completed).None? then
      s.(runs := s.runs[run := Unpublished(p.t, p.schedule, p.started, p.completed)])
    else if key in s.predictions && s.predictions[key].digest != p.digest then
      s.(runs := s.runs[run := Done(Raised(Conflict))])
    else
      var row := RowOf(run, p.t, p.started, p.completed, AttemptSucceeded);
      var made := Prediction(run, p.t.job, p.t.revision, p.started, p.completed, p.digest);
      State(s.revisions, s.jobs[p.t.job := FinishedJob(s.jobs[p.t.job], p.completed)], s.attempts + [row],
            if key in s.predictions then s.predictions else s.predictions[key := made],
            s.runs[run := Done(Published(key !in s.predictions))])
  }

  /** A step of an execution that has begun. */
  predicate IsMove(step: Step) {
    || step.Freeze? || step.Check? || step.Start? || step.Complete? || step.Publish? || step.RecordLost? || step.Crash?
  }

  function Moved(cfg: Settings, s: State, p: Progress, step: Step): State
    requires IsMove(step)
  {
    var e := step.run;
    match p
    case Done(_) => s
    case _ =>
      if step.Crash? then s.(runs := s.runs[e := Done(Crashed)])
      else if step.Freeze? && p.Loaded? then s.(runs := s.runs[e := Freezing(cfg, s, p.t, p.schedule, step.now)])
      else if step.Check? && p.Frozen? then s.(runs := s.runs[e := Checking(cfg, s, p.t, p.schedule)])
      else if step.Start? && p.Ready? then s.(runs := s.runs[e := Starting(cfg, p.t, p.schedule, p.prior, step.at)])
      else if step.Complete? && p.Running? then Completing(cfg, s, e, p.t, p.schedule, p.started, step.at, step.result)
      else if step.Publish? && p.Finished? then Publishing(cfg, s, e, p)
      else if step.RecordLost? && p.Unpublished? then
        s.(attempts := s.attempts + [RowOf(e, p.t, p.started, p.completed, AttemptLate)],
           runs := s.runs[e := Done(LostLease)])
      else s
  }

  predicate HasId(rows: seq<Revision>, id: nat) {
    exists r :: r in rows && r.id == id
  }

  function Apply(cfg: Settings, s: State, step: Step): State {
    match step
    case AddRevision(m, r) =>
      if HasId(RevisionsOf(s.revisions, m), r.id) then s
      else s.(revisions := s.revisions[m := RevisionsOf(s.revisions, m) + [r]])
    case SetJob(j, row) => s.(jobs := s.jobs[j := row])
    case Load(e, t) => if e in s.runs then s else s.(runs := s.runs[e := Loading(cfg, s, t)])
    case _ => if step.run !in s.runs then s else Moved(cfg, s, s.runs[step.run], step)
  }

  function Run(cfg: Settings, steps: seq<Step>): State {
    if steps == [] then EMPTY else Apply(cfg, Run(cfg, steps[..|steps| - 1]), steps[|steps| - 1])
  }

  // ---- The invariant ----

  predicate UniqueIds(rows: seq<Revision>) {
    forall i, j :: 0 <= i < j < |rows| ==> rows[i].id != rows[j].id
  }

  /** The schedule an execution works with is the stored revision its ticket names. */
  predicate ScheduleOk(cfg: Settings, revisions: map<nat, seq<Revision>>, t: Ticket, schedule: Revision) {
    && schedule in RevisionsOf(revisions, t.matchId) && schedule.id == t.revision
    && t.cutoff == schedule.scheduled - cfg.cutoff
  }

  /** Started in the window, or as a retry of an attempt that did and before the deadline. */
  predicate StartOk(cfg: Settings, attempts: seq<AttemptRow>, t: Ticket, schedule: Revision, started: real) {
    || StartIsOnTime(cfg, started, schedule.scheduled)
    || (t.attemptNo > 1 && PriorStart(cfg, attempts, t, schedule)
        && started < DeadlineAt(cfg, schedule.scheduled, schedule.actual))
  }

  predicate ProgressOk(cfg: Settings, s: State, p: Progress) {
    match p
    case Done(_) => true
    case Loaded(t, schedule) => ScheduleOk(cfg, s.revisions, t, schedule)
    case Frozen(t, schedule) => ScheduleOk(cfg, s.revisions, t, schedule)
    case Ready(t, schedule, prior) =>
      ScheduleOk(cfg, s.revisions, t, schedule) && (prior ==> PriorStart(cfg, s.attempts, t, schedule))
    case Running(t, schedule, started) =>
      ScheduleOk(cfg, s.revisions, t, schedule) && StartOk(cfg, s.attempts, t, schedule, started)
    case Finished(t, schedule, started, completed, _) =>
      && ScheduleOk(cfg, s.revisions, t, schedule) && StartOk(cfg, s.attempts, t, schedule, started)
      && CompletionIsOnTime(cfg, completed, schedule.scheduled, schedule.actual)
    case Unpublished(t, schedule, started, completed) =>
      ScheduleOk(cfg, s.revisions, t, schedule) && StartOk(cfg, s.attempts, t, schedule, started)
  }

  function CountBy(attempts: seq<AttemptRow>, run: nat): nat {
    if attempts == [] then 0
    else CountBy(attempts[..|attempts| - 1], run) + if attempts[|attempts| - 1].run == run then 1 else 0
  }

  /** The outcomes of executions that ran a model and returned. */
  predicate RanAndReturned(o: Outcome) {
    o.ModelFailed? || o.LateResponse? || o.LostLease? || o.Published?
  }

  function RowsDue(runs: map<nat, Progress>, e: nat): nat {
    if e in runs && runs[e].Done? && RanAndReturned(runs[e].outcome) then 1 else 0
  }

  ghost predicate Inv(cfg: Settings, s: State) {
    && (forall m :: m in s.revisions ==> UniqueIds(s.revisions[m]))
    && (forall e :: e in s.runs ==> ProgressOk(cfg, s, s.runs[e]))
    && forall e: nat :: CountBy(s.attempts, e) == RowsDue(s.runs, e)
  }

  /** Revisions and attempts are only ever added, and a stored prediction never changes. */
  ghost predicate Extends(s: State, s': State) {
    && (forall m :: m in s.revisions ==> m in s'.revisions && s.revisions[m] <= s'.revisions[m])
    && s.attempts <= s'.attempts
    && forall k :: k in s.predictions ==> k in s'.predictions && s'.predictions[k] == s.predictions[k]
  }

  lemma StaysOk(cfg: Settings, s: State, s': State, p: Progress)
    requires Extends(s, s') && ProgressOk(cfg, s, p)
    ensures ProgressOk(cfg, s', p)
  {
    if !p.Done? {
      ScheduleStays(cfg, s, s', p.t, p.schedule);
      PriorStays(cfg, s, s', p.t, p.schedule);
    }
  }

  lemma ScheduleStays(cfg: Settings, s: State, s': State, t: Ticket, schedule: Revision)
    requires Extends(s, s')
    ensures ScheduleOk(cfg, s.revisions, t, schedule) ==> ScheduleOk(cfg, s'.revisions, t, schedule)
  {
  }

  lemma PriorStays(cfg: Settings, s: State, s': State, t: Ticket, schedule: Revision)
    requires Extends(s, s')
    ensures PriorStart(cfg, s.attempts, t, schedule) ==> PriorStart(cfg, s'.attempts, t, schedule)
  {
    if PriorStart(cfg, s.attempts, t, schedule) {
      var a :| a in s.attempts && ProvesStart(cfg, a, t, schedule);
      assert a in s'.attempts;
    }
  }

  lemma LoadedIsOk(cfg: Settings, revisions: map<nat, seq<Revision>>, t: Ticket)
    requires LoadSchedule(cfg, revisions, t).Some?
    ensures ScheduleOk(cfg, revisions, t, LoadSchedule(cfg, revisions, t).value)
  {
  }

  lemma CountAfter(attempts: seq<AttemptRow>, row: AttemptRow, e: nat)
    ensures CountBy(attempts + [row], e) == CountBy(attempts, e) + if row.run == e then 1 else 0
  {
    assert (attempts + [row])[..|attempts|] == attempts;
  }

  /** The new progress of the execution that moved is sound. */
  lemma MovedIsOk(cfg: Settings, s: State, step: Step)
    requires Inv(cfg, s) && IsMove(step)
    requires step.run in s.runs
    ensures var s' := Moved(cfg, s, s.runs[step.run], step);
            step.run in s'.runs && ProgressOk(cfg, s.(attempts := s'.attempts), s'.runs[step.run])
  {
    hide ScheduleOk, CountBy, LoadSchedule, DeadlineAt, CompletionIsOnTime, ProvesStart, KeyOf, HoldsLease, Publishable,
         RowsDue, UniqueIds, StartIsOnTime;
    var s' := Moved(cfg, s, s.runs[step.run], step);
    var p := s.runs[step.run];
    assert ProgressOk(cfg, s, p);
    if !p.Done? {
      PriorStays(cfg, s, s.(attempts := s'.attempts), p.t, p.schedule);
    }
  }

  /** A run's step touches only its own progress, adds at most one attempt row and replaces no prediction. */
  ghost predicate Touches(s: State, s': State, run: nat) {
    && s'.revisions == s.revisions
    && run in s'.runs && s'.runs == s.runs[run := s'.runs[run]]
    && s.attempts <= s'.attempts && |s'.attempts| <= |s.attempts| + 1
    && forall k :: k in s.predictions ==> k in s'.predictions && s'.predictions[k] == s.predictions[k]
  }

  lemma PublishingTouches(cfg: Settings, s: State, run: nat, p: Progress)
    requires p.Finished? && run in s.runs
    ensures Touches(s, Publishing(cfg, s, run, p), run)
  {
    hide KeyOf, Publishable;
  }

  lemma MovedTouches(cfg: Settings, s: State, step: Step)
    requires IsMove(step)
    requires step.run in s.runs
    ensures Touches(s, Moved(cfg, s, s.runs[step.run], step), step.run)
  {
    hide LoadSchedule, DeadlineAt, CompletionIsOnTime, PriorStart, Publishing, Freezing, Checking, Starting;
    if s.runs[step.run].Finished? {
      PublishingTouches(cfg, s, step.run, s.runs[step.run]);
    }
  }

  lemma MovedExtends(cfg: Settings, s: State, step: Step)
    requires IsMove(step)
    requires step.run in s.runs
    ensures var s' := Moved(cfg, s, s.runs[step.run], step);
            Extends(s, s') && s'.revisions == s.revisions
            && (forall e :: e in s'.runs <==> e in s.runs)
            && (forall e :: e in s.runs && e != step.run ==> s'.runs[e] == s.runs[e])
  {
    hide Moved;
    MovedTouches(cfg, s, step);
  }

  lemma MovedCounts(cfg: Settings, s: State, step: Step, e: nat)
    requires Inv(cfg, s) && IsMove(step)
    requires step.run in s.runs
    ensures var s' := Moved(cfg, s, s.runs[step.run], step); CountBy(s'.attempts, e) == RowsDue(s'.runs, e)
  {
    hide LoadSchedule, DeadlineAt, CompletionIsOnTime, PriorStart, KeyOf, HoldsLease, Publishable, CountBy, ProgressOk,
         UniqueIds;
    var s' := Moved(cfg, s, s.runs[step.run], step);
    assert CountBy(s.attempts, e) == RowsDue(s.runs, e);
    if |s'.attempts| == |s.attempts| + 1 {
      CountAfter(s.attempts, s'.attempts[|s.attempts|], e);
      assert s'.attempts == s.attempts + [s'.attempts[|s.attempts|]];
    }
  }

  lemma AddedIsUnique(rows: seq<Revision>, r: Revision)
    requires UniqueIds(rows) && !HasId(rows, r.id)
    ensures UniqueIds(rows + [r])
  {
    forall i | 0 <= i < |rows|
      ensures rows[i].id != r.id
    {
      assert rows[i] in rows;
    }
  }

  lemma StepKeepsInv(cfg: Settings, s: State, step: Step)
    requires Inv(cfg, s)
    ensures Inv(cfg, Apply(cfg, s, step)) && Extends(s, Apply(cfg, s, step))
  {
    hide Moved, Loading, LoadSchedule, CountBy, ProgressOk, UniqueIds, HasId;
    var s' := Apply(cfg, s, step);
    match step {
      case AddRevision(m, r) =>
        if !HasId(RevisionsOf(s.revisions, m), r.id) {
          assert UniqueIds(RevisionsOf(s.revisions, m)) by { EmptyIsUnique(); }
          AddedIsUnique(RevisionsOf(s.revisions, m), r);
        }
        RunsStayOk(cfg, s, s');
      case SetJob(_, _) =>
        RunsStayOk(cfg, s, s');
      case Load(e, t) =>
        if e !in s.runs {
          RunsStayOk(cfg, s, s.(runs := s.runs));
          NewRunIsOk(cfg, s, e, t);
        }
      case _ =>
        if step.run in s.runs {
          MovedExtends(cfg, s, step);
          MovedIsOk(cfg, s, step);
          OthersStayOk(cfg, s, step);
          forall e: nat
            ensures CountBy(s'.attempts, e) == RowsDue(s'.runs, e)
          {
            MovedCounts(cfg, s, step, e);
          }
        }
    }
  }

  lemma EmptyIsUnique()
    ensures UniqueIds([])
  {
  }

  lemma RunsStayOk(cfg: Settings, s: State, s': State)
    requires Inv(cfg, s) && Extends(s, s') && s'.runs == s.runs
    ensures forall e :: e in s'.runs ==> ProgressOk(cfg, s', s'.runs[e])
  {
    hide ProgressOk, CountBy, UniqueIds;
    forall e | e in s'.runs
      ensures ProgressOk(cfg, s', s'.runs[e])
    {
      StaysOk(cfg, s, s', s.runs[e]);
    }
  }

  lemma NewRunIsOk(cfg: Settings, s: State, e: nat, t: Ticket)
    requires Inv(cfg, s) && e !in s.runs
    ensures var s' := s.(runs := s.runs[e := Loading(cfg, s, t)]);
            && (forall f :: f in s'.runs ==> ProgressOk(cfg, s', s'.runs[f]))
            && forall f: nat :: RowsDue(s'.runs, f) == RowsDue(s.runs, f)
  {
    hide CountBy, UniqueIds, LoadSchedule, ScheduleOk;
    var s' := s.(runs := s.runs[e := Loading(cfg, s, t)]);
    if LoadSchedule(cfg, s.revisions, t).Some? {
      LoadedIsOk(cfg, s.revisions, t);
    }
    forall f | f in s.runs
      ensures ProgressOk(cfg, s', s.runs[f])
    {
      StaysOk(cfg, s, s', s.runs[f]);
    }
  }

  lemma OthersStayOk(cfg: Settings, s: State, step: Step)
    requires Inv(cfg, s) && IsMove(step)
    requires step.run in s.runs
    ensures var s' := Moved(cfg, s, s.runs[step.run], step);
            forall e :: e in s'.runs ==> ProgressOk(cfg, s', s'.runs[e])
  {
    hide Moved, CountBy, UniqueIds, ProgressOk;
    MovedExtends(cfg, s, step);
    MovedIsOk(cfg, s, step);
    var s' := Moved(cfg, s, s.runs[step.run], step);
    StaysOk(cfg, s.(attempts := s'.attempts), s', s'.runs[step.run]);
    forall e | e in s'.runs && e != step.run
      ensures ProgressOk(cfg, s', s'.runs[e])
    {
      StaysOk(cfg, s, s', s.runs[e]);
    }
  }

  /** The invariant holds after every sequence of transactions. */
  lemma {:induction false} RunKeepsInv(cfg: Settings, steps: seq<Step>)
    ensures Inv(cfg, Run(cfg, steps))
  {
    if steps != [] {
      RunKeepsInv(cfg, steps[..|steps| - 1]);
      StepKeepsInv(cfg, Run(cfg, steps[..|steps| - 1]), steps[|steps| - 1]);
    }
  }

  // ---- Main results ----

  /** A publication that stores a prediction: the ticket's revision is the match's latest and still to be
      played, the model finished on time and started in time, the lease is held, and one atomic step adds
      the attempt row, stores the prediction and finishes the job. */
  ghost predicate TimelyPublication(cfg: Settings, s: State, s': State, run: nat) {
    && run in s.runs && s.runs[run].Finished?
    && var p := s.runs[run];
       var rows := RevisionsOf(s.revisions, p.t.matchId);
       && rows != [] && rows[|rows| - 1] == p.schedule && p.schedule.id == p.t.revision && p.schedule.live
       && CompletionIsOnTime(cfg, p.completed, p.schedule.scheduled, p.schedule.actual)
       && StartOk(cfg, s.attempts, p.t, p.schedule, p.started)
       && HoldsLease(s.jobs, p.t, p.completed)
       && s' == State(s.revisions, s.jobs[p.t.job := FinishedJob(s.jobs[p.t.job], p.completed)],
                      s.attempts + [RowOf(run, p.t, p.started, p.completed, AttemptSucceeded)],
                      s.predictions[KeyOf(p.t) := Prediction(run, p.t.job, p.t.revision, p.started, p.completed,
                                                             p.digest)],
                      s.runs[run := Done(Published(true))])
  }

  ghost predicate MadeAt(cfg: Settings, steps: seq<Step>, i: nat, key: Key) {
    && i < |steps| && steps[i].Publish?
    && key !in Run(cfg, steps[..i]).predictions
    && TimelyPublication(cfg, Run(cfg, steps[..i]), Run(cfg, steps[..i + 1]), steps[i].run)
    && key == KeyOf(Run(cfg, steps[..i]).runs[steps[i].run].t)
  }

  lemma LatestIsSchedule(cfg: Settings, s: State, t: Ticket, schedule: Revision)
    requires Inv(cfg, s) && ScheduleOk(cfg, s.revisions, t, schedule) && LoadSchedule(cfg, s.revisions, t).Some?
    ensures LoadSchedule(cfg, s.revisions, t) == Some(schedule)
  {
    hide CountBy, ProgressOk;
    var rows := RevisionsOf(s.revisions, t.matchId);
    assert t.matchId in s.revisions;
    var i :| 0 <= i < |rows| && rows[i] == schedule;
    assert i == |rows| - 1;
  }

  lemma OnlyPublishStores(cfg: Settings, s: State, step: Step, key: Key)
    requires key !in s.predictions && key in Apply(cfg, s, step).predictions
    ensures step.Publish? && step.run in s.runs && s.runs[step.run].Finished? && key == KeyOf(s.runs[step.run].t)
    ensures var p := s.runs[step.run];
            Publishable(cfg, s, p.t, p.completed).Some? && Apply(cfg, s, step) == Publishing(cfg, s, step.run, p)
  {
    hide LoadSchedule, DeadlineAt, CompletionIsOnTime, PriorStart, KeyOf, HoldsLease, Publishable, HasId;
  }

  lemma StoredIsTimely(cfg: Settings, s: State, step: Step, key: Key)
    requires Inv(cfg, s) && key !in s.predictions && key in Apply(cfg, s, step).predictions
    ensures step.Publish? && TimelyPublication(cfg, s, Apply(cfg, s, step), step.run)
    ensures key == KeyOf(s.runs[step.run].t)
  {
    hide CountBy, UniqueIds, Apply, StartOk, ScheduleOk, CompletionIsOnTime, HoldsLease;
    OnlyPublishStores(cfg, s, step, key);
    var p := s.runs[step.run];
    assert ProgressOk(cfg, s, p);
    LatestIsSchedule(cfg, s, p.t, p.schedule);
  }

  /** Made by the timely publication at step i, as the value p. */
  ghost predicate MadeAs(cfg: Settings, steps: seq<Step>, i: nat, key: Key, p: Prediction) {
    && MadeAt(cfg, steps, i, key)
    && key in Run(cfg, steps[..i + 1]).predictions && Run(cfg, steps[..i + 1]).predictions[key] == p
  }

  /** In every interleaving, every stored prediction was made by a timely publication and has not changed
      since. */
  lemma {:induction false} EveryPredictionWasTimely(cfg: Settings, steps: seq<Step>, key: Key)
    requires key in Run(cfg, steps).predictions
    ensures exists i: nat :: MadeAs(cfg, steps, i, key, Run(cfg, steps).predictions[key])
  {
    hide Apply, Inv, TimelyPublication;
    var n := |steps| - 1;
    var before := Run(cfg, steps[..n]);
    RunKeepsInv(cfg, steps[..n]);
    StepKeepsInv(cfg, before, steps[n]);
    assert steps[..n + 1] == steps;
    if key in before.predictions {
      EveryPredictionWasTimely(cfg, steps[..n], key);
      var i: nat :| MadeAs(cfg, steps[..n], i, key, before.predictions[key]);
      assert steps[..n][..i] == steps[..i] && steps[..n][..i + 1] == steps[..i + 1];
      assert MadeAs(cfg, steps, i, key, before.predictions[key]);
    } else {
      StoredIsTimely(cfg, before, steps[n], key);
      assert MadeAs(cfg, steps, n, key, Run(cfg, steps).predictions[key]);
    }
  }

  /** However the transactions interleave, an execution that ran a model and returned has left exactly one
      attempt row, and any other execution none. */
  lemma OneRowPerExecution(cfg: Settings, steps: seq<Step>, run: nat)
    ensures var s := Run(cfg, steps); CountBy(s.attempts, run) == RowsDue(s.runs, run)
  {
    RunKeepsInv(cfg, steps);
  }

  /** Revisions and attempts only grow, and a stored prediction is never replaced. */
  lemma {:induction false} NothingIsLost(cfg: Settings, steps: seq<Step>, more: seq<Step>)
    ensures Extends(Run(cfg, steps), Run(cfg, steps + more))
  {
    hide Apply, Inv, Run;
    if more == [] {
      assert steps + more == steps;
    } else {
      hide Extends;
      var n := |more| - 1;
      var init := steps + more[..n];
      assert steps + more == init + [more[n]];
      NothingIsLost(cfg, steps, more[..n]);
      RunKeepsInv(cfg, init);
      StepKeepsInv(cfg, Run(cfg, init), more[n]);
      RunOneMore(cfg, init, more[n]);
      ExtendsFurther(Run(cfg, steps), Run(cfg, init), Run(cfg, steps + more));
    }
  }

  lemma RunOneMore(cfg: Settings, steps: seq<Step>, step: Step)
    ensures Run(cfg, steps + [step]) == Apply(cfg, Run(cfg, steps), step)
  {
    assert (steps + [step])[..|steps|] == steps;
  }

  lemma ExtendsFurther(a: State, b: State, c: State)
    requires Extends(a, b) && Extends(b, c)
    ensures Extends(a, c)
  {
  }

  /** A schedule revision with a new id becomes the match's latest; a known id changes nothing. */
  lemma RevisionsAreAppended(cfg: Settings, s: State, m: nat, r: Revision)
    ensures var known := m in s.revisions && exists i :: 0 <= i < |s.revisions[m]| && s.revisions[m][i].id == r.id;
            Apply(cfg, s, AddRevision(m, r)) ==
              if known then s
              else s.(revisions := s.revisions[m := (if m in s.revisions then s.revisions[m] else []) + [r]])
  {
    var rows := RevisionsOf(s.revisions, m);
    if HasId(rows, r.id) {
      var stored :| stored in rows && stored.id == r.id;
      var i :| 0 <= i < |rows| && rows[i] == stored;
      assert rows[i].id == r.id;
    } else {
      forall i | 0 <= i < |rows|
        ensures rows[i].id != r.id
      {
        assert rows[i] in rows;
      }
    }
  }

  // ---- Starts in columns ----

  /** The attempts hold one of this job and variant that was not skipped and started in the window. */
  predicate HasTimelyAttempt(cfg: Settings, attempts: seq<AttemptRow>, t: Ticket, schedule: Revision) {
    exists i :: 0 <= i < |attempts| && attempts[i].job == t.job && attempts[i].variant == t.variant
                && attempts[i].status != AttemptSkipped
                && schedule.scheduled - cfg.cutoff <= attempts[i].started
                && attempts[i].started <= schedule.scheduled - cfg.cutoff + cfg.tolerance
  }

  /** Before the end of the grace period, the scheduled start and a known actual one. */
  predicate BeforeDeadline(cfg: Settings, schedule: Revision, at: real) {
    && at < schedule.scheduled - cfg.cutoff + cfg.grace && at < schedule.scheduled
    && (schedule.actual.Some? ==> at < schedule.actual.value)
  }

  lemma PriorInColumns(cfg: Settings, attempts: seq<AttemptRow>, t: Ticket, schedule: Revision)
    ensures PriorStart(cfg, attempts, t, schedule) <==> HasTimelyAttempt(cfg, attempts, t, schedule)
  {
    if PriorStart(cfg, attempts, t, schedule) {
      var a :| a in attempts && ProvesStart(cfg, a, t, schedule);
      var i :| 0 <= i < |attempts| && attempts[i] == a;
    }
    if HasTimelyAttempt(cfg, attempts, t, schedule) {
      var i :| 0 <= i < |attempts| && attempts[i].job == t.job && attempts[i].variant == t.variant
               && attempts[i].status != AttemptSkipped
               && schedule.scheduled - cfg.cutoff <= attempts[i].started
               && attempts[i].started <= schedule.scheduled - cfg.cutoff + cfg.tolerance;
      assert ProvesStart(cfg, attempts[i], t, schedule);
    }
  }

  lemma DeadlineInColumns(cfg: Settings, schedule: Revision, at: real)
    ensures at < DeadlineAt(cfg, schedule.scheduled, schedule.actual) <==> BeforeDeadline(cfg, schedule, at)
    ensures CompletionIsOnTime(cfg, at, schedule.scheduled, schedule.actual) <==> BeforeDeadline(cfg, schedule, at)
  {
  }

  /** An attempt whose prediction is not stored yet starts exactly when it starts in the window, or is a
      retry of one that did and starts before the deadline; and which of the two reasons a refusal gives. */
  lemma StartsIff(cfg: Settings, s: State, t: Ticket, schedule: Revision, at: real)
    requires Checking(cfg, s, t, schedule).Ready?
    ensures var p := Starting(cfg, t, schedule, Checking(cfg, s, t, schedule).prior, at);
            var inWindow := schedule.scheduled - cfg.cutoff <= at <= schedule.scheduled - cfg.cutoff + cfg.tolerance;
            var retry := t.attemptNo > 1 && HasTimelyAttempt(cfg, s.attempts, t, schedule);
            p == if inWindow || (retry && BeforeDeadline(cfg, schedule, at)) then Running(t, schedule, at)
                 else Done(StartTooLate(BeforeDeadline(cfg, schedule, at) && !retry))
  {
    hide HasTimelyAttempt, PriorStart, BeforeDeadline, DeadlineAt;
    PriorInColumns(cfg, s.attempts, t, schedule);
    DeadlineInColumns(cfg, schedule, at);
  }

  /** A job whose own deadline is no earlier than its schedule's ends as succeeded when it publishes. */
  lemma PublishedJobSucceeds(cfg: Settings, s: State, s': State, run: nat)
    requires TimelyPublication(cfg, s, s', run)
    requires var p := s.runs[run];
             var deadline := s.jobs[p.t.job].deadline;
             deadline.Some? ==> DeadlineAt(cfg, p.schedule.scheduled, p.schedule.actual) <= deadline.value
    ensures s'.jobs[s.runs[run].t.job].state == Succeeded && s'.jobs[s.runs[run].t.job].owner == None
  {
  }
}
