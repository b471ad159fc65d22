/** One prediction execution over the stored rows, with the transactions of others between its own. */
module PredictionOrchestrator {
  import opened Wrappers
  import opened Timing
  import opened Publication

  /** What other processes do between the transactions of one execution. */
  datatype Interleaving = Interleaving(afterLoad: seq<Step>, afterFreeze: seq<Step>, afterCheck: seq<Step>,
                                       whileRunning: seq<Step>, afterModel: seq<Step>, afterRollback: seq<Step>)

  predicate IsOf(step: Step, run: nat) {
    !step.AddRevision? && !step.SetJob? && step.run == run
  }

  predicate LeavesAlone(others: seq<Step>, run: nat) {
    forall step :: step in others ==> !IsOf(step, run)
  }

  predicate AllLeaveAlone(w: Interleaving, run: nat) {
    && LeavesAlone(w.afterLoad, run) && LeavesAlone(w.afterFreeze, run) && LeavesAlone(w.afterCheck, run)
    && LeavesAlone(w.whileRunning, run) && LeavesAlone(w.afterModel, run) && LeavesAlone(w.afterRollback, run)
  }

  lemma OthersKeepRun(cfg: Settings, s: State, step: Step, run: nat)
    requires run in s.runs && !IsOf(step, run)
    ensures run in Apply(cfg, s, step).runs && Apply(cfg, s, step).runs[run] == s.runs[run]
  {
    hide LoadSchedule, DeadlineAt, CompletionIsOnTime, PriorStart, KeyOf, HoldsLease, Publishable, HasId, Loading;
  }

  // ---- An execution that nothing disturbs, decided at once from the stored columns ----

  predicate Undisturbed(w: Interleaving) {
    && w.afterLoad == [] && w.afterFreeze == [] && w.afterCheck == [] && w.whileRunning == [] && w.afterModel == []
    && w.afterRollback == []
  }

  /** The ticket's revision is the match's latest and its cutoff is the ticket's. */
  predicate IsScheduled(cfg: Settings, s: State, t: Ticket) {
    && t.matchId in s.revisions && s.revisions[t.matchId] != []
    && var r := s.revisions[t.matchId][|s.revisions[t.matchId]| - 1];
       r.id == t.revision && t.cutoff == r.scheduled - cfg.cutoff
  }

  function ScheduleOf(cfg: Settings, s: State, t: Ticket): Revision
    requires IsScheduled(cfg, s, t)
  {
    s.revisions[t.matchId][|s.revisions[t.matchId]| - 1]
  }

  /** Why the ticket is not taken up at all, if it is not. */
  function NotTakenUp(cfg: Settings, s: State, t: Ticket, now: real): Option<Problem> {
    if !IsScheduled(cfg, s, t) then Some(ScheduleGone)
    else
      var r := ScheduleOf(cfg, s, t);
      if now < r.scheduled - cfg.cutoff then Some(CutoffNotReached)
      else if !BeforeDeadline(cfg, r, now) then Some(DeadlineExpired)
      else if !r.live then Some(NotLive)
      else if t.variant != t.binding || t.attemptNo == 0 then Some(BadTicket)
      else None
  }

  /** What ends the execution before the model is called, if anything. */
  function EndsEarly(cfg: Settings, s: State, t: Ticket, now: real, startedAt: real): Option<Outcome> {
    var problem := NotTakenUp(cfg, s, t, now);
    if problem.Some? then Some(Raised(problem.value))
    else
      var r := ScheduleOf(cfg, s, t);
      var cutoff := r.scheduled - cfg.cutoff;
      var retry := t.attemptNo > 1 && HasTimelyAttempt(cfg, s.attempts, t, r);
      if Key(t.matchId, t.revision, t.cutoff, t.variant, t.stage) in s.predictions then Some(AlreadyStored)
      else if cutoff <= startedAt <= cutoff + cfg.tolerance || (retry && BeforeDeadline(cfg, r, startedAt)) then None
      else Some(StartTooLate(BeforeDeadline(cfg, r, startedAt) && !retry))
  }

  function OutcomeAlone(cfg: Settings, s: State, t: Ticket, now: real, startedAt: real, completedAt: real,
                        result: Result): Outcome {
    var early := EndsEarly(cfg, s, t, now, startedAt);
    if early.Some? then early.value
    else if result.NoOutput? then ModelFailed(result.retryable)
    else if !IsScheduled(cfg, s, t) || !BeforeDeadline(cfg, ScheduleOf(cfg, s, t), completedAt) then LateResponse
    else if !result.valid then Raised(InvalidOutput)
    else if t.job in s.jobs && s.jobs[t.job].state == InProgress && s.jobs[t.job].owner == Some(t.owner)
            && completedAt < s.jobs[t.job].leaseUntil
    then Published(true)
    else LostLease
  }

  predicate SameTables(s: State, s': State) {
    s'.revisions == s.revisions && s'.jobs == s.jobs && s'.attempts == s.attempts && s'.predictions == s.predictions
  }

  lemma ScheduledIffLoaded(cfg: Settings, s: State, t: Ticket)
    ensures LoadSchedule(cfg, s.revisions, t)
            == if IsScheduled(cfg, s, t) then Some(ScheduleOf(cfg, s, t)) else None
  {
  }

  lemma SameSchedule(cfg: Settings, s: State, s': State, t: Ticket)
    requires s'.revisions == s.revisions
    ensures IsScheduled(cfg, s', t) <==> IsScheduled(cfg, s, t)
    ensures IsScheduled(cfg, s, t) ==> ScheduleOf(cfg, s', t) == ScheduleOf(cfg, s, t)
  {
  }

  lemma FreezesIff(cfg: Settings, s: State, t: Ticket, now: real)
    requires IsScheduled(cfg, s, t)
    ensures var r := ScheduleOf(cfg, s, t);
            Freezing(cfg, s, t, r, now)
            == if now < r.scheduled - cfg.cutoff then Done(Raised(CutoffNotReached))
               else if !BeforeDeadline(cfg, r, now) then Done(Raised(DeadlineExpired))
               else if !r.live then Done(Raised(NotLive))
               else if t.variant != t.binding || t.attemptNo == 0 then Done(Raised(BadTicket))
               else Frozen(t, r)
  {
    hide LoadSchedule, DeadlineAt, BeforeDeadline;
    ScheduledIffLoaded(cfg, s, t);
    DeadlineInColumns(cfg, ScheduleOf(cfg, s, t), now);
  }

  /** The last attempt row is this one. */
  predicate LastAttempt(attempts: seq<AttemptRow>, run: nat, t: Ticket, started: real, completed: real,
                        status: AttemptStatus) {
    attempts != [] && attempts[|attempts| - 1] == AttemptRow(run, t.job, t.variant, started, completed, status)
  }

  /** The status of the row an execution that ran a model leaves. */
  function StatusOf(outcome: Outcome, result: Result): AttemptStatus {
    if outcome.Published? then AttemptSucceeded
    else if result.Output? then AttemptLate
    else if result.skipped then AttemptSkipped
    else AttemptFailed
  }

  /** What the latest schedule, the lease and the time allow to be published. */
  predicate MayPublish(cfg: Settings, s: State, t: Ticket, completed: real) {
    && IsScheduled(cfg, s, t) && ScheduleOf(cfg, s, t).live && BeforeDeadline(cfg, ScheduleOf(cfg, s, t), completed)
    && t.job in s.jobs && s.jobs[t.job].state == InProgress && s.jobs[t.job].owner == Some(t.owner)
    && completed < s.jobs[t.job].leaseUntil
  }

  lemma PublishableIff(cfg: Settings, s: State, t: Ticket, completed: real)
    ensures Publishable(cfg, s, t, completed).Some? <==> MayPublish(cfg, s, t, completed)
  {
    hide LoadSchedule, IsScheduled, ScheduleOf, CompletionIsOnTime, BeforeDeadline;
    ScheduledIffLoaded(cfg, s, t);
    if IsScheduled(cfg, s, t) {
      DeadlineInColumns(cfg, ScheduleOf(cfg, s, t), completed);
    }
  }

  /** What ends the execution early is its outcome; otherwise the model's result may be. */
  lemma EndedAlone(cfg: Settings, s: State, t: Ticket, now: real, startedAt: real, completedAt: real, result: Result)
    ensures var early, o := EndsEarly(cfg, s, t, now, startedAt),
                            OutcomeAlone(cfg, s, t, now, startedAt, completedAt, result);
            && (early.Some? ==> o == early.value)
            && (early.None? && IsScheduled(cfg, s, t) ==>
                  && (result.NoOutput? ==> o == ModelFailed(result.retryable))
                  && (result.Output? && !BeforeDeadline(cfg, ScheduleOf(cfg, s, t), completedAt) ==> o == LateResponse)
                  && (result.Output? && BeforeDeadline(cfg, ScheduleOf(cfg, s, t), completedAt) && !result.valid ==>
                        o == Raised(InvalidOutput)))
  {
    hide EndsEarly, IsScheduled, ScheduleOf, BeforeDeadline;
  }

  /** Once the model has run in time and given a valid output, the lease decides. */
  lemma RunsAlone(cfg: Settings, s: State, s': State, t: Ticket, now: real, startedAt: real, completedAt: real,
                  result: Result)
    requires EndsEarly(cfg, s, t, now, startedAt).None? && s'.revisions == s.revisions && s'.jobs == s.jobs
    requires result.Output? && result.valid && BeforeDeadline(cfg, ScheduleOf(cfg, s, t), completedAt)
    ensures KeyOf(t) !in s.predictions
    ensures OutcomeAlone(cfg, s, t, now, startedAt, completedAt, result)
            == if MayPublish(cfg, s', t, completedAt) then Published(true) else LostLease
  {
    hide BeforeDeadline, HasTimelyAttempt, IsScheduled, ScheduleOf;
    SameSchedule(cfg, s, s', t);
  }

  /** When an undisturbed execution publishes: for a first attempt and for a retry. */
  lemma PublishesIff(cfg: Settings, s: State, t: Ticket, now: real, startedAt: real, completedAt: real, result: Result)
    ensures OutcomeAlone(cfg, s, t, now, startedAt, completedAt, result) == Published(true) <==>
            && IsScheduled(cfg, s, t)
            && var r := ScheduleOf(cfg, s, t);
               && r.live && t.variant == t.binding && t.attemptNo > 0 && KeyOf(t) !in s.predictions
               && r.scheduled - cfg.cutoff <= now && BeforeDeadline(cfg, r, now)
               && (|| r.scheduled - cfg.cutoff <= startedAt <= r.scheduled - cfg.cutoff + cfg.tolerance
                   || (t.attemptNo > 1 && HasTimelyAttempt(cfg, s.attempts, t, r)
                       && BeforeDeadline(cfg, r, startedAt)))
               && result.Output? && result.valid && BeforeDeadline(cfg, r, completedAt)
               && HoldsLease(s.jobs, t, completedAt)
  {
    hide IsScheduled, ScheduleOf, BeforeDeadline, HasTimelyAttempt;
  }

  /** What the worker's handler makes of an execution. */
  datatype Handled = RetryLater | GiveUp | Propagated(problem: Problem) | Returned(finalized: bool) | WorkerGone

  class PredictionStore {
    const cfg: Settings
    var revisions: map<nat, seq<Revision>>
    var jobs: map<nat, Job>
    var attempts: seq<AttemptRow>
    var predictions: map<Key, Prediction>
    /** The progress of every execution, which the source keeps in local variables. */
    var runs: map<nat, Progress>
    ghost var history: seq<Step>

    ghost function Rows(): State
      reads this
    {
      State(revisions, jobs, attempts, predictions, runs)
    }

    /** The rows are what the transactions so far amount to. */
    ghost predicate Valid()
      reads this
    {
      Rows() == Run(cfg, history)
    }

    constructor (cfg: Settings)
      ensures Valid() && this.cfg == cfg && history == []
    {
      this.cfg := cfg;
      revisions, jobs, attempts, predictions, runs := map[], map[], [], map[], map[];
      history := [];
    }

    ghost predicate Took(before: State, past: seq<Step>, step: Step)
      reads this
    {
      Rows() == Apply(cfg, before, step) && history == past + [step]
    }

    lemma TookIsValid(before: State, past: seq<Step>, step: Step)
      requires before == Run(cfg, past) && Took(before, past, step)
      ensures Valid()
    {
      assert history[..|past|] == past;
    }

    method Do(step: Step)
      requires Valid()
      modifies this
      ensures Valid() && Took(old(Rows()), old(history), step)
    {
      hide Apply, Run;
      var s := Apply(cfg, State(revisions, jobs, attempts, predictions, runs), step);
      revisions, jobs, attempts, predictions, runs := s.revisions, s.jobs, s.attempts, s.predictions, s.runs;
      history := history + [step];
      TookIsValid(old(Rows()), old(history), step);
    }

    method Interfere(others: seq<Step>, run: nat)
      requires Valid() && run in runs && LeavesAlone(others, run)
      modifies this
      ensures Valid() && old(history) <= history
      ensures run in runs && runs[run] == old(runs[run])
      ensures others == [] ==> SameTables(old(Rows()), Rows())
    {
      hide Apply, Run;
      for i := 0 to |others|
        invariant Valid() && old(history) <= history
        invariant run in runs && runs[run] == old(runs[run])
        invariant others == [] ==> SameTables(old(Rows()), Rows())
      {
        ghost var before := Rows();
        OthersKeepRun(cfg, before, others[i], run);
        Do(others[i]);
      }
    }

    method LoadScheduleRow(t: Ticket) returns (r: Option<Revision>)
      ensures r == LoadSchedule(cfg, revisions, t)
    {
      if t.matchId !in revisions || |revisions[t.matchId]| == 0 {
        return None;
      }
      var row := revisions[t.matchId][|revisions[t.matchId]| - 1];
      if row.id != t.revision {
        return None;
      }
      if t.cutoff != row.scheduled - cfg.cutoff {
        return None;
      }
      r := Some(row);
    }

    method PublishableSchedule(t: Ticket, completed: real) returns (r: Option<Revision>)
      ensures r == Publishable(cfg, Rows(), t, completed)
    {
      if t.job !in jobs || jobs[t.job].state != InProgress || jobs[t.job].owner != Some(t.owner)
         || jobs[t.job].leaseUntil <= completed {
        return None;
      }
      var schedule := LoadScheduleRow(t);
      if schedule.None? {
        return None;
      }
      if !schedule.value.live {
        return None;
      }
      if !CompletionIsOnTime(cfg, completed, schedule.value.scheduled, schedule.value.actual) {
        return None;
      }
      r := schedule;
    }

    /** Finishes the job if the caller's lease still runs. */
    method Finish(t: Ticket, completed: real) returns (finished: bool)
      modifies this`jobs
      ensures finished <==> HoldsLease(old(jobs), t, completed)
      ensures jobs == if finished then old(jobs)[t.job := FinishedJob(old(jobs)[t.job], completed)] else old(jobs)
    {
      finished := t.job in jobs && jobs[t.job].state == InProgress && jobs[t.job].owner == Some(t.owner)
                  && jobs[t.job].leaseUntil > completed;
      if finished {
        var job := jobs[t.job];
        var state := if job.deadline.Some? && job.deadline.value <= completed then Expired else Succeeded;
        jobs := jobs[t.job := job.(state := state, owner := None)];
      }
    }

    method RecordStep(ghost step: Step, ghost before: State, ghost past: seq<Step>)
      requires before == Run(cfg, past) && history == past && Rows() == Apply(cfg, before, step)
      modifies this`history
      ensures Valid() && Took(before, past, step)
    {
      hide Apply, Run;
      history := history + [step];
      TookIsValid(before, past, step);
    }

    method LoadTransaction(run: nat, t: Ticket) returns (schedule: Option<Revision>)
      requires Valid() && run !in runs
      modifies this`runs, this`history
      ensures Valid() && Took(old(Rows()), old(history), Load(run, t))
      ensures run in runs && schedule == LoadSchedule(cfg, revisions, t)
      ensures runs[run] == if schedule.Some? then Loaded(t, schedule.value) else Done(Raised(ScheduleGone))
    {
      hide Run, LoadSchedule;
      schedule := LoadScheduleRow(t);
      runs := runs[run := if schedule.Some? then Loaded(t, schedule.value) else Done(Raised(ScheduleGone))];
      RecordStep(Load(run, t), old(Rows()), old(history));
    }

    /** The freeze transaction, and the checks of the binding and the attempt number after it. */
    method FreezeTransaction(run: nat, t: Ticket, schedule: Revision, now: real) returns (problem: Option<Problem>)
      requires Valid() && run in runs && runs[run] == Loaded(t, schedule)
      modifies this`runs, this`history
      ensures Valid() && Took(old(Rows()), old(history), Freeze(run, now))
      ensures run in runs && runs[run] == Freezing(cfg, old(Rows()), t, schedule, now)
      ensures runs[run] == if problem.None? then Frozen(t, schedule) else Done(Raised(problem.value))
    {
      hide Run, LoadSchedule, DeadlineAt;
      problem := None;
      var current := LoadScheduleRow(t);
      if current.None? {
        problem := Some(ScheduleGone);
      } else if now < current.value.scheduled - cfg.cutoff {
        problem := Some(CutoffNotReached);
      } else if now >= DeadlineAt(cfg, current.value.scheduled, current.value.actual) {
        problem := Some(DeadlineExpired);
      } else if !current.value.live {
        problem := Some(NotLive);
      } else if t.variant != t.binding || t.attemptNo == 0 {
        problem := Some(BadTicket);
      }
      runs := runs[run := if problem.None? then Frozen(t, schedule) else Done(Raised(problem.value))];
      RecordStep(Freeze(run, now), old(Rows()), old(history));
    }

    method CheckTransaction(run: nat, t: Ticket, schedule: Revision) returns (stored: bool, prior: bool)
      requires Valid() && run in runs && runs[run] == Frozen(t, schedule)
      modifies this`runs, this`history
      ensures Valid() && Took(old(Rows()), old(history), Check(run))
      ensures run in runs && runs[run] == Checking(cfg, old(Rows()), t, schedule)
      ensures runs[run] == if stored then Done(AlreadyStored) else Ready(t, schedule, prior)
      ensures prior <==> t.attemptNo > 1 && HasTimelyAttempt(cfg, attempts, t, schedule)
      ensures stored <==> KeyOf(t) in predictions
    {
      hide Run, PriorStart, HasTimelyAttempt;
      PriorInColumns(cfg, attempts, t, schedule);
      stored := KeyOf(t) in predictions;
      prior := t.attemptNo > 1 && PriorStart(cfg, attempts, t, schedule);
      runs := runs[run := if stored then Done(AlreadyStored) else Ready(t, schedule, prior)];
      RecordStep(Check(run), old(Rows()), old(history));
    }

    method StartTransaction(run: nat, t: Ticket, schedule: Revision, prior: bool, started: real)
      returns (late: Option<Outcome>)
      requires Valid() && run in runs && runs[run] == Ready(t, schedule, prior)
      modifies this`runs, this`history
      ensures Valid() && Took(old(Rows()), old(history), Start(run, started))
      ensures run in runs && runs[run] == Starting(cfg, t, schedule, prior, started)
      ensures runs[run] == if late.None? then Running(t, schedule, started) else Done(late.value)
      ensures late.None? <==>
              || schedule.scheduled - cfg.cutoff <= started <= schedule.scheduled - cfg.cutoff + cfg.tolerance
              || (t.attemptNo > 1 && prior && BeforeDeadline(cfg, schedule, started))
      ensures late.Some? ==>
                late.value == StartTooLate(BeforeDeadline(cfg, schedule, started) && (t.attemptNo == 1 || !prior))
    {
      hide Run, DeadlineAt, BeforeDeadline;
      DeadlineInColumns(cfg, schedule, started);
      var deadline := DeadlineAt(cfg, schedule.scheduled, schedule.actual);
      var onTime := StartIsOnTime(cfg, started, schedule.scheduled) || (t.attemptNo > 1 && prior && started < deadline);
      late := None;
      if !onTime {
        late := Some(StartTooLate(started < deadline && (t.attemptNo == 1 || !prior)));
      }
      runs := runs[run := if late.None? then Running(t, schedule, started) else Done(late.value)];
      RecordStep(Start(run, started), old(Rows()), old(history));
    }

    /** What follows the model call: the row of a failed or late one, or the validated output. */
    method CompleteTransaction(run: nat, t: Ticket, schedule: Revision, started: real, completed: real, result: Result)
      returns (ended: Option<Outcome>)
      requires Valid() && run in runs && runs[run] == Running(t, schedule, started)
      modifies this`runs, this`attempts, this`history
      ensures Valid() && Took(old(Rows()), old(history), Complete(run, completed, result))
      ensures run in runs && (ended.Some? ==> runs[run] == Done(ended.value))
      ensures ended.Some? ==>
              ended.value.ModelFailed? || ended.value == LateResponse || ended.value == Raised(InvalidOutput)
      ensures ended.None? ==> result.Output? && runs[run] == Finished(t, schedule, started, completed, result.digest)
      ensures ended ==
              if result.NoOutput? then Some(ModelFailed(result.retryable))
              else if !BeforeDeadline(cfg, schedule, completed) then Some(LateResponse)
              else if !result.valid then Some(Raised(InvalidOutput))
              else None
      ensures ended.Some? && RanAndReturned(ended.value) ==>
              LastAttempt(attempts, run, t, started, completed, StatusOf(ended.value, result))
    {
      hide Run, CompletionIsOnTime, BeforeDeadline;
      DeadlineInColumns(cfg, schedule, completed);
      ended := None;
      match result {
        case NoOutput(skipped, retryable) =>
          attempts := attempts + [RowOf(run, t, started, completed, if skipped then AttemptSkipped else AttemptFailed)];
          ended := Some(ModelFailed(retryable));
        case Output(digest, valid) =>
          if !CompletionIsOnTime(cfg, completed, schedule.scheduled, schedule.actual) {
            attempts := attempts + [RowOf(run, t, started, completed, AttemptLate)];
            ended := Some(LateResponse);
          } else if !valid {
            ended := Some(Raised(InvalidOutput));
          }
      }
      runs := runs[run := if ended.Some? then Done(ended.value)
                          else Finished(t, schedule, started, completed, result.digest)];
      RecordStep(Complete(run, completed, result), old(Rows()), old(history));
    }

    /** Attempt, prediction and job in one transaction, or none of them. */
    method PublishTransaction(run: nat, t: Ticket, schedule: Revision, started: real, completed: real, digest: nat)
      returns (ended: Option<Outcome>)
      requires Valid() && run in runs && runs[run] == Finished(t, schedule, started, completed, digest)
      modifies this
      ensures Valid() && Took(old(Rows()), old(history), Publish(run))
      ensures run in runs
      ensures runs[run] == if ended.None? then Unpublished(t, schedule, started, completed) else Done(ended.value)
      ensures ended.Some? ==> ended.value == Raised(Conflict) || ended.value == Published(KeyOf(t) !in old(predictions))
      ensures ended.Some? && ended.value.Published? ==>
              KeyOf(t) in predictions && predictions[KeyOf(t)].digest == digest
      ensures ended.Some? <==> MayPublish(cfg, old(Rows()), t, completed)
      ensures ended == Some(Raised(Conflict)) ==> KeyOf(t) in old(predictions)
      ensures ended.Some? && ended.value.Published? ==>
                && LastAttempt(attempts, run, t, started, completed, AttemptSucceeded)
                && t.job in jobs && jobs[t.job].owner == None
                && jobs[t.job].state ==
                   (if old(jobs)[t.job].deadline.Some? && old(jobs)[t.job].deadline.value <= completed then Expired
                    else Succeeded)
    {
      hide Run, LoadSchedule, DeadlineAt, CompletionIsOnTime, MayPublish;
      PublishableIff(cfg, Rows(), t, completed);
      var current := PublishableSchedule(t, completed);
      ended := None;
      if current.Some? {
        var savedAttempts := attempts;
        var key := KeyOf(t);
        attempts := attempts + [RowOf(run, t, started, completed, AttemptSucceeded)];
        if key in predictions && predictions[key].digest != digest {
          attempts := savedAttempts;
          ended := Some(Raised(Conflict));
        } else {
          var created := key !in predictions;
          if created {
            predictions := predictions[key := Prediction(run, t.job, t.revision, started, completed, digest)];
          }
          var finished := Finish(t, completed);
          if finished {
            ended := Some(Published(created));
          } else {
            // The check above saw the lease in this same transaction, so it cannot be lost by now.
            assert false;
          }
        }
      }
      runs := runs[run := if ended.None? then Unpublished(t, schedule, started, completed) else Done(ended.value)];
      RecordStep(Publish(run), old(Rows()), old(history));
    }

    method RecordLostTransaction(run: nat, t: Ticket, schedule: Revision, started: real, completed: real)
      requires Valid() && run in runs && runs[run] == Unpublished(t, schedule, started, completed)
      modifies this`runs, this`attempts, this`history
      ensures Valid() && Took(old(Rows()), old(history), RecordLost(run))
      ensures run in runs && runs[run] == Done(LostLease)
      ensures LastAttempt(attempts, run, t, started, completed, AttemptLate)
    {
      hide Run;
      attempts := attempts + [RowOf(run, t, started, completed, AttemptLate)];
      runs := runs[run := Done(LostLease)];
      RecordStep(RecordLost(run), old(Rows()), old(history));
    }

    /** One execution of a leased job, with anything at all happening between its transactions. It leaves
        exactly one attempt row if it ran a model and returns, and none otherwise; what it published was
        timely. */
    method Execute(run: nat, t: Ticket, now: real, startedAt: real, completedAt: real, result: Result, w: Interleaving)
      returns (outcome: Outcome)
      requires Valid() && run !in runs && AllLeaveAlone(w, run)
      modifies this
      ensures Valid() && old(history) <= history
      ensures run in runs && runs[run] == Done(outcome) && outcome != Crashed
      ensures CountBy(attempts, run) == if RanAndReturned(outcome) then 1 else 0
      ensures outcome.AlreadyStored? || outcome.Published? ==> KeyOf(t) in predictions
      ensures outcome.Published? ==> result.Output? && predictions[KeyOf(t)].digest == result.digest
      ensures outcome == Published(true) ==>
              MadeAt(cfg, history, |history| - 1, KeyOf(t)) && predictions[KeyOf(t)].run == run
      ensures RanAndReturned(outcome) ==>
              LastAttempt(attempts, run, t, startedAt, completedAt, StatusOf(outcome, result))
      ensures Undisturbed(w) ==> outcome == OutcomeAlone(cfg, old(Rows()), t, now, startedAt, completedAt, result)
    {
      hide Apply, Run, TimelyPublication, KeyOf, CountBy, LastAttempt, OutcomeAlone;
      outcome := Advance(run, t, now, startedAt, completedAt, result, w);
      OneRowPerExecution(cfg, history, run);
    }

    method Advance(run: nat, t: Ticket, now: real, startedAt: real, completedAt: real, result: Result, w: Interleaving)
      returns (outcome: Outcome)
      requires Valid() && run !in runs && AllLeaveAlone(w, run)
      modifies this
      ensures Valid() && old(history) <= history
      ensures run in runs && runs[run] == Done(outcome) && outcome != Crashed
      ensures outcome.AlreadyStored? || outcome.Published? ==> KeyOf(t) in predictions
      ensures outcome.Published? ==> result.Output? && predictions[KeyOf(t)].digest == result.digest
      ensures outcome == Published(true) ==>
              MadeAt(cfg, history, |history| - 1, KeyOf(t)) && predictions[KeyOf(t)].run == run
      ensures RanAndReturned(outcome) ==>
              LastAttempt(attempts, run, t, startedAt, completedAt, StatusOf(outcome, result))
      ensures Undisturbed(w) ==> outcome == OutcomeAlone(cfg, old(Rows()), t, now, startedAt, completedAt, result)
    {
      hide Apply, Run, MadeAt, KeyOf, LeavesAlone, LastAttempt, EndsEarly, IsScheduled, ScheduleOf, BeforeDeadline,
           MayPublish, NotTakenUp, OutcomeAlone;
      ghost var s := Rows();
      EndedAlone(cfg, s, t, now, startedAt, completedAt, result);
      var schedule, early := Begin(run, t, now, startedAt, w);
      if early.Some? {
        return early.value;
      }
      Interfere(w.whileRunning, run);
      var ended := CompleteTransaction(run, t, schedule, startedAt, completedAt, result);
      if ended.Some? {
        return ended.value;
      }
      Interfere(w.afterModel, run);
      if Undisturbed(w) {
        RunsAlone(cfg, s, Rows(), t, now, startedAt, completedAt, result);
      }
      outcome := Conclude(run, t, schedule, startedAt, completedAt, result.digest, w.afterRollback);
    }

    /** The schedule and the freeze, or the reason that the ticket is not taken up. */
    method TakeUp(run: nat, t: Ticket, now: real, w: Interleaving)
      returns (schedule: Revision, problem: Option<Problem>)
      requires Valid() && run !in runs && AllLeaveAlone(w, run)
      modifies this
      ensures Valid() && old(history) <= history && run in runs
      ensures runs[run] == if problem.None? then Frozen(t, schedule) else Done(Raised(problem.value))
      ensures Undisturbed(w) ==>
                && problem == NotTakenUp(cfg, old(Rows()), t, now) && SameTables(old(Rows()), Rows())
                && (problem.None? ==> IsScheduled(cfg, old(Rows()), t) && schedule == ScheduleOf(cfg, old(Rows()), t))
    {
      hide Apply, Run, LeavesAlone, BeforeDeadline, LoadSchedule, Freezing, ScheduleOf, IsScheduled;
      schedule := Revision(0, 0.0, None, false);
      ghost var s := Rows();
      ScheduledIffLoaded(cfg, s, t);
      var loaded := LoadTransaction(run, t);
      if loaded.None? {
        return schedule, Some(ScheduleGone);
      }
      schedule := loaded.value;
      Interfere(w.afterLoad, run);
      ghost var here := Rows();
      problem := FreezeTransaction(run, t, schedule, now);
      if Undisturbed(w) {
        SameSchedule(cfg, s, here, t);
        FreezesIff(cfg, here, t, now);
      }
    }

    /** Up to the start of the model, or the outcome that comes instead. */
    method Begin(run: nat, t: Ticket, now: real, startedAt: real, w: Interleaving)
      returns (schedule: Revision, early: Option<Outcome>)
      requires Valid() && run !in runs && AllLeaveAlone(w, run)
      modifies this
      ensures Valid() && old(history) <= history && run in runs
      ensures runs[run] == if early.None? then Running(t, schedule, startedAt) else Done(early.value)
      ensures early.Some? ==> early.value.Raised? || early.value == AlreadyStored || early.value.StartTooLate?
      ensures early == Some(AlreadyStored) ==> KeyOf(t) in predictions
      ensures Undisturbed(w) ==>
                && early == EndsEarly(cfg, old(Rows()), t, now, startedAt)
                && (early.None? ==> IsScheduled(cfg, old(Rows()), t) && schedule == ScheduleOf(cfg, old(Rows()), t))
                && SameTables(old(Rows()), Rows())
    {
      hide Apply, Run, LeavesAlone, BeforeDeadline, HasTimelyAttempt, NotTakenUp, ScheduleOf, IsScheduled, Checking,
           Starting;
      schedule, early := Revision(0, 0.0, None, false), None;
      var taken, problem := TakeUp(run, t, now, w);
      if problem.Some? {
        early := Some(Raised(problem.value));
        return;
      }
      schedule := taken;
      Interfere(w.afterFreeze, run);
      var stored, prior := CheckTransaction(run, t, schedule);
      if stored {
        early := Some(AlreadyStored);
        return;
      }
      Interfere(w.afterCheck, run);
      early := StartTransaction(run, t, schedule, prior, startedAt);
    }

    /** The publish transaction, and the late row if it was rolled back. */
    method Conclude(run: nat, t: Ticket, schedule: Revision, startedAt: real, completedAt: real, digest: nat,
                    others: seq<Step>)
      returns (outcome: Outcome)
      requires Valid() && run in runs && runs[run] == Finished(t, schedule, startedAt, completedAt, digest)
      requires LeavesAlone(others, run)
      modifies this
      ensures Valid() && old(history) <= history
      ensures run in runs && runs[run] == Done(outcome)
      ensures outcome == Raised(Conflict) || outcome == LostLease || outcome.Published?
      ensures outcome.Published? ==> KeyOf(t) in predictions && predictions[KeyOf(t)].digest == digest
      ensures outcome == Published(true) ==>
              MadeAt(cfg, history, |history| - 1, KeyOf(t)) && predictions[KeyOf(t)].run == run
      ensures RanAndReturned(outcome) ==>
              LastAttempt(attempts, run, t, startedAt, completedAt,
                          if outcome.Published? then AttemptSucceeded else AttemptLate)
      ensures KeyOf(t) !in old(predictions) ==>
              outcome == if MayPublish(cfg, old(Rows()), t, completedAt) then Published(true) else LostLease
    {
      hide Apply, Run, MadeAt, KeyOf, LeavesAlone, MayPublish, LastAttempt;
      ghost var before, past := Rows(), history;
      var published := PublishTransaction(run, t, schedule, startedAt, completedAt, digest);
      if published.Some? {
        if published.value == Published(true) {
          NewPredictionIsTimely(cfg, past, run, t, before, Rows());
        }
        return published.value;
      }
      Interfere(others, run);
      RecordLostTransaction(run, t, schedule, startedAt, completedAt);
      outcome := LostLease;
    }

    /** The job handler: a job is reported as finalized exactly when the publish transaction finished it. */
    method Handle(run: nat, t: Ticket, now: real, startedAt: real, completedAt: real, result: Result, w: Interleaving)
      returns (handled: Handled, outcome: Outcome)
      requires Valid() && run !in runs && AllLeaveAlone(w, run)
      modifies this
      ensures Valid() && old(history) <= history && run in runs && runs[run] == Done(outcome)
      ensures CountBy(attempts, run) == if RanAndReturned(outcome) then 1 else 0
      ensures handled == Returned(true) <==> outcome.Published?
      ensures handled == Returned(false) <==> outcome == AlreadyStored
      ensures handled == RetryLater <==> outcome == ModelFailed(true)
      ensures handled == GiveUp <==>
                || outcome == ModelFailed(false) || outcome.StartTooLate?
                || outcome == LateResponse || outcome == LostLease
    {
      hide Apply, Run, TimelyPublication, KeyOf, CountBy;
      outcome := Execute(run, t, now, startedAt, completedAt, result, w);
      match outcome {
        case Raised(problem) => handled := Propagated(problem);
        case AlreadyStored => handled := Returned(false);
        case Published(_) => handled := Returned(true);
        case ModelFailed(retryable) => handled := if retryable then RetryLater else GiveUp;
        case StartTooLate(_) => handled := GiveUp;
        case LateResponse => handled := GiveUp;
        case LostLease => handled := GiveUp;
        case Crashed => handled := WorkerGone;
      }
    }
  }

  lemma NewPredictionIsTimely(cfg: Settings, past: seq<Step>, run: nat, t: Ticket, before: State, after: State)
    requires before == Run(cfg, past) && after == Apply(cfg, before, Publish(run))
    requires run in before.runs && before.runs[run].Finished? && before.runs[run].t == t
    requires KeyOf(t) !in before.predictions && KeyOf(t) in after.predictions
    ensures MadeAt(cfg, past + [Publish(run)], |past|, KeyOf(t))
    ensures after.predictions[KeyOf(t)].run == run
  {
    hide Apply, KeyOf;
    var steps := past + [Publish(run)];
    assert steps[..|past|] == past && steps[..|past| + 1] == steps;
    RunKeepsInv(cfg, past);
    StoredIsTimely(cfg, before, Publish(run), KeyOf(t));
  }
}
