/** The retry queue of packages/scheduler/index.ts: schedule, cancel, and the job-processing tick. */
module Scheduler {
  import opened Powers
  import opened Sets

  type JobId = string

  datatype Status = Pending | Running | Completed | Failed | Cancelled

  /** A row of scheduler_jobs. */
  datatype Job = Job(jobType: string, scheduledAt: int, maxAttempts: int, attempts: nat,
                     backoffMs: real, backoffMultiplier: real, status: Status, createdAt: int)

  datatype JobOptions = JobOptions(scheduledAt: int, maxAttempts: int, backoffMs: real, backoffMultiplier: real)

  const BATCH_LIMIT := 10
  const RETENTION := 86400

  function OrInt(v: int, default: int): int {
    if v == 0 then default else v
  }

  function OrReal(v: real, default: real): real {
    if v == 0.0 then default else v
  }

  /** The row `schedule` inserts; an option that is zero (or absent, given as zero) takes its default. */
  function NewJob(jobType: string, options: JobOptions, now: int): Job {
    Job(jobType, OrInt(options.scheduledAt, now), OrInt(options.maxAttempts, 3), 0,
        OrReal(options.backoffMs, 1000.0), OrReal(options.backoffMultiplier, 2.0), Pending, now)
  }

  /** The calls a job may take: a non-positive maximum still allows one. */
  function Limit(job: Job): nat {
    if job.maxAttempts < 1 then 1 else job.maxAttempts
  }

  /** The wait before the retry that follows the given number of attempts, in seconds. */
  function Delay(job: Job, attempts: nat): int
    requires attempts >= 1
  {
    (job.backoffMs * RealPow(job.backoffMultiplier, attempts - 1) / 1000.0).Floor
  }

  /** What other code does between ticks, and while a handler is awaited. */
  datatype Action =
    | Schedule(id: JobId, jobType: string, options: JobOptions, now: int)
    | Cancel(id: JobId)
    | Register(jobType: string)
    | Unregister(jobType: string)

  /** How one handler call went: its outcome (a timeout is a failure), and what happened meanwhile. */
  datatype Call = Call(ok: bool, during: seq<Action>)

  /** How the latest row of an identifier started: its first due time, and the calls its earlier rows had taken. */
  datatype Origin = Origin(due: int, calls: nat)

  /**
   * The table and the handlers. The rest is history: every handler call, each identifier ever used as often as it
   * may be called, and the origin of its latest row.
   */
  datatype State = State(rows: map<JobId, Job>, handlers: set<string>,
                         calls: seq<JobId>, allowance: multiset<JobId>, origins: map<JobId, Origin>)

  function Init(): State {
    State(map[], {}, [], multiset{}, map[])
  }

  function CallCount(s: State, id: JobId): nat {
    multiset(s.calls)[id]
  }

  function Act(s: State, a: Action): State {
    match a
    case Schedule(id, jobType, options, now) =>
      if id in s.rows then s
      else
        var job, called := NewJob(jobType, options, now), CallCount(s, id);
        s.(rows := s.rows[id := job], allowance := s.allowance[id := called + Limit(job)],
           origins := s.origins[id := Origin(job.scheduledAt, called)])
    case Cancel(id) =>
      if id in s.rows && s.rows[id].status.Pending? then s.(rows := s.rows[id := s.rows[id].(status := Cancelled)]) else s
    case Register(jobType) => s.(handlers := s.handlers + {jobType})
    case Unregister(jobType) => s.(handlers := s.handlers - {jobType})
  }

  function ActAll(s: State, actions: seq<Action>): State
    decreases |actions|
  {
    if actions == [] then s else ActAll(Act(s, actions[0]), actions[1..])
  }

  predicate Due(job: Job, now: int) {
    job.status.Pending? && job.scheduledAt <= now
  }

  /** The rows a tick may select: due, earliest first, at most ten, ties in any order. */
  ghost predicate IsBatch(rows: map<JobId, Job>, batch: seq<JobId>, now: int) {
    && |batch| <= BATCH_LIMIT
    && (forall k :: 0 <= k < |batch| ==> batch[k] in rows && Due(rows[batch[k]], now))
    && (forall k, l :: 0 <= k < l < |batch| ==>
          batch[k] != batch[l] && rows[batch[k]].scheduledAt <= rows[batch[l]].scheduledAt)
    && (forall id :: id in rows && Due(rows[id], now) && id !in batch ==>
          |batch| == BATCH_LIMIT && forall k :: 0 <= k < |batch| ==> rows[batch[k]].scheduledAt <= rows[id].scheduledAt)
  }

  function StartJob(s: State, id: JobId): State
    requires id in s.rows
  {
    s.(rows := s.rows[id := s.rows[id].(status := Running, attempts := s.rows[id].attempts + 1)], calls := s.calls + [id])
  }

  /** The row update after a handler call; `selected` is the row as the tick read it. */
  function FinishJob(row: Job, selected: Job, now: int, ok: bool): Job {
    if ok then row.(status := Completed)
    else if selected.attempts + 1 >= selected.maxAttempts then row.(status := Failed)
    else row.(status := Pending, scheduledAt := now + Delay(selected, selected.attempts + 1))
  }

  lemma {:induction false} ActAllKeepsRows(s: State, actions: seq<Action>)
    ensures forall id :: id in s.rows ==> id in ActAll(s, actions).rows
    decreases |actions|
  {
    if actions != [] {
      ActAllKeepsRows(Act(s, actions[0]), actions[1..]);
    }
  }

  function RunJob(s: State, id: JobId, selected: Job, now: int, call: Call): State
    requires id in s.rows
    ensures forall i :: i in s.rows ==> i in RunJob(s, id, selected, now, call).rows
  {
    if selected.jobType !in s.handlers then s
    else
      var s1 := ActAll(StartJob(s, id), call.during);
      ActAllKeepsRows(StartJob(s, id), call.during);
      s1.(rows := s1.rows[id := FinishJob(s1.rows[id], selected, now, call.ok)])
  }

  /** The loop over the selected rows. */
  function RunBatch(s: State, selected: map<JobId, Job>, batch: seq<JobId>, calls: seq<Call>, now: int): State
    requires |batch| == |calls| && forall k :: 0 <= k < |batch| ==> batch[k] in s.rows && batch[k] in selected
    decreases |batch|
  {
    if batch == [] then s
    else RunBatch(RunJob(s, batch[0], selected[batch[0]], now, calls[0]), selected, batch[1..], calls[1..], now)
  }

  predicate Terminal(status: Status) {
    status.Completed? || status.Failed? || status.Cancelled?
  }

  function Cleanup(s: State, now: int): State {
    s.(rows := map id | id in s.rows && !(Terminal(s.rows[id].status) && s.rows[id].createdAt < now - RETENTION) :: s.rows[id])
  }

  function Tick(s: State, batch: seq<JobId>, calls: seq<Call>, now: int): State
    requires |batch| == |calls| && forall k :: 0 <= k < |batch| ==> batch[k] in s.rows
  {
    Cleanup(RunBatch(s, s.rows, batch, calls, now), now)
  }

  datatype Event = Outside(action: Action) | TickEvent(batch: seq<JobId>, calls: seq<Call>, now: int)

  ghost predicate Enabled(s: State, e: Event) {
    e.TickEvent? ==> |e.batch| == |e.calls| && IsBatch(s.rows, e.batch, e.now)
  }

  ghost function Step(s: State, e: Event): State
    requires Enabled(s, e)
  {
    match e
    case Outside(action) => Act(s, action)
    case TickEvent(batch, calls, now) => Tick(s, batch, calls, now)
  }

  /** Non-overlapping ticks: every event starts where the previous one ended. */
  ghost predicate IsRun(s: State, events: seq<Event>)
    decreases |events|
  {
    events == [] || (Enabled(s, events[0]) && IsRun(Step(s, events[0]), events[1..]))
  }

  ghost function After(s: State, events: seq<Event>): State
    requires IsRun(s, events)
    decreases |events|
  {
    if events == [] then s else After(Step(s, events[0]), events[1..])
  }

  // ---- The invariant of one row ----

  predicate StandardBackoff(job: Job) {
    job.backoffMs == 1000.0 && job.backoffMultiplier == 2.0
  }

  /** What holds of a row whenever its job is not being run. */
  ghost predicate RowOk(s: State, id: JobId) {
    id in s.rows ==>
      var job := s.rows[id];
      && id in s.origins && s.allowance[id] == s.origins[id].calls + Limit(job)
      && s.origins[id].calls + job.attempts == CallCount(s, id)
      && (match job.status
          case Running => false
          case Pending => job.attempts < Limit(job)
          case Cancelled => job.attempts < Limit(job)
          case Completed => 1 <= job.attempts <= Limit(job)
          case Failed => job.attempts == Limit(job))
      && (StandardBackoff(job) && (job.status.Pending? || job.status.Cancelled?)
          ==> job.scheduledAt >= s.origins[id].due + Pow2(job.attempts) - 1)
  }

  ghost predicate CallsOk(s: State, id: JobId) {
    CallCount(s, id) <= s.allowance[id]
  }

  ghost predicate Inv(s: State) {
    forall id :: RowOk(s, id) && CallsOk(s, id)
  }

  lemma ActKeepsRow(s: State, a: Action, id: JobId)
    requires RowOk(s, id) && CallsOk(s, id)
    ensures RowOk(Act(s, a), id) && CallsOk(Act(s, a), id)
  {
    assert Pow2(0) == 1;
  }

  lemma {:induction false} ActAllKeepsRow(s: State, actions: seq<Action>, id: JobId)
    requires RowOk(s, id) && CallsOk(s, id)
    ensures RowOk(ActAll(s, actions), id) && CallsOk(ActAll(s, actions), id)
    decreases |actions|
  {
    if actions != [] {
      ActKeepsRow(s, actions[0], id);
      ActAllKeepsRow(Act(s, actions[0]), actions[1..], id);
    }
  }

  /** While its handler runs, nothing else changes a job's row or calls it. */
  lemma {:induction false} RunningIsUntouched(s: State, actions: seq<Action>, id: JobId)
    requires id in s.rows && s.rows[id].status.Running?
    ensures var s' := ActAll(s, actions);
            && id in s'.rows && s'.rows[id] == s.rows[id] && s'.calls == s.calls
            && s'.allowance[id] == s.allowance[id]
            && (id in s.origins ==> id in s'.origins && s'.origins[id] == s.origins[id])
    decreases |actions|
  {
    if actions != [] {
      RunningIsUntouched(Act(s, actions[0]), actions[1..], id);
    }
  }

  // ---- One tick keeps it ----

  /** A selected row at its turn: as it was read, unless it was cancelled while an earlier handler was awaited. */
  predicate Quieted(before: Job, after: Job) {
    after == before || (before.status.Pending? && after == before.(status := Cancelled))
  }

  lemma {:induction false} ActAllQuiets(s: State, actions: seq<Action>, id: JobId)
    requires id in s.rows
    ensures id in ActAll(s, actions).rows && Quieted(s.rows[id], ActAll(s, actions).rows[id])
    decreases |actions|
  {
    if actions != [] {
      ActAllQuiets(Act(s, actions[0]), actions[1..], id);
    }
  }

  ghost predicate Ready(s: State, selected: map<JobId, Job>, batch: seq<JobId>) {
    && (forall k, l :: 0 <= k < l < |batch| ==> batch[k] != batch[l])
    && (forall k :: 0 <= k < |batch| ==>
          && batch[k] in s.rows && batch[k] in selected && selected[batch[k]].status.Pending?
          && Quieted(selected[batch[k]], s.rows[batch[k]]))
  }

  lemma OtherRowAfterRun(s: State, id: JobId, selected: Job, now: int, call: Call, i: JobId)
    requires Inv(s) && id in s.rows && i in s.rows && i != id
    ensures var s' := RunJob(s, id, selected, now, call); i in s'.rows && Quieted(s.rows[i], s'.rows[i])
  {
    assert RowOk(s, i);
    ActAllQuiets(StartJob(s, id), call.during, i);
  }

  lemma OwnRowAfterRun(s: State, id: JobId, selected: Job, now: int, call: Call)
    requires Inv(s) && id in s.rows && selected.status.Pending? && Quieted(selected, s.rows[id])
    requires selected.jobType in s.handlers && id in s.origins
    ensures var s' := RunJob(s, id, selected, now, call);
            && id in s'.rows
            && s'.rows[id]
               == FinishJob(s.rows[id].(status := Running, attempts := s.rows[id].attempts + 1), selected, now, call.ok)
            && s'.calls == s.calls + [id]
            && s'.allowance[id] == s.allowance[id]
            && id in s'.origins && s'.origins[id] == s.origins[id]
  {
    assert RowOk(s, id);
    RunningIsUntouched(StartJob(s, id), call.during, id);
  }

  lemma StandardDelay(job: Job, attempts: nat)
    requires StandardBackoff(job) && attempts >= 1
    ensures Delay(job, attempts) == Pow2(attempts - 1)
  {
    RealPowTwo(attempts - 1);
    assert 1000.0 * RealPow(2.0, attempts - 1) / 1000.0 == RealPow(2.0, attempts - 1);
  }

  lemma RunJobKeepsOwnRow(s: State, id: JobId, selected: Job, now: int, call: Call)
    requires Inv(s) && id in s.rows && selected.status.Pending? && Quieted(selected, s.rows[id])
    requires selected.scheduledAt <= now && selected.jobType in s.handlers
    ensures var s' := RunJob(s, id, selected, now, call); RowOk(s', id) && CallsOk(s', id)
  {
    assert RowOk(s, id) && CallsOk(s, id);
    OwnRowAfterRun(s, id, selected, now, call);
    if StandardBackoff(selected) {
      StandardDelay(selected, selected.attempts + 1);
    }
  }

  lemma RunJobKeepsOtherRow(s: State, id: JobId, selected: Job, now: int, call: Call, i: JobId)
    requires Inv(s) && id in s.rows && i != id
    ensures var s' := RunJob(s, id, selected, now, call); RowOk(s', i) && CallsOk(s', i)
  {
    assert RowOk(s, i) && CallsOk(s, i);
    var s1 := StartJob(s, id);
    assert RowOk(s1, i) && CallsOk(s1, i);
    ActAllKeepsRow(s1, call.during, i);
  }

  lemma RunJobKeepsInv(s: State, id: JobId, selected: Job, now: int, call: Call)
    requires Inv(s) && id in s.rows && selected.status.Pending? && Quieted(selected, s.rows[id])
    requires selected.scheduledAt <= now
    ensures Inv(RunJob(s, id, selected, now, call))
  {
    if selected.jobType in s.handlers {
      forall i
        ensures RowOk(RunJob(s, id, selected, now, call), i) && CallsOk(RunJob(s, id, selected, now, call), i)
      {
        if i == id {
          RunJobKeepsOwnRow(s, id, selected, now, call);
        } else {
          RunJobKeepsOtherRow(s, id, selected, now, call, i);
        }
      }
    }
  }

  lemma RestStaysReady(s: State, selected: map<JobId, Job>, batch: seq<JobId>, call: Call, now: int)
    requires Inv(s) && batch != [] && Ready(s, selected, batch)
    ensures Ready(RunJob(s, batch[0], selected[batch[0]], now, call), selected, batch[1..])
  {
    var s' := RunJob(s, batch[0], selected[batch[0]], now, call);
    forall k | 1 <= k < |batch|
      ensures batch[k] in s'.rows && Quieted(selected[batch[k]], s'.rows[batch[k]])
    {
      OtherRowAfterRun(s, batch[0], selected[batch[0]], now, call, batch[k]);
    }
  }

  lemma {:induction false} BatchKeepsInv(s: State, selected: map<JobId, Job>, batch: seq<JobId>, calls: seq<Call>, now: int)
    requires |batch| == |calls| && Inv(s) && Ready(s, selected, batch)
    requires forall k :: 0 <= k < |batch| ==> selected[batch[k]].scheduledAt <= now
    ensures Inv(RunBatch(s, selected, batch, calls, now))
    decreases |batch|
  {
    if batch != [] {
      RunJobKeepsInv(s, batch[0], selected[batch[0]], now, calls[0]);
      RestStaysReady(s, selected, batch, calls[0], now);
      BatchKeepsInv(RunJob(s, batch[0], selected[batch[0]], now, calls[0]), selected, batch[1..], calls[1..], now);
    }
  }

  lemma CleanupKeepsInv(s: State, now: int)
    requires Inv(s)
    ensures Inv(Cleanup(s, now))
  {
    forall id
      ensures RowOk(Cleanup(s, now), id) && CallsOk(Cleanup(s, now), id)
    {
      assert RowOk(s, id) && CallsOk(s, id);
    }
  }

  lemma StepKeepsInv(s: State, e: Event)
    requires Inv(s) && Enabled(s, e)
    ensures Inv(Step(s, e))
  {
    match e
    case Outside(action) =>
      forall id
        ensures RowOk(Act(s, action), id) && CallsOk(Act(s, action), id)
      {
        assert RowOk(s, id) && CallsOk(s, id);
        ActKeepsRow(s, action, id);
      }
    case TickEvent(batch, calls, now) =>
      assert Ready(s, s.rows, batch);
      BatchKeepsInv(s, s.rows, batch, calls, now);
      CleanupKeepsInv(RunBatch(s, s.rows, batch, calls, now), now);
  }

  lemma {:induction false} RunKeepsInv(s: State, events: seq<Event>)
    requires Inv(s) && IsRun(s, events)
    ensures Inv(After(s, events))
    decreases |events|
  {
    if events != [] {
      StepKeepsInv(s, events[0]);
      RunKeepsInv(Step(s, events[0]), events[1..]);
    }
  }

  // ---- What it says about every run ----

  /**
   * Between ticks no job is running, a row's attempts count its handler calls, besides those of earlier rows under
   * the same identifier, and no row is called more than its limit.
   */
  lemma AttemptsAreCalls(events: seq<Event>, id: JobId)
    requires IsRun(Init(), events)
    ensures var s := After(Init(), events);
            && (id in s.rows ==>
                  && !s.rows[id].status.Running? && s.rows[id].attempts <= Limit(s.rows[id])
                  && id in s.origins && CallCount(s, id) == s.origins[id].calls + s.rows[id].attempts)
            && CallCount(s, id) <= s.allowance[id]
  {
    RunKeepsInv(Init(), events);
    var s := After(Init(), events);
    assert RowOk(s, id) && CallsOk(s, id);
  }

  /**
   * With the default backoff, a job still waiting after k failed attempts is due at least 2^k - 1 seconds after its
   * first due time.
   */
  lemma BackoffGrows(events: seq<Event>, id: JobId)
    requires IsRun(Init(), events)
    ensures var s := After(Init(), events);
            id in s.rows && s.rows[id].status.Pending? && StandardBackoff(s.rows[id])
            ==> id in s.origins && s.rows[id].scheduledAt >= s.origins[id].due + Pow2(s.rows[id].attempts) - 1
  {
    RunKeepsInv(Init(), events);
    assert RowOk(After(Init(), events), id);
  }

  lemma CallsWithinAllowance(s: State)
    requires Inv(s)
    ensures |s.calls| <= |s.allowance|
  {
    forall id
      ensures multiset(s.calls)[id] <= s.allowance[id]
    {
      assert CallsOk(s, id);
    }
    assert s.allowance == multiset(s.calls) + (s.allowance - multiset(s.calls));
    assert |s.allowance| == |multiset(s.calls)| + |s.allowance - multiset(s.calls)|;
  }

  /** All calls of a run together stay within the limits of the jobs it scheduled. */
  lemma TotalCallsBounded(events: seq<Event>)
    requires IsRun(Init(), events)
    ensures var s := After(Init(), events); |s.calls| <= |s.allowance|
  {
    RunKeepsInv(Init(), events);
    CallsWithinAllowance(After(Init(), events));
  }

  ghost predicate SchedulesNothing(actions: seq<Action>) {
    forall k :: 0 <= k < |actions| ==> !actions[k].Schedule?
  }

  ghost predicate QuietEvent(e: Event) {
    match e
    case Outside(action) => !action.Schedule?
    case TickEvent(_, calls, _) => forall k :: 0 <= k < |calls| ==> SchedulesNothing(calls[k].during)
  }

  /** The calls a job may still take: none once it is completed, failed, cancelled or deleted. */
  function RemainingOf(s: State, id: JobId): nat {
    if id in s.rows && !Terminal(s.rows[id].status) && s.rows[id].attempts < Limit(s.rows[id])
    then Limit(s.rows[id]) - s.rows[id].attempts
    else 0
  }

  lemma {:induction false} QuietActions(s: State, actions: seq<Action>, id: JobId)
    requires SchedulesNothing(actions)
    ensures RemainingOf(ActAll(s, actions), id) <= RemainingOf(s, id) && ActAll(s, actions).calls == s.calls
    decreases |actions|
  {
    if actions != [] {
      QuietActions(Act(s, actions[0]), actions[1..], id);
    }
  }

  /** What a job may still be called in the rest of a tick and after it: a selected one even if it was cancelled. */
  function RemainingInTick(s: State, selected: map<JobId, Job>, batch: seq<JobId>, id: JobId): nat {
    if id in batch && id in selected && selected[id].attempts < Limit(selected[id])
    then Limit(selected[id]) - selected[id].attempts
    else RemainingOf(s, id)
  }

  lemma QuietTurn(s: State, id: JobId, selected: Job, now: int, call: Call, i: JobId)
    requires Inv(s) && id in s.rows && selected.status.Pending? && Quieted(selected, s.rows[id])
    requires SchedulesNothing(call.during)
    ensures var s' := RunJob(s, id, selected, now, call);
            if i == id then CallCount(s', i) + RemainingOf(s', i) <= CallCount(s, i) + (Limit(selected) - selected.attempts)
            else CallCount(s', i) == CallCount(s, i) && RemainingOf(s', i) <= RemainingOf(s, i)
  {
    assert RowOk(s, id);
    if selected.jobType in s.handlers {
      QuietActions(StartJob(s, id), call.during, i);
      OwnRowAfterRun(s, id, selected, now, call);
    }
  }

  /** Per job, a call in a quiet tick takes one from what the job may still be called. */
  lemma {:induction false} QuietBatch(s: State, selected: map<JobId, Job>, batch: seq<JobId>, calls: seq<Call>, now: int,
                                      id: JobId)
    requires |batch| == |calls| && Inv(s) && Ready(s, selected, batch)
    requires forall k :: 0 <= k < |batch| ==> selected[batch[k]].scheduledAt <= now
    requires forall k :: 0 <= k < |batch| ==> selected[batch[k]].attempts < Limit(selected[batch[k]])
    requires forall k :: 0 <= k < |calls| ==> SchedulesNothing(calls[k].during)
    ensures var s' := RunBatch(s, selected, batch, calls, now);
            CallCount(s', id) + RemainingOf(s', id) <= CallCount(s, id) + RemainingInTick(s, selected, batch, id)
    decreases |batch|
  {
    if batch != [] {
      var s1 := RunJob(s, batch[0], selected[batch[0]], now, calls[0]);
      QuietTurn(s, batch[0], selected[batch[0]], now, calls[0], id);
      RunJobKeepsInv(s, batch[0], selected[batch[0]], now, calls[0]);
      RestStaysReady(s, selected, batch, calls[0], now);
      QuietBatch(s1, selected, batch[1..], calls[1..], now, id);
      assert id in batch <==> id == batch[0] || id in batch[1..];
    }
  }

  lemma CleanupKeepsRemaining(s: State, now: int, id: JobId)
    ensures RemainingOf(Cleanup(s, now), id) == RemainingOf(s, id) && CallCount(Cleanup(s, now), id) == CallCount(s, id)
  {
  }

  lemma QuietTick(s: State, batch: seq<JobId>, calls: seq<Call>, now: int, id: JobId)
    requires Inv(s) && |batch| == |calls| && IsBatch(s.rows, batch, now)
    requires forall k :: 0 <= k < |calls| ==> SchedulesNothing(calls[k].during)
    ensures var s' := RunBatch(s, s.rows, batch, calls, now);
            CallCount(s', id) + RemainingOf(s', id) <= CallCount(s, id) + RemainingOf(s, id)
  {
    forall k | 0 <= k < |batch|
      ensures s.rows[batch[k]].attempts < Limit(s.rows[batch[k]])
    {
      assert RowOk(s, batch[k]);
    }
    QuietBatch(s, s.rows, batch, calls, now, id);
  }

  lemma QuietStep(s: State, e: Event, id: JobId)
    requires Inv(s) && Enabled(s, e) && QuietEvent(e)
    ensures CallCount(Step(s, e), id) + RemainingOf(Step(s, e), id) <= CallCount(s, id) + RemainingOf(s, id)
  {
    match e
    case Outside(action) =>
    case TickEvent(batch, calls, now) =>
      QuietTick(s, batch, calls, now, id);
      CleanupKeepsRemaining(RunBatch(s, s.rows, batch, calls, now), now, id);
  }

  /** Per job: over a run that schedules nothing, the calls it takes and those it may still take are within those it could. */
  lemma {:induction false} QuietRunSpends(s: State, events: seq<Event>, id: JobId)
    requires Inv(s) && IsRun(s, events) && forall k :: 0 <= k < |events| ==> QuietEvent(events[k])
    ensures var s' := After(s, events); CallCount(s', id) + RemainingOf(s', id) <= CallCount(s, id) + RemainingOf(s, id)
    decreases |events|
  {
    if events != [] {
      assert QuietEvent(events[0]);
      StepKeepsInv(s, events[0]);
      QuietStep(s, events[0], id);
      QuietRunSpends(Step(s, events[0]), events[1..], id);
    }
  }

  /** Every job as often as it may still be called. */
  ghost function RemainingBag(s: State, ids: set<JobId>): (bag: multiset<JobId>)
    ensures forall id :: bag[id] == if id in ids then RemainingOf(s, id) else 0
  {
    if ids == {} then multiset{}
    else
      var id :| id in ids;
      RemainingBag(s, ids - {id})[id := RemainingOf(s, id)]
  }

  /** The sum of the remaining attempts of all jobs. */
  ghost function Remaining(s: State): nat {
    |RemainingBag(s, s.rows.Keys)|
  }

  lemma BagsFit(a: multiset<JobId>, b: multiset<JobId>, c: multiset<JobId>, d: multiset<JobId>)
    requires forall id :: a[id] + b[id] <= c[id] + d[id]
    ensures |a| + |b| <= |c| + |d|
  {
    assert forall id :: (a + b)[id] <= (c + d)[id];
    assert c + d == a + b + (c + d - (a + b));
    assert |c + d| == |a + b| + |c + d - (a + b)|;
  }

  /**
   * Over every run that schedules nothing, each handler call lowers the sum of the remaining attempts by at least
   * one, so that the run makes no more calls than that sum.
   */
  lemma QuietRunEnds(s: State, events: seq<Event>)
    requires Inv(s) && IsRun(s, events) && forall k :: 0 <= k < |events| ==> QuietEvent(events[k])
    ensures var s' := After(s, events); |s'.calls| - |s.calls| <= Remaining(s) - Remaining(s')
  {
    var s' := After(s, events);
    forall id
      ensures multiset(s'.calls)[id] + RemainingBag(s', s'.rows.Keys)[id]
              <= multiset(s.calls)[id] + RemainingBag(s, s.rows.Keys)[id]
    {
      QuietRunSpends(s, events, id);
    }
    BagsFit(multiset(s'.calls), RemainingBag(s', s'.rows.Keys), multiset(s.calls), RemainingBag(s, s.rows.Keys));
  }

  /** A job that is completed, failed or cancelled between ticks has none of them. */
  lemma NothingRemains(s: State, id: JobId)
    requires Inv(s) && id in s.rows
    ensures RemainingOf(s, id) == 0 <==> Terminal(s.rows[id].status)
  {
    assert RowOk(s, id);
  }

  // ---- Terminal rows ----

  /** Quiet for one row: through a batch that does not hold the job, only a cancellation can change it. */
  lemma {:induction false} OtherRowAfterBatch(s: State, selected: map<JobId, Job>, batch: seq<JobId>, calls: seq<Call>,
                                              now: int, id: JobId)
    requires |batch| == |calls| && Inv(s) && Ready(s, selected, batch)
    requires forall k :: 0 <= k < |batch| ==> selected[batch[k]].scheduledAt <= now
    requires id in s.rows && id !in batch
    ensures var s' := RunBatch(s, selected, batch, calls, now); id in s'.rows && Quieted(s.rows[id], s'.rows[id])
    decreases |batch|
  {
    if batch != [] {
      RunJobKeepsInv(s, batch[0], selected[batch[0]], now, calls[0]);
      RestStaysReady(s, selected, batch, calls[0], now);
      OtherRowAfterRun(s, batch[0], selected[batch[0]], now, calls[0], id);
      OtherRowAfterBatch(RunJob(s, batch[0], selected[batch[0]], now, calls[0]), selected, batch[1..], calls[1..], now, id);
    }
  }

  /** A row that is completed, failed or cancelled between ticks stays exactly as it is until it is cleaned up. */
  lemma TerminalStays(s: State, e: Event, id: JobId)
    requires Inv(s) && Enabled(s, e) && id in s.rows && Terminal(s.rows[id].status)
    ensures id in Step(s, e).rows ==> Step(s, e).rows[id] == s.rows[id]
    ensures id !in Step(s, e).rows ==> e.TickEvent? && s.rows[id].createdAt < e.now - RETENTION
  {
    assert RowOk(s, id);
    if e.TickEvent? {
      OtherRowAfterBatch(s, s.rows, e.batch, e.calls, e.now, id);
    }
  }

  lemma RunTwo(s: State, selected: map<JobId, Job>, a: JobId, b: JobId, first: Call, second: Call, now: int)
    requires a in s.rows && b in s.rows && a in selected && b in selected
    ensures RunBatch(s, selected, [a, b], [first, second], now)
            == RunJob(RunJob(s, a, selected[a], now, first), b, selected[b], now, second)
  {
    var s1 := RunJob(s, a, selected[a], now, first);
    assert [a, b][1..] == [b] && [first, second][1..] == [second] && [b][1..] == [] && [second][1..] == [];
    assert RunBatch(s1, selected, [b], [second], now) == RunJob(s1, b, selected[b], now, second);
  }

  /** Whether a row is deleted at some point of a run. */
  ghost predicate IsDeleted(s: State, events: seq<Event>, id: JobId)
    requires IsRun(s, events)
    decreases |events|
  {
    events != [] && (id !in Step(s, events[0]).rows || IsDeleted(Step(s, events[0]), events[1..], id))
  }

  /** Over every run, a terminal row found between two events is the same at the end unless it is deleted. */
  lemma {:induction false} TerminalStaysInRun(s: State, events: seq<Event>, id: JobId)
    requires Inv(s) && IsRun(s, events) && id in s.rows && Terminal(s.rows[id].status) && !IsDeleted(s, events, id)
    ensures id in After(s, events).rows && After(s, events).rows[id] == s.rows[id]
    decreases |events|
  {
    if events != [] {
      TerminalStays(s, events[0], id);
      StepKeepsInv(s, events[0]);
      TerminalStaysInRun(Step(s, events[0]), events[1..], id);
    }
  }

  /**
   * Within a tick it need not: a job cancelled while an earlier job of the same batch runs is called anyway,
   * and is pending again if that call fails short of its limit.
   */
  lemma CancelledMidTickRuns(s: State, a: JobId, b: JobId, now: int)
    requires Inv(s) && a in s.rows && b in s.rows && IsBatch(s.rows, [a, b], now)
    requires s.rows[a].jobType in s.handlers && s.rows[b].jobType in s.handlers
    requires s.rows[b].attempts + 1 < s.rows[b].maxAttempts
    ensures Act(StartJob(s, a), Cancel(b)).rows[b].status.Cancelled?
    ensures var s' := Tick(s, [a, b], [Call(true, [Cancel(b)]), Call(false, [])], now);
            && CallCount(s', b) == CallCount(s, b) + 1
            && b in s'.rows && s'.rows[b].status.Pending?
  {
    assert [a, b][0] == a && [a, b][1] == b;
    assert RowOk(s, a) && RowOk(s, b);
    var first, second := Call(true, [Cancel(b)]), Call(false, []);
    var s1 := RunJob(s, a, s.rows[a], now, first);
    RunJobKeepsInv(s, a, s.rows[a], now, first);
    OwnRowAfterRun(s, a, s.rows[a], now, first);
    OtherRowAfterRun(s, a, s.rows[a], now, first, b);
    assert ActAll(StartJob(s, a), [Cancel(b)]) == Act(StartJob(s, a), Cancel(b));
    OwnRowAfterRun(s1, b, s.rows[b], now, second);
    RunTwo(s, s.rows, a, b, first, second, now);
  }

  /** The state when the turn of the j-th selected job comes. */
  function AtTurn(s: State, batch: seq<JobId>, calls: seq<Call>, now: int, j: nat): State
    requires |batch| == |calls| && j <= |batch| && forall k :: 0 <= k < |batch| ==> batch[k] in s.rows
  {
    RunBatch(s, s.rows, batch[..j], calls[..j], now)
  }

  lemma {:induction false} RunBatchSplit(s: State, selected: map<JobId, Job>, batch: seq<JobId>, calls: seq<Call>, now: int,
                                         j: nat)
    requires |batch| == |calls| && j <= |batch|
    requires forall k :: 0 <= k < |batch| ==> batch[k] in s.rows && batch[k] in selected
    ensures var t := RunBatch(s, selected, batch[..j], calls[..j], now);
            && (forall k :: j <= k < |batch| ==> batch[k] in t.rows)
            && RunBatch(s, selected, batch, calls, now) == RunBatch(t, selected, batch[j..], calls[j..], now)
    decreases j
  {
    if j == 0 {
      assert batch[..0] == [] && batch[0..] == batch && calls[0..] == calls;
    } else {
      var s' := RunJob(s, batch[0], selected[batch[0]], now, calls[0]);
      assert batch[..j][1..] == batch[1..][..j - 1] && calls[..j][1..] == calls[1..][..j - 1];
      assert batch[j..] == batch[1..][j - 1..] && calls[j..] == calls[1..][j - 1..];
      RunBatchSplit(s', selected, batch[1..], calls[1..], now, j - 1);
      forall k | j <= k < |batch|
        ensures batch[k] in RunBatch(s, selected, batch[..j], calls[..j], now).rows
      {
        assert batch[k] == batch[1..][k - 1];
      }
    }
  }

  lemma {:induction false} BatchReady(s: State, selected: map<JobId, Job>, batch: seq<JobId>, calls: seq<Call>, now: int,
                                      j: nat)
    requires |batch| == |calls| && j <= |batch| && Inv(s) && Ready(s, selected, batch)
    requires forall k :: 0 <= k < |batch| ==> selected[batch[k]].scheduledAt <= now
    ensures var t := RunBatch(s, selected, batch[..j], calls[..j], now); Inv(t) && Ready(t, selected, batch[j..])
    decreases j
  {
    if j == 0 {
      assert batch[..0] == [] && batch[0..] == batch;
    } else {
      assert batch[..j][1..] == batch[1..][..j - 1] && calls[..j][1..] == calls[1..][..j - 1];
      assert batch[j..] == batch[1..][j - 1..];
      RunJobKeepsInv(s, batch[0], selected[batch[0]], now, calls[0]);
      RestStaysReady(s, selected, batch, calls[0], now);
      BatchReady(RunJob(s, batch[0], selected[batch[0]], now, calls[0]), selected, batch[1..], calls[1..], now, j - 1);
    }
  }

  lemma {:induction false} ActAllCancels(s: State, actions: seq<Action>, id: JobId)
    requires id in s.rows && ((s.rows[id].status.Pending? && Cancel(id) in actions) || s.rows[id].status.Cancelled?)
    ensures id in ActAll(s, actions).rows && ActAll(s, actions).rows[id].status.Cancelled?
    decreases |actions|
  {
    if actions != [] {
      ActAllCancels(Act(s, actions[0]), actions[1..], id);
    }
  }

  ghost predicate NoCancel(calls: seq<Call>, id: JobId) {
    forall k :: 0 <= k < |calls| ==> Cancel(id) !in calls[k].during
  }

  lemma {:induction false} ActAllKeepsDecided(s: State, actions: seq<Action>, id: JobId)
    requires id in s.rows && (Cancel(id) !in actions || !s.rows[id].status.Pending?)
    ensures id in ActAll(s, actions).rows && ActAll(s, actions).rows[id] == s.rows[id]
    decreases |actions|
  {
    if actions != [] {
      ActAllKeepsDecided(Act(s, actions[0]), actions[1..], id);
    }
  }

  /** A job that is not selected any more, and not cancelled, keeps its row through the rest of a tick. */
  lemma {:induction false} RestKeepsRow(s: State, selected: map<JobId, Job>, batch: seq<JobId>, calls: seq<Call>, now: int,
                                        id: JobId)
    requires |batch| == |calls| && Inv(s) && Ready(s, selected, batch)
    requires forall k :: 0 <= k < |batch| ==> selected[batch[k]].scheduledAt <= now
    requires id in s.rows && id !in batch && (NoCancel(calls, id) || s.rows[id].status.Cancelled?)
    ensures var s' := RunBatch(s, selected, batch, calls, now); id in s'.rows && s'.rows[id] == s.rows[id]
    decreases |batch|
  {
    if batch != [] {
      RunJobKeepsInv(s, batch[0], selected[batch[0]], now, calls[0]);
      RestStaysReady(s, selected, batch, calls[0], now);
      ActAllKeepsDecided(StartJob(s, batch[0]), calls[0].during, id);
      RestKeepsRow(RunJob(s, batch[0], selected[batch[0]], now, calls[0]), selected, batch[1..], calls[1..], now, id);
    }
  }

  /** The turn of a job does not leave it cancelled if it is called, and leaves it alone if it has no handler. */
  lemma OwnTurn(s: State, id: JobId, selected: Job, now: int, call: Call)
    requires Inv(s) && id in s.rows && selected.status.Pending? && Quieted(selected, s.rows[id])
    ensures var s' := RunJob(s, id, selected, now, call);
            id in s'.rows && if selected.jobType in s.handlers then !s'.rows[id].status.Cancelled? else s' == s
  {
    if selected.jobType in s.handlers {
      assert RowOk(s, id);
      OwnRowAfterRun(s, id, selected, now, call);
    }
  }

  /** A cancelled job whose turn is still to come in the rest of a tick. */
  lemma CancelledMeetsTurn(s: State, selected: map<JobId, Job>, batch: seq<JobId>, calls: seq<Call>, now: int, id: JobId,
                           j: nat)
    requires |batch| == |calls| && j < |batch| && batch[j] == id && Inv(s) && Ready(s, selected, batch)
    requires forall k :: 0 <= k < |batch| ==> selected[batch[k]].scheduledAt <= now
    requires s.rows[id].status.Cancelled? && NoCancel(calls, id)
    ensures var t, s' := RunBatch(s, selected, batch[..j], calls[..j], now), RunBatch(s, selected, batch, calls, now);
            id in s'.rows && (s'.rows[id].status.Cancelled? <==> selected[id].jobType !in t.handlers)
  {
    var t := RunBatch(s, selected, batch[..j], calls[..j], now);
    RunBatchSplit(s, selected, batch, calls, now, j);
    BatchReady(s, selected, batch, calls, now, j);
    RestKeepsRow(s, selected, batch[..j], calls[..j], now, id);
    var rest, restCalls := batch[j..], calls[j..];
    OwnTurn(t, id, selected[id], now, restCalls[0]);
    RunJobKeepsInv(t, id, selected[id], now, restCalls[0]);
    RestStaysReady(t, selected, rest, restCalls[0], now);
    RestKeepsRow(RunJob(t, id, selected[id], now, restCalls[0]), selected, rest[1..], restCalls[1..], now, id);
  }

  lemma TurnNext(s: State, batch: seq<JobId>, calls: seq<Call>, now: int, k: nat)
    requires |batch| == |calls| && k < |batch| && forall j :: 0 <= j < |batch| ==> batch[j] in s.rows
    ensures batch[k] in AtTurn(s, batch, calls, now, k).rows
    ensures AtTurn(s, batch, calls, now, k + 1)
            == RunJob(AtTurn(s, batch, calls, now, k), batch[k], s.rows[batch[k]], now, calls[k])
  {
    var upTo, callsUpTo := batch[..k + 1], calls[..k + 1];
    assert upTo[..k] == batch[..k] && callsUpTo[..k] == calls[..k];
    RunBatchSplit(s, s.rows, upTo, callsUpTo, now, k);
    assert upTo[k..] == [batch[k]] && callsUpTo[k..] == [calls[k]];
    assert [batch[k]][1..] == [] && [calls[k]][1..] == [];
  }

  lemma TurnFrom(s: State, batch: seq<JobId>, calls: seq<Call>, now: int, k: nat, j: nat)
    requires |batch| == |calls| && k <= j <= |batch| && forall l :: 0 <= l < |batch| ==> batch[l] in s.rows
    ensures var t := AtTurn(s, batch, calls, now, k);
            && (forall l :: k <= l < j ==> batch[l] in t.rows)
            && AtTurn(s, batch, calls, now, j) == RunBatch(t, s.rows, batch[k..][..j - k], calls[k..][..j - k], now)
  {
    var upTo, callsUpTo := batch[..j], calls[..j];
    assert upTo[..k] == batch[..k] && callsUpTo[..k] == calls[..k];
    RunBatchSplit(s, s.rows, upTo, callsUpTo, now, k);
    assert upTo[k..] == batch[k..][..j - k] && callsUpTo[k..] == calls[k..][..j - k];
    assert forall l :: k <= l < j ==> batch[l] == upTo[l];
  }

  /** Whether the rest of a tick, from the k-th call on, still calls a job. */
  ghost predicate CalledLater(s: State, batch: seq<JobId>, calls: seq<Call>, now: int, k: nat, id: JobId)
    requires |batch| == |calls| && k < |batch| && forall j :: 0 <= j < |batch| ==> batch[j] in s.rows
  {
    exists j :: k < j < |batch| && batch[j] == id && s.rows[id].jobType in AtTurn(s, batch, calls, now, j).handlers
  }

  /** What the cancellation of a job during the k-th call leaves to the rest of the tick. */
  lemma CancelledInCall(s: State, batch: seq<JobId>, calls: seq<Call>, now: int, k: nat, id: JobId)
    requires Inv(s) && |batch| == |calls| && Ready(s, s.rows, batch) && k < |batch| && id != batch[k]
    requires forall j :: 0 <= j < |batch| ==> s.rows[batch[j]].scheduledAt <= now
    requires var t := AtTurn(s, batch, calls, now, k);
             && s.rows[batch[k]].jobType in t.handlers && id in t.rows && t.rows[id].status.Pending?
    requires Cancel(id) in calls[k].during
    ensures var t' := AtTurn(s, batch, calls, now, k + 1);
            && Inv(t') && Ready(t', s.rows, batch[k + 1..]) && id in t'.rows && t'.rows[id].status.Cancelled?
  {
    TurnNext(s, batch, calls, now, k);
    ActAllCancels(StartJob(AtTurn(s, batch, calls, now, k), batch[k]), calls[k].during, id);
    BatchReady(s, s.rows, batch, calls, now, k + 1);
  }

  lemma CancelledAtTurn(s: State, batch: seq<JobId>, calls: seq<Call>, now: int, k: nat, id: JobId, j: nat)
    requires |batch| == |calls| && k < j < |batch| && batch[j] == id
    requires forall l :: 0 <= l < |batch| ==> batch[l] in s.rows && s.rows[batch[l]].scheduledAt <= now
    requires var t' := AtTurn(s, batch, calls, now, k + 1);
             && Inv(t') && Ready(t', s.rows, batch[k + 1..]) && t'.rows[id].status.Cancelled?
    requires NoCancel(calls[k + 1..], id)
    ensures var s' := RunBatch(s, s.rows, batch, calls, now);
            && id in s'.rows
            && (s'.rows[id].status.Cancelled? <==> s.rows[id].jobType !in AtTurn(s, batch, calls, now, j).handlers)
  {
    var t', rest, restCalls := AtTurn(s, batch, calls, now, k + 1), batch[k + 1..], calls[k + 1..];
    var i := j - k - 1;
    assert rest[i] == id;
    CancelledMeetsTurn(t', s.rows, rest, restCalls, now, id, i);
    assert AtTurn(s, batch, calls, now, j) == RunBatch(t', s.rows, rest[..i], restCalls[..i], now) by {
      TurnFrom(s, batch, calls, now, k + 1, j);
    }
    assert RunBatch(s, s.rows, batch, calls, now) == RunBatch(t', s.rows, rest, restCalls, now) by {
      RunBatchSplit(s, s.rows, batch, calls, now, k + 1);
    }
  }

  lemma CancelledUnselected(s: State, batch: seq<JobId>, calls: seq<Call>, now: int, k: nat, id: JobId)
    requires |batch| == |calls| && k < |batch| && id !in batch[k + 1..]
    requires forall l :: 0 <= l < |batch| ==> batch[l] in s.rows && s.rows[batch[l]].scheduledAt <= now
    requires var t' := AtTurn(s, batch, calls, now, k + 1);
             && Inv(t') && Ready(t', s.rows, batch[k + 1..]) && id in t'.rows && t'.rows[id].status.Cancelled?
    ensures var s' := RunBatch(s, s.rows, batch, calls, now); id in s'.rows && s'.rows[id].status.Cancelled?
  {
    RunBatchSplit(s, s.rows, batch, calls, now, k + 1);
    RestKeepsRow(AtTurn(s, batch, calls, now, k + 1), s.rows, batch[k + 1..], calls[k + 1..], now, id);
  }

  lemma CalledOnlyAt(s: State, batch: seq<JobId>, calls: seq<Call>, now: int, k: nat, id: JobId, j: nat)
    requires |batch| == |calls| && k < j < |batch| && batch[j] == id
    requires forall l :: 0 <= l < |batch| ==> batch[l] in s.rows
    requires forall l, m :: 0 <= l < m < |batch| ==> batch[l] != batch[m]
    ensures CalledLater(s, batch, calls, now, k, id)
            <==> s.rows[id].jobType in AtTurn(s, batch, calls, now, j).handlers
  {
  }

  /**
   * A pending job cancelled during the k-th handler call of a tick, and not again later in it, ends the tick
   * cancelled, or cleaned up, exactly when its own turn in the batch does not still come with a handler.
   */
  lemma CancelledMidTick(s: State, batch: seq<JobId>, calls: seq<Call>, now: int, k: nat, id: JobId)
    requires Inv(s) && |batch| == |calls| && IsBatch(s.rows, batch, now) && k < |batch| && id != batch[k]
    requires var t := AtTurn(s, batch, calls, now, k);
             && s.rows[batch[k]].jobType in t.handlers && id in t.rows && t.rows[id].status.Pending?
    requires Cancel(id) in calls[k].during && NoCancel(calls[k + 1..], id)
    ensures var s' := RunBatch(s, s.rows, batch, calls, now);
            && id in s'.rows && (s'.rows[id].status.Cancelled? <==> !CalledLater(s, batch, calls, now, k, id))
            && (id in Tick(s, batch, calls, now).rows ==> Tick(s, batch, calls, now).rows[id] == s'.rows[id])
  {
    CancelledInCall(s, batch, calls, now, k, id);
    if id in batch[k + 1..] {
      var j :| k < j < |batch| && batch[j] == id;
      CancelledAtTurn(s, batch, calls, now, k, id, j);
      CalledOnlyAt(s, batch, calls, now, k, id, j);
    } else {
      CancelledUnselected(s, batch, calls, now, k, id);
      assert forall j :: k < j < |batch| ==> batch[j] == batch[k + 1..][j - k - 1];
    }
  }

  // ---- Bounded wait ----

  predicate IsAhead(s: State, due: int, id: JobId) {
    id in s.rows && s.rows[id].status.Pending? && s.rows[id].scheduledAt <= due
  }

  function Ahead(s: State, due: int): set<JobId> {
    set id | id in s.rows && IsAhead(s, due, id)
  }

  predicate NonNegativeBackoff(job: Job) {
    job.backoffMs >= 0.0 && job.backoffMultiplier >= 0.0
  }

  lemma DelayNonNegative(job: Job, attempts: nat)
    requires NonNegativeBackoff(job) && attempts >= 1
    ensures Delay(job, attempts) >= 0
  {
    RealPowNonNegative(job.backoffMultiplier, attempts - 1);
    var p := RealPow(job.backoffMultiplier, attempts - 1);
    assert job.backoffMs * p >= 0.0;
    assert job.backoffMs * p / 1000.0 >= 0.0;
  }

  /** An action that leaves the waiting job alone: no new job due by then, no handler removed, no cancellation of it. */
  predicate Harmless(a: Action, due: int, waiting: JobId) {
    match a
    case Schedule(_, jobType, options, now) =>
      var job := NewJob(jobType, options, now); job.scheduledAt > due && NonNegativeBackoff(job)
    case Cancel(id) => id != waiting
    case Register(_) => true
    case Unregister(_) => false
  }

  ghost predicate AllHarmless(actions: seq<Action>, due: int, waiting: JobId) {
    forall k :: 0 <= k < |actions| ==> Harmless(actions[k], due, waiting)
  }

  ghost predicate HarmlessEvent(e: Event, due: int, waiting: JobId) {
    match e
    case Outside(action) => Harmless(action, due, waiting)
    case TickEvent(_, calls, _) => forall k :: 0 <= k < |calls| ==> AllHarmless(calls[k].during, due, waiting)
  }

  /** Every pending job has a handler, and no backoff is negative. */
  ghost predicate Served(s: State) {
    forall id :: id in s.rows ==> NonNegativeBackoff(s.rows[id])
                                  && (s.rows[id].status.Pending? ==> s.rows[id].jobType in s.handlers)
  }

  lemma {:induction false} HarmlessActions(s: State, actions: seq<Action>, due: int, waiting: JobId)
    requires AllHarmless(actions, due, waiting) && waiting in s.rows
    ensures var s' := ActAll(s, actions);
            && s.handlers <= s'.handlers && Ahead(s', due) <= Ahead(s, due)
            && (IsAhead(s, due, waiting) ==> waiting in s'.rows && s'.rows[waiting] == s.rows[waiting])
    decreases |actions|
  {
    if actions != [] {
      assert Harmless(actions[0], due, waiting);
      assert Ahead(Act(s, actions[0]), due) <= Ahead(s, due);
      HarmlessActions(Act(s, actions[0]), actions[1..], due, waiting);
    }
  }

  lemma RunJobAhead(s: State, id: JobId, selected: Job, now: int, call: Call, due: int, waiting: JobId)
    requires Inv(s) && id in s.rows && selected.status.Pending? && Quieted(selected, s.rows[id])
    requires selected.scheduledAt <= now && selected.jobType in s.handlers && NonNegativeBackoff(selected)
    requires AllHarmless(call.during, due, waiting) && waiting != id && IsAhead(s, due, waiting)
    ensures var s' := RunJob(s, id, selected, now, call);
            && s.handlers <= s'.handlers
            && Ahead(s', due) <= Ahead(s, due) + (if now > due then {} else {id})
            && waiting in s'.rows && s'.rows[waiting] == s.rows[waiting]
            && (now > due ==> id !in Ahead(s', due))
  {
    assert RowOk(s, id) && RowOk(s, waiting);
    var s1, s' := StartJob(s, id), RunJob(s, id, selected, now, call);
    OwnRowAfterRun(s, id, selected, now, call);
    HarmlessActions(s1, call.during, due, waiting);
    DelayNonNegative(selected, selected.attempts + 1);
    assert Ahead(s1, due) <= Ahead(s, due);
    assert forall i :: i != id && i in Ahead(s', due) ==> i in Ahead(ActAll(s1, call.during), due);
  }

  /** A tick that passes over the waiting job takes every job it runs after `due` out of its way. */
  lemma {:induction false} BatchAhead(s: State, selected: map<JobId, Job>, batch: seq<JobId>, calls: seq<Call>, now: int,
                                      due: int, waiting: JobId)
    requires |batch| == |calls| && Inv(s) && Ready(s, selected, batch)
    requires forall k :: 0 <= k < |batch| ==>
               && selected[batch[k]].scheduledAt <= now && NonNegativeBackoff(selected[batch[k]])
               && selected[batch[k]].jobType in s.handlers
    requires forall k :: 0 <= k < |calls| ==> AllHarmless(calls[k].during, due, waiting)
    requires waiting !in batch && IsAhead(s, due, waiting)
    ensures var s' := RunBatch(s, selected, batch, calls, now);
            && waiting in s'.rows && s'.rows[waiting] == s.rows[waiting]
            && (if now > due then forall id :: id in Ahead(s', due) ==> id in Ahead(s, due) && id !in batch
                else forall id :: id in Ahead(s', due) ==> id in Ahead(s, due) || id in batch)
    decreases |batch|
  {
    if batch != [] {
      var s1 := RunJob(s, batch[0], selected[batch[0]], now, calls[0]);
      RunJobAhead(s, batch[0], selected[batch[0]], now, calls[0], due, waiting);
      RunJobKeepsInv(s, batch[0], selected[batch[0]], now, calls[0]);
      RestStaysReady(s, selected, batch, calls[0], now);
      assert IsAhead(s1, due, waiting);
      BatchAhead(s1, selected, batch[1..], calls[1..], now, due, waiting);
    }
  }

  lemma {:induction false} BatchCallsAll(s: State, selected: map<JobId, Job>, batch: seq<JobId>, calls: seq<Call>, now: int,
                                         id: JobId)
    requires |batch| == |calls| && Inv(s) && Ready(s, selected, batch)
    requires forall k :: 0 <= k < |batch| ==> selected[batch[k]].scheduledAt <= now
    ensures CallCount(RunBatch(s, selected, batch, calls, now), id) >= CallCount(s, id)
    decreases |batch|
  {
    if batch != [] {
      var job := selected[batch[0]];
      var s1 := RunJob(s, batch[0], job, now, calls[0]);
      assert RowOk(s, batch[0]);
      if job.jobType in s.handlers {
        OwnRowAfterRun(s, batch[0], job, now, calls[0]);
      }
      RunJobKeepsInv(s, batch[0], job, now, calls[0]);
      RestStaysReady(s, selected, batch, calls[0], now);
      BatchCallsAll(s1, selected, batch[1..], calls[1..], now, id);
    }
  }

  lemma {:induction false} BatchCallsWaiting(s: State, selected: map<JobId, Job>, batch: seq<JobId>, calls: seq<Call>, now: int,
                                             due: int, waiting: JobId)
    requires |batch| == |calls| && Inv(s) && Ready(s, selected, batch) && waiting in batch
    requires forall k :: 0 <= k < |batch| ==> selected[batch[k]].scheduledAt <= now
                                              && selected[batch[k]].jobType in s.handlers
    requires forall k :: 0 <= k < |calls| ==> AllHarmless(calls[k].during, due, waiting)
    ensures CallCount(RunBatch(s, selected, batch, calls, now), waiting) > CallCount(s, waiting)
    decreases |batch|
  {
    var id, job := batch[0], selected[batch[0]];
    var s1 := RunJob(s, id, job, now, calls[0]);
    assert RowOk(s, id) && RowOk(s, waiting);
    OwnRowAfterRun(s, id, job, now, calls[0]);
    HarmlessActions(StartJob(s, id), calls[0].during, due, waiting);
    RunJobKeepsInv(s, id, job, now, calls[0]);
    RestStaysReady(s, selected, batch, calls[0], now);
    if id == waiting {
      BatchCallsAll(s1, selected, batch[1..], calls[1..], now, waiting);
    } else {
      BatchCallsWaiting(s1, selected, batch[1..], calls[1..], now, due, waiting);
    }
  }

  lemma {:induction false} DistinctCount(ids: seq<JobId>)
    requires forall k, l :: 0 <= k < l < |ids| ==> ids[k] != ids[l]
    ensures |set id | id in ids| == |ids|
  {
    if ids != [] {
      DistinctCount(ids[1..]);
      assert (set id | id in ids) == {ids[0]} + (set id | id in ids[1..]);
    }
  }

  ghost predicate StillWaiting(s: State, s': State, due: int, waiting: JobId) {
    waiting in s.rows && waiting in s'.rows && s'.rows[waiting] == s.rows[waiting]
    && CallCount(s', waiting) >= CallCount(s, waiting)
  }

  /** A tick that does not pick the waiting job, its clock past the due time, takes ten jobs out of its way. */
  lemma PassedOver(s: State, batch: seq<JobId>, calls: seq<Call>, now: int, due: int, waiting: JobId)
    requires Inv(s) && |batch| == |calls| && IsBatch(s.rows, batch, now) && Served(s)
    requires IsAhead(s, due, waiting) && waiting !in batch
    requires forall k :: 0 <= k < |calls| ==> AllHarmless(calls[k].during, due, waiting)
    ensures var s' := Tick(s, batch, calls, now);
            && StillWaiting(s, s', due, waiting)
            && |Ahead(s', due)| <= |Ahead(s, due)| - if now > due then BATCH_LIMIT else 0
  {
    var s1, s' := RunBatch(s, s.rows, batch, calls, now), Tick(s, batch, calls, now);
    assert RowOk(s, waiting);
    BatchAhead(s, s.rows, batch, calls, now, due, waiting);
    BatchCallsAll(s, s.rows, batch, calls, now, waiting);
    var picked := set id | id in batch;
    assert Ahead(s', due) <= Ahead(s1, due);
    if now > due {
      assert |batch| == BATCH_LIMIT;
      assert picked <= Ahead(s, due);
      DistinctCount(batch);
      assert Ahead(s', due) <= Ahead(s, due) - picked;
      SubsetSize(Ahead(s', due), Ahead(s, due) - picked);
    } else {
      assert Ahead(s', due) <= Ahead(s, due);
      SubsetSize(Ahead(s', due), Ahead(s, due));
    }
  }

  lemma WaitStep(s: State, e: Event, due: int, waiting: JobId)
    requires Inv(s) && Enabled(s, e) && IsAhead(s, due, waiting) && HarmlessEvent(e, due, waiting)
    requires e.TickEvent? ==> Served(s)
    ensures var s' := Step(s, e);
            || CallCount(s', waiting) > CallCount(s, waiting)
            || (&& StillWaiting(s, s', due, waiting)
                && |Ahead(s', due)| <= |Ahead(s, due)| - if e.TickEvent? && e.now > due then BATCH_LIMIT else 0)
  {
    assert RowOk(s, waiting);
    match e
    case Outside(action) =>
      HarmlessActions(s, [action], due, waiting);
      assert ActAll(s, [action]) == Act(s, action);
      SubsetSize(Ahead(Act(s, action), due), Ahead(s, due));
    case TickEvent(batch, calls, now) =>
      if waiting in batch {
        BatchCallsWaiting(s, s.rows, batch, calls, now, due, waiting);
      } else {
        PassedOver(s, batch, calls, now, due, waiting);
      }
  }

  lemma CallsGrow(s: State, e: Event, id: JobId)
    requires Inv(s) && Enabled(s, e)
    ensures CallCount(Step(s, e), id) >= CallCount(s, id)
  {
    if e.TickEvent? {
      BatchCallsAll(s, s.rows, e.batch, e.calls, e.now, id);
    }
  }

  lemma {:induction false} RunCallsGrow(s: State, events: seq<Event>, id: JobId)
    requires Inv(s) && IsRun(s, events)
    ensures CallCount(After(s, events), id) >= CallCount(s, id)
    decreases |events|
  {
    if events != [] {
      CallsGrow(s, events[0], id);
      StepKeepsInv(s, events[0]);
      RunCallsGrow(Step(s, events[0]), events[1..], id);
    }
  }

  /** Every tick finds a handler for every pending job, and nothing is done that delays the waiting one. */
  ghost predicate ServedRun(s: State, events: seq<Event>, due: int, waiting: JobId)
    requires IsRun(s, events)
    decreases |events|
  {
    events == [] || (&& HarmlessEvent(events[0], due, waiting)
                     && (events[0].TickEvent? ==> Served(s))
                     && ServedRun(Step(s, events[0]), events[1..], due, waiting))
  }

  function LateTicks(events: seq<Event>, due: int): nat {
    if events == [] then 0
    else (if events[0].TickEvent? && events[0].now > due then 1 else 0) + LateTicks(events[1..], due)
  }

  lemma {:induction false} WaitBounded(s: State, events: seq<Event>, due: int, waiting: JobId)
    requires Inv(s) && IsRun(s, events) && ServedRun(s, events, due, waiting) && IsAhead(s, due, waiting)
    requires LateTicks(events, due) > (|Ahead(s, due)| - 1) / BATCH_LIMIT
    ensures CallCount(After(s, events), waiting) > CallCount(s, waiting)
    decreases |events|
  {
    assert waiting in Ahead(s, due);
    assert events != [];
    var s' := Step(s, events[0]);
    StepKeepsInv(s, events[0]);
    WaitStep(s, events[0], due, waiting);
    if CallCount(s', waiting) > CallCount(s, waiting) {
      RunCallsGrow(s', events[1..], waiting);
    } else {
      assert waiting in Ahead(s', due);
      WaitBounded(s', events[1..], due, waiting);
    }
  }

  /**
   * Bounded wait: with a handler for every pending job and non-negative backoff, a pending job with `a` other
   * pending jobs due no later runs within a/10 + 1 ticks whose clock exceeds its due time, however ties are
   * ordered, if no new job is due by then and it is not cancelled.
   */
  lemma BoundedWait(s: State, events: seq<Event>, waiting: JobId)
    requires Inv(s) && IsRun(s, events) && waiting in s.rows && s.rows[waiting].status.Pending?
    requires ServedRun(s, events, s.rows[waiting].scheduledAt, waiting)
    requires var due := s.rows[waiting].scheduledAt;
             LateTicks(events, due) >= |Ahead(s, due) - {waiting}| / BATCH_LIMIT + 1
    ensures CallCount(After(s, events), waiting) > CallCount(s, waiting)
  {
    var due := s.rows[waiting].scheduledAt;
    assert waiting in Ahead(s, due);
    assert |Ahead(s, due) - {waiting}| == |Ahead(s, due)| - 1;
    WaitBounded(s, events, due, waiting);
  }

  /** Why handlers are needed: ten due jobs without one fill every batch, and a tick over them changes nothing. */
  lemma {:induction false} UnhandledBatchIsStuck(s: State, selected: map<JobId, Job>, batch: seq<JobId>, calls: seq<Call>,
                                                 now: int)
    requires |batch| == |calls| && forall k :: 0 <= k < |batch| ==> batch[k] in s.rows && batch[k] in selected
    requires forall k :: 0 <= k < |batch| ==> selected[batch[k]].jobType !in s.handlers
    ensures RunBatch(s, selected, batch, calls, now) == s
    decreases |batch|
  {
    if batch != [] {
      UnhandledBatchIsStuck(s, selected, batch[1..], calls[1..], now);
    }
  }

  // ---- The class ----

  class SchedulerService {
    var rows: map<JobId, Job>
    var handlers: set<string>
    // History, which the source does not keep: see State.
    var calls: seq<JobId>
    var allowance: multiset<JobId>
    var origins: map<JobId, Origin>

    function Abstract(): State
      reads this
    {
      State(rows, handlers, calls, allowance, origins)
    }

    constructor ()
      ensures Abstract() == Init()
    {
      rows, handlers := map[], {};
      calls, allowance, origins := [], multiset{}, map[];
    }

    method RegisterHandler(jobType: string)
      modifies this
      ensures Abstract() == Act(old(Abstract()), Register(jobType))
    {
      handlers := handlers + {jobType};
    }

    method UnregisterHandler(jobType: string)
      modifies this
      ensures Abstract() == Act(old(Abstract()), Unregister(jobType))
    {
      handlers := handlers - {jobType};
    }

    /** `id` is the generated identifier; inserting one that has a row fails. */
    method ScheduleJob(id: JobId, jobType: string, options: JobOptions, now: int)
      modifies this
      ensures Abstract() == Act(old(Abstract()), Schedule(id, jobType, options, now))
    {
      if id in rows {
        return;
      }
      var job := NewJob(jobType, options, now);
      var called := multiset(calls)[id];
      rows := rows[id := job];
      allowance := allowance[id := called + Limit(job)];
      origins := origins[id := Origin(job.scheduledAt, called)];
    }

    method CancelJob(id: JobId)
      modifies this
      ensures Abstract() == Act(old(Abstract()), Cancel(id))
    {
      if id in rows && rows[id].status.Pending? {
        rows := rows[id := rows[id].(status := Cancelled)];
      }
    }

    /** What happens while a handler is awaited. */
    method Await(during: seq<Action>)
      modifies this
      ensures Abstract() == ActAll(old(Abstract()), during)
    {
      for k := 0 to |during|
        invariant ActAll(Abstract(), during[k..]) == ActAll(old(Abstract()), during)
      {
        assert during[k..][0] == during[k] && during[k..][1..] == during[k + 1..];
        match during[k] {
          case Schedule(id, jobType, options, now) => ScheduleJob(id, jobType, options, now);
          case Cancel(id) => CancelJob(id);
          case Register(jobType) => RegisterHandler(jobType);
          case Unregister(jobType) => UnregisterHandler(jobType);
        }
      }
    }

    /** The body of the loop: nothing without a handler, else the row before, during and after the call. */
    method RunSelected(id: JobId, job: Job, now: int, run: Call)
      requires id in rows
      modifies this
      ensures Abstract() == RunJob(old(Abstract()), id, job, now, run)
    {
      if job.jobType in handlers {
        rows := rows[id := rows[id].(status := Running, attempts := rows[id].attempts + 1)];
        calls := calls + [id];
        ActAllKeepsRows(Abstract(), run.during);
        Await(run.during);
        rows := rows[id := FinishJob(rows[id], job, now, run.ok)];
      }
    }

    /**
     * One tick over the rows the query returned; `runs` says how each handler call goes and what happens
     * while it is awaited.
     */
    method ProcessJobs(batch: seq<JobId>, runs: seq<Call>, now: int)
      requires |batch| == |runs| && IsBatch(rows, batch, now)
      modifies this
      ensures Abstract() == Tick(old(Abstract()), batch, runs, now)
    {
      ghost var s0 := Abstract();
      var selected := rows;
      for k := 0 to |batch|
        invariant forall l :: 0 <= l < |batch| ==> batch[l] in rows && batch[l] in selected
        invariant RunBatch(Abstract(), selected, batch[k..], runs[k..], now) == RunBatch(s0, selected, batch, runs, now)
      {
        assert batch[k..][0] == batch[k] && batch[k..][1..] == batch[k + 1..] && runs[k..][1..] == runs[k + 1..];
        RunSelected(batch[k], selected[batch[k]], now, runs[k]);
      }
      var cutoff := now - RETENTION;
      rows := map id | id in rows && !(Terminal(rows[id].status) && rows[id].createdAt < cutoff) :: rows[id];
    }
  }
}
