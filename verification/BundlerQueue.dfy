/** The UserOp queue of src/runtime/bundler-service.ts: queueUserOp, getPendingOps, updateOpStatus, flushPendingOps. */
module BundlerQueue {
  import opened Machines
  import opened Options

  type OpId = string

  datatype Status = Pending | Submitted | Completed(txHash: string) | Failed(error: string)

  /** A row of bundler_queue. */
  datatype Op = Op(status: Status, createdAt: int)

  /** What submitUserOp comes to: a transaction, a refusal, or an exception. */
  datatype Outcome = Success(txHash: string) | Refused(error: string) | Thrown(message: string)

  type Table = map<OpId, Op>

  /** What getPendingOps may return: all pending rows, oldest first, ties in any order. */
  ghost predicate IsPendingList(rows: Table, batch: seq<OpId>) {
    && (forall k :: 0 <= k < |batch| ==> batch[k] in rows && rows[batch[k]].status.Pending?)
    && (forall k, l :: 0 <= k < l < |batch| ==>
          batch[k] != batch[l] && rows[batch[k]].createdAt <= rows[batch[l]].createdAt)
    && (forall id :: id in rows && rows[id].status.Pending? ==> id in batch)
  }

  function SetStatus(rows: Table, id: OpId, status: Status): Table {
    if id in rows then rows[id := rows[id].(status := status)] else rows
  }

  /** `INSERT` of a pending row; an identifier that has a row is refused. */
  function QueueOne(rows: Table, id: OpId, createdAt: int): Table {
    if id in rows then rows else rows[id := Op(Pending, createdAt)]
  }

  function FinalStatus(outcome: Outcome): Status {
    match outcome
    case Success(txHash) => Completed(txHash)
    case Refused(error) => Failed(error)
    case Thrown(message) => Failed(message)
  }

  // ---- The queue as a machine: flushes do not overlap, a crash may come between any two steps ----

  /** A running flush: the op marked as submitted, if any, whether it was passed on, and the ops after it. */
  datatype Flush = Flush(current: Option<OpId>, sent: bool, todo: seq<OpId>)

  datatype State = State(rows: Table, flush: Option<Flush>, submissions: seq<OpId>)

  datatype Event =
    | Queue(id: OpId, createdAt: int)
    | BeginFlush(batch: seq<OpId>)
    | MarkSubmitted
    | Submit
    | Finish(outcome: Outcome)
    | EndFlush
    | Crash

  function Init(): State {
    State(map[], None, [])
  }

  /** The state after an event, or None where it cannot happen. */
  ghost function Step(s: State, e: Event): Option<State> {
    match e
    case Queue(id, createdAt) => Some(s.(rows := QueueOne(s.rows, id, createdAt)))
    case BeginFlush(batch) =>
      if s.flush.Some? || !IsPendingList(s.rows, batch) then None else Some(s.(flush := Some(Flush(None, false, batch))))
    case MarkSubmitted =>
      if s.flush.None? || s.flush.value.current.Some? || s.flush.value.todo == [] then None
      else
        var f := s.flush.value;
        Some(s.(rows := SetStatus(s.rows, f.todo[0], Submitted), flush := Some(Flush(Some(f.todo[0]), false, f.todo[1..]))))
    case Submit =>
      if s.flush.None? || s.flush.value.current.None? || s.flush.value.sent then None
      else Some(s.(flush := Some(s.flush.value.(sent := true)), submissions := s.submissions + [s.flush.value.current.value]))
    case Finish(outcome) =>
      if s.flush.None? || s.flush.value.current.None? || !s.flush.value.sent then None
      else
        var f := s.flush.value;
        Some(s.(rows := SetStatus(s.rows, f.current.value, FinalStatus(outcome)), flush := Some(Flush(None, false, f.todo))))
    case EndFlush =>
      if s.flush.None? || s.flush.value.current.Some? || s.flush.value.todo != [] then None else Some(s.(flush := None))
    case Crash => Some(s.(flush := None))
  }

  function Sent(s: State, id: OpId): nat {
    multiset(s.submissions)[id]
  }

  ghost predicate Fresh(s: State, id: OpId) {
    id in s.rows && s.rows[id].status.Pending? && Sent(s, id) == 0
  }

  /** Every row was passed on at most once, a pending one never. */
  ghost predicate SentOnce(s: State) {
    forall id :: Sent(s, id) <= 1 && (Sent(s, id) == 1 ==> id in s.rows && !s.rows[id].status.Pending?)
  }

  /** The running flush holds only rows not passed on, besides the one being decided. */
  ghost predicate FlushIsFresh(s: State) {
    s.flush.Some? ==>
      var f := s.flush.value;
      && (forall k :: 0 <= k < |f.todo| ==> Fresh(s, f.todo[k]))
      && (forall k, l :: 0 <= k < l < |f.todo| ==> f.todo[k] != f.todo[l])
      && (f.current.Some? ==>
            && f.current.value in s.rows && s.rows[f.current.value].status.Submitted?
            && (!f.sent ==> Sent(s, f.current.value) == 0))
  }

  ghost predicate Inv(s: State) {
    SentOnce(s) && FlushIsFresh(s)
  }

  lemma StepSendsOnce(s: State, e: Event)
    requires Inv(s) && Step(s, e).Some?
    ensures SentOnce(Step(s, e).value)
  {
    var s' := Step(s, e).value;
    forall id
      ensures Sent(s', id) <= 1 && (Sent(s', id) == 1 ==> id in s'.rows && !s'.rows[id].status.Pending?)
    {
      assert Sent(s, id) <= 1;
    }
  }

  lemma StepKeepsFresh(s: State, e: Event)
    requires Inv(s) && Step(s, e).Some?
    ensures FlushIsFresh(Step(s, e).value)
  {
    var s' := Step(s, e).value;
    if e.BeginFlush? {
      forall k | 0 <= k < |e.batch|
        ensures Fresh(s', e.batch[k])
      {
        assert Sent(s, e.batch[k]) <= 1;
      }
    }
    if s.flush.Some? && s'.flush.Some? {
      var f, f' := s.flush.value, s'.flush.value;
      forall k | 0 <= k < |f'.todo|
        ensures Fresh(s', f'.todo[k])
      {
        var j := k + |f.todo| - |f'.todo|;
        assert f'.todo[k] == f.todo[j];
        assert Fresh(s, f.todo[j]);
      }
    }
  }

  lemma StepKeepsInv(s: State, e: Event)
    requires Inv(s) && Step(s, e).Some?
    ensures Inv(Step(s, e).value)
  {
    StepSendsOnce(s, e);
    StepKeepsFresh(s, e);
  }

  /** Over every run of queueing, non-overlapping flushes and crashes, each row is passed to submitUserOp at most once. */
  lemma AtMostOnce(events: seq<Event>, id: OpId)
    requires Steps(Step, Init(), events).Some?
    ensures Sent(Steps(Step, Init(), events).value, id) <= 1
  {
    forall s, e | Inv(s) && Step(s, e).Some?
      ensures Inv(Step(s, e).value)
    {
      StepKeepsInv(s, e);
    }
    StepsKeep(Step, Inv, Init(), events);
  }

  /**
   * The price is that a crash can lose an operation: a row left as submitted by a crash is never passed on again,
   * whether or not it was before, and never changes.
   */
  lemma {:induction false} CrashedRowIsStuck(s: State, events: seq<Event>, id: OpId)
    requires Inv(s) && Steps(Step, s, events).Some? && id in s.rows && s.rows[id].status.Submitted?
    requires s.flush.Some? ==> s.flush.value.current != Some(id)
    ensures var s' := Steps(Step, s, events).value; id in s'.rows && s'.rows[id] == s.rows[id] && Sent(s', id) == Sent(s, id)
    decreases |events|
  {
    if events != [] {
      var s' := Step(s, events[0]).value;
      StepKeepsInv(s, events[0]);
      if events[0].MarkSubmitted? {
        assert Fresh(s, s.flush.value.todo[0]);
      }
      CrashedRowIsStuck(s', events[1..], id);
    }
  }

  // ---- A flush that is not cut short, with ops queued at every await ----

  predicate DuringFlush(e: Event) {
    e.Queue? || e.MarkSubmitted? || e.Submit? || e.Finish?
  }

  /** The events of a running flush, from where it is to its end. */
  ghost predicate EndsFlush(s: State, mid: seq<Event>) {
    s.flush.Some? && (forall k :: 0 <= k < |mid| ==> DuringFlush(mid[k])) && Steps(Step, s, mid + [EndFlush]).Some?
  }

  ghost function FlushEnd(s: State, mid: seq<Event>): State
    requires EndsFlush(s, mid)
  {
    Steps(Step, s, mid + [EndFlush]).value
  }

  function Outcomes(mid: seq<Event>): seq<Outcome> {
    if mid == [] then [] else (if mid[0].Finish? then [mid[0].outcome] else []) + Outcomes(mid[1..])
  }

  predicate IsQueued(mid: seq<Event>, id: OpId) {
    exists k :: 0 <= k < |mid| && mid[k].Queue? && mid[k].id == id
  }

  /** The ops a running flush has still to decide, and those of them it has still to pass on. */
  function Work(f: Flush): seq<OpId> {
    if f.current.Some? then [f.current.value] + f.todo else f.todo
  }

  function Unsent(f: Flush): seq<OpId> {
    if f.current.Some? && !f.sent then [f.current.value] + f.todo else f.todo
  }

  lemma FlushFirst(s: State, mid: seq<Event>)
    requires EndsFlush(s, mid) && mid != []
    ensures Step(s, mid[0]).Some? && EndsFlush(Step(s, mid[0]).value, mid[1..])
    ensures FlushEnd(s, mid) == FlushEnd(Step(s, mid[0]).value, mid[1..])
  {
    assert (mid + [EndFlush])[1..] == mid[1..] + [EndFlush];
    assert DuringFlush(mid[0]);
  }

  lemma FlushLast(s: State)
    requires EndsFlush(s, [])
    ensures Work(s.flush.value) == [] && FlushEnd(s, []) == s.(flush := None)
  {
    assert [] + [EndFlush] == [EndFlush] && [EndFlush][1..] == [];
  }

  /** Only an outcome shortens the work of a flush, by the op it decides. */
  lemma WorkStep(s: State, e: Event)
    requires s.flush.Some? && DuringFlush(e) && Step(s, e).Some?
    ensures var f, s' := s.flush.value, Step(s, e).value;
            && s'.flush.Some?
            && (if e.Finish? then Work(f) != [] && Work(s'.flush.value) == Work(f)[1..]
                else Work(s'.flush.value) == Work(f))
  {
  }

  lemma UnsentStep(s: State, e: Event)
    requires s.flush.Some? && DuringFlush(e) && Step(s, e).Some?
    ensures var s' := Step(s, e).value;
            s'.flush.Some? && s'.submissions + Unsent(s'.flush.value) == s.submissions + Unsent(s.flush.value)
  {
  }

  lemma RowStep(s: State, e: Event, id: OpId)
    requires s.flush.Some? && DuringFlush(e) && Step(s, e).Some? && id in s.rows
    ensures var work, s' := Work(s.flush.value), Step(s, e).value;
            && id in s'.rows && s'.rows[id].createdAt == s.rows[id].createdAt
            && (id !in work ==> s'.rows[id] == s.rows[id])
            && (e.Finish? && work[0] == id ==> s'.rows[id].status == FinalStatus(e.outcome))
  {
  }

  lemma {:induction false} FlushCounts(s: State, mid: seq<Event>)
    requires EndsFlush(s, mid)
    ensures |Outcomes(mid)| == |Work(s.flush.value)|
    decreases |mid|
  {
    if mid == [] {
      FlushLast(s);
    } else {
      FlushFirst(s, mid);
      WorkStep(s, mid[0]);
      FlushCounts(Step(s, mid[0]).value, mid[1..]);
    }
  }

  lemma {:induction false} FlushPassesOn(s: State, mid: seq<Event>)
    requires EndsFlush(s, mid)
    ensures FlushEnd(s, mid).submissions == s.submissions + Unsent(s.flush.value)
    decreases |mid|
  {
    if mid == [] {
      FlushLast(s);
    } else {
      FlushFirst(s, mid);
      UnsentStep(s, mid[0]);
      FlushPassesOn(Step(s, mid[0]).value, mid[1..]);
    }
  }

  lemma {:induction false} FlushKeepsOthers(s: State, mid: seq<Event>, id: OpId)
    requires EndsFlush(s, mid) && id in s.rows && id !in Work(s.flush.value)
    ensures id in FlushEnd(s, mid).rows && FlushEnd(s, mid).rows[id] == s.rows[id]
    decreases |mid|
  {
    if mid == [] {
      FlushLast(s);
    } else {
      FlushFirst(s, mid);
      WorkStep(s, mid[0]);
      RowStep(s, mid[0], id);
      FlushKeepsOthers(Step(s, mid[0]).value, mid[1..], id);
    }
  }

  ghost predicate Distinct(ids: seq<OpId>) {
    forall k, l :: 0 <= k < l < |ids| ==> ids[k] != ids[l]
  }

  lemma FirstIsDecided(s: State, mid: seq<Event>, id: OpId)
    requires EndsFlush(s, mid) && mid != [] && mid[0].Finish? && Distinct(Work(s.flush.value))
    requires id in s.rows && Work(s.flush.value) != [] && Work(s.flush.value)[0] == id
    ensures var s' := FlushEnd(s, mid);
            id in s'.rows && s'.rows[id] == Op(FinalStatus(mid[0].outcome), s.rows[id].createdAt)
  {
    var s1 := Step(s, mid[0]).value;
    FlushFirst(s, mid);
    WorkStep(s, mid[0]);
    RowStep(s, mid[0], id);
    FlushKeepsOthers(s1, mid[1..], id);
  }

  lemma WorkAhead(s: State, e: Event, id: OpId, k: nat) returns (j: nat)
    requires s.flush.Some? && DuringFlush(e) && Step(s, e).Some? && Distinct(Work(s.flush.value)) && id in s.rows
    requires k < |Work(s.flush.value)| && Work(s.flush.value)[k] == id && (e.Finish? ==> k > 0)
    ensures var s' := Step(s, e).value;
            && s'.flush.Some? && Distinct(Work(s'.flush.value))
            && j < |Work(s'.flush.value)| && Work(s'.flush.value)[j] == id && j == (if e.Finish? then k - 1 else k)
            && id in s'.rows && s'.rows[id].createdAt == s.rows[id].createdAt
  {
    WorkStep(s, e);
    RowStep(s, e, id);
    j := if e.Finish? then k - 1 else k;
  }

  /** Every op of a flush ends with its own outcome. */
  lemma {:induction false} FlushSetsOwn(s: State, mid: seq<Event>, id: OpId, k: nat)
    requires EndsFlush(s, mid) && Distinct(Work(s.flush.value)) && id in s.rows
    requires k < |Work(s.flush.value)| && Work(s.flush.value)[k] == id
    ensures k < |Outcomes(mid)|
    ensures var s' := FlushEnd(s, mid);
            id in s'.rows && s'.rows[id] == Op(FinalStatus(Outcomes(mid)[k]), s.rows[id].createdAt)
    decreases |mid|
  {
    if mid == [] {
      FlushLast(s);
    } else if mid[0].Finish? && k == 0 {
      FirstIsDecided(s, mid, id);
    } else {
      FlushFirst(s, mid);
      var j := WorkAhead(s, mid[0], id, k);
      FlushSetsOwn(Step(s, mid[0]).value, mid[1..], id, j);
    }
  }

  lemma QueuedFirst(mid: seq<Event>, id: OpId)
    requires mid != []
    ensures IsQueued(mid, id) <==> (mid[0].Queue? && mid[0].id == id) || IsQueued(mid[1..], id)
  {
    assert forall k :: 1 <= k < |mid| ==> mid[k] == mid[1..][k - 1];
  }

  lemma NewRowStep(s: State, e: Event, id: OpId)
    requires s.flush.Some? && DuringFlush(e) && Step(s, e).Some? && id !in s.rows && id !in Work(s.flush.value)
    ensures var s' := Step(s, e).value;
            if e.Queue? && e.id == id then id in s'.rows && s'.rows[id].status.Pending? else id !in s'.rows
  {
  }

  /** A row that is new after a flush was queued during it, and is pending. */
  lemma {:induction false} FlushAddsQueued(s: State, mid: seq<Event>, id: OpId)
    requires EndsFlush(s, mid) && id !in s.rows && id !in Work(s.flush.value)
    ensures id in FlushEnd(s, mid).rows <==> IsQueued(mid, id)
    ensures IsQueued(mid, id) ==> FlushEnd(s, mid).rows[id].status.Pending?
    decreases |mid|
  {
    if mid == [] {
      FlushLast(s);
    } else {
      var s1 := Step(s, mid[0]).value;
      FlushFirst(s, mid);
      WorkStep(s, mid[0]);
      QueuedFirst(mid, id);
      NewRowStep(s, mid[0], id);
      if id in s1.rows {
        FlushKeepsOthers(s1, mid[1..], id);
      } else {
        FlushAddsQueued(s1, mid[1..], id);
      }
    }
  }

  ghost predicate BeginsFlush(s: State, batch: seq<OpId>) {
    s.flush.None? && IsPendingList(s.rows, batch)
  }

  function Flushing(s: State, batch: seq<OpId>): State {
    s.(flush := Some(Flush(None, false, batch)))
  }

  /**
   * A flush from its query to its end, with ops queued at any of its awaits and no crash: the ops it read are each
   * passed on once, in order, and end completed or failed with their own outcome.
   */
  lemma FlushDecides(s: State, batch: seq<OpId>, mid: seq<Event>)
    requires BeginsFlush(s, batch) && EndsFlush(Flushing(s, batch), mid)
    ensures Step(s, BeginFlush(batch)) == Some(Flushing(s, batch))
    ensures var s' := FlushEnd(Flushing(s, batch), mid);
            && |Outcomes(mid)| == |batch| && s'.submissions == s.submissions + batch
            && (forall k :: 0 <= k < |batch| ==>
                  && batch[k] in s'.rows
                  && s'.rows[batch[k]] == Op(FinalStatus(Outcomes(mid)[k]), s.rows[batch[k]].createdAt))
  {
    FlushCounts(Flushing(s, batch), mid);
    FlushPassesOn(Flushing(s, batch), mid);
    forall k | 0 <= k < |batch|
      ensures var s' := FlushEnd(Flushing(s, batch), mid);
              batch[k] in s'.rows && s'.rows[batch[k]] == Op(FinalStatus(Outcomes(mid)[k]), s.rows[batch[k]].createdAt)
    {
      FlushSetsOwn(Flushing(s, batch), mid, batch[k], k);
    }
  }

  /** The rows pending after such a flush are exactly those queued meanwhile; any other row is as it was. */
  lemma FlushLeavesOnlyQueued(s: State, batch: seq<OpId>, mid: seq<Event>, id: OpId)
    requires BeginsFlush(s, batch) && EndsFlush(Flushing(s, batch), mid)
    ensures var s' := FlushEnd(Flushing(s, batch), mid);
            && (id in s'.rows && s'.rows[id].status.Pending? <==> id !in s.rows && IsQueued(mid, id))
            && (id in s.rows && id !in batch ==> id in s'.rows && s'.rows[id] == s.rows[id])
  {
    if id !in s.rows {
      FlushAddsQueued(Flushing(s, batch), mid, id);
    } else if id in batch {
      var k :| 0 <= k < |batch| && batch[k] == id;
      FlushSetsOwn(Flushing(s, batch), mid, id, k);
    } else {
      FlushKeepsOthers(Flushing(s, batch), mid, id);
    }
  }

  // ---- The service ----

  datatype Entry = Entry(id: OpId, status: Status)

  datatype Arrival = Arrival(id: OpId, createdAt: int)

  /** A call of submitUserOp: what it comes to, and the ops queued while it is awaited. */
  datatype Submission = Submission(outcome: Outcome, arrivals: seq<Arrival>)

  function QueueAll(rows: Table, arrivals: seq<Arrival>): Table
    decreases |arrivals|
  {
    if arrivals == [] then rows else QueueAll(QueueOne(rows, arrivals[0].id, arrivals[0].createdAt), arrivals[1..])
  }

  function Successes(runs: seq<Submission>): nat {
    if runs == [] then 0 else (if runs[0].outcome.Success? then 1 else 0) + Successes(runs[1..])
  }

  /** The table after one op: marked as submitted, passed on, marked with its outcome. */
  function OpRows(rows: Table, id: OpId, run: Submission): Table {
    SetStatus(QueueAll(SetStatus(rows, id, Submitted), run.arrivals), id, FinalStatus(run.outcome))
  }

  /** The table after passing on a list of ops. */
  function FlushRows(rows: Table, batch: seq<OpId>, runs: seq<Submission>): Table
    requires |batch| == |runs|
    decreases |batch|
  {
    if batch == [] then rows else FlushRows(OpRows(rows, batch[0], runs[0]), batch[1..], runs[1..])
  }

  lemma FlushSplit(rows: Table, batch: seq<OpId>, runs: seq<Submission>, i: nat)
    requires i < |batch| == |runs|
    ensures FlushRows(rows, batch[i..], runs[i..])
            == FlushRows(OpRows(rows, batch[i], runs[i]), batch[i + 1..], runs[i + 1..])
    ensures Successes(runs[i..]) == (if runs[i].outcome.Success? then 1 else 0) + Successes(runs[i + 1..])
  {
    assert batch[i..][1..] == batch[i + 1..] && runs[i..][1..] == runs[i + 1..];
  }

  class BundlerService {
    var rows: Table
    // Every call of submitUserOp, in order.
    var submissions: seq<OpId>

    constructor ()
      ensures rows == map[] && submissions == []
    {
      rows, submissions := map[], [];
    }

    method QueueUserOp(id: OpId, createdAt: int) returns (ok: bool)
      modifies this`rows
      ensures ok == (id !in old(rows)) && rows == QueueOne(old(rows), id, createdAt)
    {
      if id in rows {
        return false;
      }
      rows := rows[id := Op(Pending, createdAt)];
      return true;
    }

    method UpdateOpStatus(id: OpId, status: Status)
      modifies this`rows
      ensures rows == SetStatus(old(rows), id, status)
    {
      if id in rows {
        rows := rows[id := rows[id].(status := status)];
      }
    }

    /** What is queued while a submission is awaited. */
    method Await(arrivals: seq<Arrival>)
      modifies this`rows
      ensures rows == QueueAll(old(rows), arrivals)
    {
      for k := 0 to |arrivals|
        invariant QueueAll(rows, arrivals[k..]) == QueueAll(old(rows), arrivals)
      {
        assert arrivals[k..][0] == arrivals[k] && arrivals[k..][1..] == arrivals[k + 1..];
        var ok := QueueUserOp(arrivals[k].id, arrivals[k].createdAt);
      }
    }

    /** The body of the flush loop. */
    method FlushOne(id: OpId, run: Submission)
      modifies this
      ensures rows == OpRows(old(rows), id, run) && submissions == old(submissions) + [id]
    {
      UpdateOpStatus(id, Submitted);
      submissions := submissions + [id];
      Await(run.arrivals);
      UpdateOpStatus(id, FinalStatus(run.outcome));
    }

    /**
     * A flush of the ops read, which no crash cuts short: each is passed on once, in queue order, and the counters
     * add up.
     */
    method FlushPendingOps(batch: seq<OpId>, runs: seq<Submission>)
      returns (submitted: nat, failed: nat, results: seq<Entry>)
      requires |runs| == |batch|
      modifies this
      ensures rows == FlushRows(old(rows), batch, runs)
      ensures submissions == old(submissions) + batch
      ensures submitted + failed == |batch| && submitted == Successes(runs)
      ensures |results| == |batch|
      ensures forall k :: 0 <= k < |batch| ==> results[k] == Entry(batch[k], FinalStatus(runs[k].outcome))
    {
      submitted, failed, results := 0, 0, [];
      ghost var goal, sent := FlushRows(rows, batch, runs), submissions;
      for i := 0 to |batch|
        invariant submitted + failed == i && |results| == i
        invariant submitted + Successes(runs[i..]) == Successes(runs)
        invariant forall k :: 0 <= k < i ==> results[k] == Entry(batch[k], FinalStatus(runs[k].outcome))
        invariant submissions == sent + batch[..i]
        invariant FlushRows(rows, batch[i..], runs[i..]) == goal
      {
        FlushSplit(rows, batch, runs, i);
        FlushOne(batch[i], runs[i]);
        results := results + [Entry(batch[i], FinalStatus(runs[i].outcome))];
        if runs[i].outcome.Success? {
          submitted := submitted + 1;
        } else {
          failed := failed + 1;
        }
        assert batch[..i + 1] == batch[..i] + [batch[i]];
      }
      assert batch[..|batch|] == batch;
    }
  }

  // ---- The loop is a run of the machine ----

  function QueueEvents(arrivals: seq<Arrival>): seq<Event> {
    if arrivals == [] then [] else [Queue(arrivals[0].id, arrivals[0].createdAt)] + QueueEvents(arrivals[1..])
  }

  function FlushEvents(batch: seq<OpId>, runs: seq<Submission>): seq<Event>
    requires |batch| == |runs|
  {
    if batch == [] then []
    else [MarkSubmitted] + ([Submit] + (QueueEvents(runs[0].arrivals)
                                        + ([Finish(runs[0].outcome)] + FlushEvents(batch[1..], runs[1..]))))
  }

  lemma {:induction false} StepsQueue(s: State, arrivals: seq<Arrival>, rest: seq<Event>)
    ensures Steps(Step, s, QueueEvents(arrivals) + rest) == Steps(Step, s.(rows := QueueAll(s.rows, arrivals)), rest)
    decreases |arrivals|
  {
    if arrivals == [] {
      assert QueueEvents(arrivals) + rest == rest;
    } else {
      var e, more := Queue(arrivals[0].id, arrivals[0].createdAt), QueueEvents(arrivals[1..]);
      assert QueueEvents(arrivals) + rest == [e] + (more + rest);
      StepsFirst(Step, s, e, more + rest);
      StepsQueue(Step(s, e).value, arrivals[1..], rest);
    }
  }

  lemma OneOpSteps(s: State, id: OpId, todo: seq<OpId>, run: Submission, rest: seq<Event>)
    requires s.flush == Some(Flush(None, false, [id] + todo))
    ensures Steps(Step, s, [MarkSubmitted] + ([Submit] + (QueueEvents(run.arrivals) + ([Finish(run.outcome)] + rest))))
            == Steps(Step, State(OpRows(s.rows, id, run), Some(Flush(None, false, todo)), s.submissions + [id]), rest)
  {
    var finish := [Finish(run.outcome)] + rest;
    var s1 := s.(rows := SetStatus(s.rows, id, Submitted), flush := Some(Flush(Some(id), false, todo)));
    var s2 := s1.(flush := Some(Flush(Some(id), true, todo)), submissions := s.submissions + [id]);
    assert ([id] + todo)[1..] == todo;
    StepsFirst(Step, s, MarkSubmitted, [Submit] + (QueueEvents(run.arrivals) + finish));
    StepsFirst(Step, s1, Submit, QueueEvents(run.arrivals) + finish);
    StepsQueue(s2, run.arrivals, finish);
    StepsFirst(Step, s2.(rows := QueueAll(s2.rows, run.arrivals)), Finish(run.outcome), rest);
  }

  /** The machine's flush steps, with the same ops queued, leave the table and the submissions of the flush loop. */
  lemma {:induction false} LoopRefinesMachine(s: State, batch: seq<OpId>, runs: seq<Submission>)
    requires s.flush == Some(Flush(None, false, batch)) && |batch| == |runs|
    ensures Steps(Step, s, FlushEvents(batch, runs))
            == Some(State(FlushRows(s.rows, batch, runs), Some(Flush(None, false, [])), s.submissions + batch))
    decreases |batch|
  {
    if batch == [] {
      assert s.submissions + batch == s.submissions;
    } else {
      assert batch == [batch[0]] + batch[1..];
      OneOpSteps(s, batch[0], batch[1..], runs[0], FlushEvents(batch[1..], runs[1..]));
      var s' := State(OpRows(s.rows, batch[0], runs[0]), Some(Flush(None, false, batch[1..])), s.submissions + [batch[0]]);
      LoopRefinesMachine(s', batch[1..], runs[1..]);
      assert s.submissions + [batch[0]] + batch[1..] == s.submissions + batch;
    }
  }

  lemma {:induction false} QueueEventsAreQueues(arrivals: seq<Arrival>)
    ensures forall e :: e in QueueEvents(arrivals) ==> e.Queue?
  {
    if arrivals != [] {
      QueueEventsAreQueues(arrivals[1..]);
    }
  }

  lemma {:induction false} LoopStaysInFlush(batch: seq<OpId>, runs: seq<Submission>)
    requires |batch| == |runs|
    ensures forall e :: e in FlushEvents(batch, runs) ==> DuringFlush(e)
    decreases |batch|
  {
    if batch != [] {
      QueueEventsAreQueues(runs[0].arrivals);
      LoopStaysInFlush(batch[1..], runs[1..]);
    }
  }

  /** So the loop is a flush from its query to its end, and what such a flush decides holds of its table. */
  lemma LoopEndsFlush(s: State, batch: seq<OpId>, runs: seq<Submission>)
    requires BeginsFlush(s, batch) && |batch| == |runs|
    ensures EndsFlush(Flushing(s, batch), FlushEvents(batch, runs))
    ensures FlushEnd(Flushing(s, batch), FlushEvents(batch, runs))
            == State(FlushRows(s.rows, batch, runs), None, s.submissions + batch)
  {
    LoopRefinesMachine(Flushing(s, batch), batch, runs);
    LoopStaysInFlush(batch, runs);
    StepsAppend(Step, Flushing(s, batch), FlushEvents(batch, runs), [EndFlush]);
    assert [EndFlush][1..] == [];
  }
}
