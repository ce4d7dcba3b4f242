/** The outbox worker as it is written: one process that updates the outbox table in place.
    Every method leaves behind the schedule of protocol steps it took, so each call is a run
    of the state machine in module Outbox. */
module OutboxWorker {
  import opened Schema
  import opened Totals
  import opened Backoff
  import opened Outbox
  import OI = OutboxInvariant
  import opened Batch
  import opened RecoverySchedule
  import opened OutboxProgress
  import opened RetrySchedule

  /** An event as the worker keeps it in memory between the claim and the record. */
  datatype Event = Event(id: int, payload: Payload, retries: int)

  /** What the environment does to one attempt: the broker accepts, refuses, or accepts and
      loses the confirm; or the success cannot be written; or the failure cannot be written
      either, which is an error that escapes the batch. And the jitter of the next delay. */
  datatype Fate =
    | Delivered
    | Refused(error: string, jitter: int)
    | Unconfirmed(error: string, jitter: int)
    | Unrecorded(error: string, jitter: int)
    | Escaped(accepted: bool, error: string)

  predicate FateOk(f: Fate) {
    f.Delivered? || f.Escaped? || Jitter(f.jitter)
  }

  /** No error escapes. */
  ghost predicate Contained(env: nat -> Fate) {
    forall k :: !env(k).Escaped?
  }

  /** The message of the attempt reached the broker. */
  predicate Arrives(fate: Fate) {
    match fate
    case Delivered => true
    case Refused(_, _) => false
    case Unconfirmed(_, _) => true
    case Unrecorded(_, _) => true
    case Escaped(accepted, _) => accepted
  }

  /** What a recorded attempt leaves of a row at time `now`: sent; or one failure more than the
      worker's copy counts, with a retry after the backoff from now on, or none when the attempts
      are used up. */
  predicate IsOutcome(c: Config, was: Row, row: Row, event: Event, fate: Fate, now: int)
    requires !fate.Escaped? && 0 <= event.retries
  {
    && row.payload == was.payload && row.createdAt == was.createdAt && row.updatedAt == now
    && if fate.Delivered? then
         && row.status == Sent && row.sentAt == Some(now) && row.error == None
         && row.retryCount == was.retryCount && row.nextRetryAt == was.nextRetryAt
       else
         && row.retryCount == event.retries + 1 && row.sentAt == was.sentAt
         && row.error.Some? && IsStart(row.error.value, fate.error)
         && if row.retryCount < c.maxRetries
            then row.status == Pending && row.nextRetryAt.Some? && InWindow(row.retryCount, row.nextRetryAt.value - now)
            else row.status == Dlq && row.nextRetryAt == None
  }

  /** The row an attempt leaves behind when its outcome is recorded. */
  function RecordedRow(c: Config, row: Row, event: Event, fate: Fate, now: int): Row
    requires !fate.Escaped? && 0 <= event.retries
  {
    if fate.Delivered? then SentRow(row, now)
    else FailedRow(row, c.maxRetries, event.retries, now, fate.jitter, fate.error)
  }

  /** Nothing happens but that time passes. */
  predicate Ticks(ls: seq<Label>) {
    forall i :: 0 <= i < |ls| ==> ls[i].Tick?
  }

  /** Nothing at all happens, and no time passes. */
  ghost predicate Instant(meanwhile: nat -> seq<Label>) {
    forall k :: meanwhile(k) == []
  }

  /** The environment of a batch: fates, and what others do. */
  ghost predicate Around(env: nat -> Fate, meanwhile: nat -> seq<Label>, w: int) {
    forall k :: FateOk(env(k)) && Foreign(meanwhile(k), w)
  }

  /** Each event of a batch met the fate that was meant for it. */
  ghost predicate Fates(env: nat -> Fate, ids: seq<int>, done: nat, rows: map<int, Row>) {
    forall i :: 0 <= i < done && i < |ids| ==> ids[i] in rows && (rows[ids[i]].status == Sent <==> env(i).Delivered?)
  }

  ghost predicate Still(meanwhile: nat -> seq<Label>) {
    forall k :: Ticks(meanwhile(k))
  }

  /** How many outcomes worker `w` records in a run. */
  function OwnRecords(b: Box, ls: seq<Label>, w: int): nat {
    if ls == [] then 0
    else
      var n := |ls| - 1;
      OwnRecords(b, ls[..n], w) + (if OwnedBy(ls[n], w) && Records(Exec(b, ls[..n]), ls[n]) then 1 else 0)
  }

  lemma OwnAppend(b: Box, ls: seq<Label>, l: Label, w: int)
    ensures OwnRecords(b, ls + [l], w) ==
      OwnRecords(b, ls, w) + if OwnedBy(l, w) && Records(Exec(b, ls), l) then 1 else 0
  {
    assert (ls + [l])[..|ls|] == ls;
  }

  predicate InReach(c: Config, row: Row, last: int) {
    last <= row.updatedAt + c.threshold || (last == 0 && row.updatedAt + c.threshold < 0)
  }

  /** The last recovery is recent enough for every event in `processing`; before the first one,
      events may be older than the clock. */
  predicate RecoveryOk(c: Config, rows: map<int, Row>, last: int) {
    forall id :: id in rows && rows[id].status == Processing ==> InReach(c, rows[id], last)
  }

  /** An iteration adds a turn to the schedule. */
  lemma TurnTaken(origin: Box, earlier: seq<Label>, run: seq<Label>,
                  start: Box, turns: seq<seq<Label>>, times: seq<int>, now: int) returns (turn: seq<Label>)
    requires earlier <= run && Exec(origin, earlier) == Exec(start, Flat(turns))
    requires Scheduled(start, turns, times) && now == Exec(origin, earlier).clock
    requires RecoversAt(times + [now], start.config.threshold, |times|) ==> earlier + [Recover] <= run
    ensures Scheduled(start, turns + [turn], times + [now])
    ensures Exec(origin, run) == Exec(start, Flat(turns + [turn]))
  {
    turn := run[|earlier|..];
    assert run == earlier + turn;
    ExecConcat(origin, earlier, turn);
    ExecConcat(start, Flat(turns), turn);
    ScheduledAppend(start, turns, times, turn, now);
  }

  predicate NoneDue(rows: map<int, Row>, now: int) {
    forall id :: id in rows ==> !Due(rows[id], now)
  }

  /** Every event in `processing` has its recovery ahead of it. */
  predicate RecoveryAhead(c: Config, rows: map<int, Row>, now: int) {
    forall id :: id in rows && rows[id].status == Processing ==> now < ReadyBy(c, rows[id])
  }

  lemma RecoveredAreDue(c: Config, before: map<int, Row>, after: map<int, Row>, now: int)
    requires ConfigOk(c) && after.Keys == before.Keys
    requires forall id :: id in after ==>
      after[id] == if Stuck(before[id], now, c.threshold) then RecoveredRow(before[id], now) else before[id]
    ensures Work(c, after) == Work(c, before) && RecoveryOk(c, after, now)
    ensures RecoveryAhead(c, after, now) && (NoneDue(after, now) ==> after == before)
  {
    SameWork(c, before, after);
    if NoneDue(after, now) {
      forall id | id in after
        ensures id in before && after[id] == before[id]
      {
        assert id in after.Keys;
      }
    }
  }

  lemma NotYetStuck(c: Config, rows: map<int, Row>, last: int, now: int)
    requires ConfigOk(c) && RecoveryOk(c, rows, last) && now - last < c.threshold
    ensures RecoveryAhead(c, rows, now)
  {
  }

  lemma BatchKeepsRecoveryOk(c: Config, before: map<int, Row>, after: map<int, Row>, ids: seq<int>, i: nat, at: int,
                             last: int)
    requires ConfigOk(c) && RecoveryOk(c, before, last) && HalfDone(c, before, after, ids, i, at)
    requires last == 0 || last <= at
    ensures RecoveryOk(c, after, last)
  {
    forall id | id in after && after[id].status == Processing
      ensures InReach(c, after[id], last)
    {
      if id in ids {
        var j :| 0 <= j < |ids| && ids[j] == id;
        assert !(j < i) || Attempted(c, before[ids[j]], after[ids[j]]);
      }
    }
  }

  predicate Finished(rows: map<int, Row>) {
    forall id :: id in rows ==> !Open(rows[id])
  }

  lemma NotReady(c: Config, rows: map<int, Row>, now: int)
    requires forall id :: id in rows ==> OI.RowOk(c, rows[id])
    requires NoneDue(rows, now) && RecoveryAhead(c, rows, now)
    ensures now < Horizon(c, rows) || Finished(rows)
  {
    forall id | id in rows && Open(rows[id])
      ensures now < Horizon(c, rows)
    {
      assert OI.RowOk(c, rows[id]);
      ReadyByHorizon(c, rows, id);
    }
  }

  lemma SelectedHaveAttempts(b: Box, ids: seq<int>)
    requires OI.Inv(b) && IsSelection(b, ids)
    ensures forall i :: 0 <= i < |ids| ==> Selectable(b.config, b.rows, ids[i]) && 0 <= b.rows[ids[i]].retryCount
  {
  }

  predicate IsCopy(event: Event, h: Held) {
    event.id == h.id && event.payload == h.payload && event.retries == h.retries
  }

  /** What the worker remembers of the rows it claimed. */
  predicate Copies(rows: map<int, Row>, ids: seq<int>, events: seq<Event>, batch: seq<Held>) {
    && |events| == |ids| && |batch| == |ids|
    && forall i :: 0 <= i < |ids| ==>
         && ids[i] in rows && IsCopy(events[i], batch[i])
         && events[i] == Event(ids[i], rows[ids[i]].payload, rows[ids[i]].retryCount)
  }

  predicate Attemptable(rows: map<int, Row>, ids: seq<int>, events: seq<Event>, batch: seq<Held>) {
    && Copies(rows, ids, events, batch) && Distinct(ids)
    && forall i :: 0 <= i < |ids| ==> 0 <= rows[ids[i]].retryCount
  }

  function Claimed(rows: map<int, Row>, ids: seq<int>, at: int): map<int, Row> {
    map id | id in rows :: if id in ids then ClaimedRow(rows[id], at) else rows[id]
  }

  /** A batch with nobody else around, after its first `i` events. */
  ghost predicate SoFar(c: Config, env: nat -> Fate, before: map<int, Row>, now: map<int, Row>, ids: seq<int>, i: nat,
                        at: int)
  {
    HalfDone(c, before, now, ids, i, at) && Fates(env, ids, i, now)
  }

  lemma NoneDone(c: Config, before: map<int, Row>, ids: seq<int>, at: int)
    requires forall i :: 0 <= i < |ids| ==> ids[i] in before
    ensures HalfDone(c, before, Claimed(before, ids, at), ids, 0, at)
  {
  }

  lemma OneMoreDone(c: Config, before: map<int, Row>, was: map<int, Row>, now: map<int, Row>,
                    ids: seq<int>, i: nat, at: int)
    requires HalfDone(c, before, was, ids, i, at) && Distinct(ids) && i < |ids|
    requires now.Keys == was.Keys && Attempted(c, was[ids[i]], now[ids[i]])
    requires forall id :: id in was && id != ids[i] ==> now[id] == was[id]
    ensures HalfDone(c, before, now, ids, i + 1, at)
  {
  }

  /** No claim in progress has locked an event in `processing`. */
  lemma ProcessingIsFree(b: Box, id: int)
    requires OI.Inv(b) && id in b.rows && b.rows[id].status == Processing
    ensures RowFree(b, id)
  {
    forall w | w in b.workers && b.workers[w].Selecting?
      ensures !Has(b.workers[w].batch, 0, id)
    {
      assert OI.WorkerOk(b, b.workers[w]);
      var batch := b.workers[w].batch;
      forall i | 0 <= i < |batch|
        ensures batch[i].id != id
      {
        assert OI.SelectedOk(b, batch[i]);
      }
    }
  }

  lemma HeldRowExists(b: Box, w: int)
    requires OI.Inv(b) && InStage(b, w)
    ensures Current(b, w).id in b.rows && Current(b, w).id in b.tally
  {
  }

  lemma ClaimsIds(b: Box, w: int, ids: seq<int>)
    requires WorkerOf(b, w).Selecting? && |WorkerOf(b, w).batch| == |ids|
    requires forall i :: 0 <= i < |ids| ==> WorkerOf(b, w).batch[i].id == ids[i]
    ensures DoClaim(b, w).rows == Claimed(b.rows, ids, WorkerOf(b, w).at)
  {
  }

  /** The oldest row among `ids`. */
  method Oldest(rows: map<int, Row>, ids: set<int>) returns (oldest: int)
    requires ids != {} && ids <= rows.Keys
    ensures oldest in ids
    ensures forall id :: id in ids ==> rows[oldest].createdAt <= rows[id].createdAt
  {
    ghost var some := Member(ids);
    oldest :| oldest in ids;
    var rest := ids - {oldest};
    while rest != {}
      invariant rest <= ids && oldest in ids
      invariant forall id :: id in ids - rest ==> rows[oldest].createdAt <= rows[id].createdAt
      decreases |rest|
    {
      ghost var other := Member(rest);
      var id :| id in rest;
      rest := rest - {id};
      if rows[id].createdAt < rows[oldest].createdAt {
        oldest := id;
      }
    }
  }

  /** `ids` are the oldest of the due rows that are not locked, in order, and `left` are the others. */
  predicate OldestFirst(rows: map<int, Row>, locked: set<int>, now: int, ids: seq<int>, left: set<int>) {
    && left <= rows.Keys && (forall id :: id in left ==> id !in locked && Due(rows[id], now))
    && (forall i :: 0 <= i < |ids| ==>
          ids[i] in rows && ids[i] !in locked && Due(rows[ids[i]], now) && ids[i] !in left)
    && (forall id :: id in rows && id !in locked && Due(rows[id], now) ==> id in left || id in ids)
    && (forall i, j :: 0 <= i < j < |ids| ==>
          ids[i] != ids[j] && rows[ids[i]].createdAt <= rows[ids[j]].createdAt)
    && (forall id :: id in left ==> NoneYounger(rows, ids, rows[id].createdAt))
  }

  lemma OldestNext(rows: map<int, Row>, locked: set<int>, now: int, ids: seq<int>, left: set<int>, id: int)
    requires OldestFirst(rows, locked, now, ids, left) && id in left
    requires forall x :: x in left ==> rows[id].createdAt <= rows[x].createdAt
    ensures OldestFirst(rows, locked, now, ids + [id], left - {id})
  {
    var longer := ids + [id];
    assert longer[|ids|] == id;
    forall x | x in rows && x !in locked && Due(rows[x], now)
      ensures x in left - {id} || x in longer
    {
      assert x in ids ==> x in longer;
    }
  }

  method OldestDue(rows: map<int, Row>, locked: set<int>, now: int, limit: int)
    returns (ids: seq<int>, ghost left: set<int>)
    requires 1 <= limit
    ensures |ids| <= limit && OldestFirst(rows, locked, now, ids, left)
    ensures |ids| == limit || left == {}
  {
    ids := [];
    var rest := set id | id in rows && id !in locked && Due(rows[id], now);
    while |ids| < limit && rest != {}
      invariant |ids| <= limit && OldestFirst(rows, locked, now, ids, rest)
      decreases |rest|
    {
      var id := Oldest(rows, rest);
      OldestNext(rows, locked, now, ids, rest, id);
      rest := rest - {id};
      ids := ids + [id];
    }
    left := rest;
  }

  lemma OldestAreSelected(b: Box, locked: set<int>, ids: seq<int>, left: set<int>)
    requires 1 <= b.config.batchSize && forall id :: id in b.rows ==> (RowFree(b, id) <==> id !in locked)
    requires |ids| <= b.config.batchSize && OldestFirst(b.rows, locked, b.clock, ids, left)
    requires |ids| == b.config.batchSize || left == {}
    ensures IsSelection(b, ids)
    ensures ids == [] ==> forall id :: id in b.rows && RowFree(b, id) ==> !Due(b.rows[id], b.clock)
  {
  }

  lemma RecoverStep(b: Box)
    ensures Step(b, Recover) == DoRecover(b)
  {
  }

  lemma CopyAt(before: map<int, Row>, ids: seq<int>, events: seq<Event>, batch: seq<Held>, i: nat)
    requires Attemptable(before, ids, events, batch) && i < |ids|
    ensures IsCopy(events[i], batch[i]) && events[i].id == ids[i] && ids[i] in before
    ensures 0 <= events[i].retries == before[ids[i]].retryCount
  {
  }

  lemma ClaimedAt(c: Config, before: map<int, Row>, now: map<int, Row>, ids: seq<int>, i: nat, at: int)
    requires HalfDone(c, before, now, ids, i, at) && i < |ids|
    ensures ids[i] in before && ids[i] in now
    ensures now[ids[i]].status == Processing && now[ids[i]].retryCount == before[ids[i]].retryCount
  {
  }

  /** A worker between two events of its batch, or after it. */
  function Doing(batch: seq<Held>, i: nat, at: int, going: bool): Worker {
    if going && i < |batch| then Working(batch, i, Ready, at) else Idle
  }

  lemma TicksAreForeign(meanwhile: nat -> seq<Label>, w: int)
    requires Still(meanwhile)
    ensures forall k :: Foreign(meanwhile(k), w)
  {
    forall k
      ensures Foreign(meanwhile(k), w)
    {
      assert Ticks(meanwhile(k));
    }
  }

  lemma RecordedIsOutcome(c: Config, was: Row, event: Event, fate: Fate, now: int)
    requires !fate.Escaped? && FateOk(fate) && 0 <= event.retries
    ensures IsOutcome(c, was, RecordedRow(c, was, event, fate, now), event, fate, now)
  {
  }

  /** Each recorded outcome of an attempt leaves the row of one attempt. */
  lemma OutcomeIsAttempt(c: Config, was: Row, row: Row, event: Event, fate: Fate, now: int)
    requires FateOk(fate) && !fate.Escaped? && 0 <= event.retries == was.retryCount
    requires IsOutcome(c, was, row, event, fate, now)
    ensures Attempted(c, was, row)
  {
  }

  lemma PublishStep(b: Box, w: int, accepted: bool, raised: Option<string>)
    requires Enabled(b, Publish(w, accepted, raised))
    ensures
      var h := Current(b, w);
      Step(b, Publish(w, accepted, raised)) == b.(
        broker := if accepted then b.broker + [Msg(h.id, h.epoch, h.payload)] else b.broker,
        workers := b.workers[w := b.workers[w].(stage := if raised.Some? then Failing(raised.value) else Accepted)])
  {
  }

  lemma SentStep(b: Box, w: int)
    requires Enabled(b, MarkSent(w))
    ensures
      var id := Current(b, w).id;
      Step(b, MarkSent(w)) == b.(
        rows := b.rows[id := SentRow(b.rows[id], b.clock)],
        workers := b.workers[w := Advance(b.workers[w])])
  {
  }

  lemma FailsStep(b: Box, w: int, error: string)
    requires Enabled(b, MarkSentFails(w, error))
    ensures Step(b, MarkSentFails(w, error)) ==
      b.(workers := b.workers[w := b.workers[w].(stage := Failing(error))])
  {
  }

  lemma StillWrites(b: Box, w: int, error: string)
    requires CanWrite(b, w)
    ensures CanWrite(b.(workers := b.workers[w := b.workers[w].(stage := Failing(error))]), w)
  {
  }

  lemma FailureStep(b: Box, w: int, jitter: int)
    requires Enabled(b, MarkFailed(w, jitter))
    ensures
      var h, tally := Current(b, w), b.tally[Current(b, w).id];
      Step(b, MarkFailed(w, jitter)) == b.(
        rows := b.rows[h.id :=
          FailedRow(b.rows[h.id], b.config.maxRetries, h.retries, b.clock, jitter, b.workers[w].stage.error)],
        tally := b.tally[h.id := tally.(failures := tally.failures + 1)],
        workers := b.workers[w := Advance(b.workers[w])])
  {
  }

  lemma OneMoreFate(env: nat -> Fate, before: map<int, Row>, ids: seq<int>, events: seq<Event>, batch: seq<Held>,
                    i: nat, was: map<int, Row>, now: map<int, Row>)
    requires Attemptable(before, ids, events, batch) && i < |ids| && Fates(env, ids, i, was)
    requires ids[i] in now && (now[ids[i]].status == Sent <==> env(i).Delivered?)
    requires forall id :: id in was && id != ids[i] ==> id in now && now[id] == was[id]
    ensures Fates(env, ids, i + 1, now)
  {
  }

  class OutboxTable {
    const config: Config
    const me: int
    var rows: map<int, Row>
    var clock: int
    var eventSeq: int
    var workers: map<int, Worker>      // who has locked or claimed what
    var broker: seq<Msg>
    var tally: map<int, Tally>         // history only
    ghost var run: seq<Label>
    ghost const origin: Box

    function View(): Box
      reads this
    {
      Box(config, rows, eventSeq, workers, broker, clock, tally)
    }

    ghost predicate Valid()
      reads this
    {
      ConfigOk(config) && OI.Inv(origin) && View() == Exec(origin, run)
    }

    /** This worker is `wk`; others may be in the middle of a claim or a batch. */
    ghost predicate Mine(wk: Worker)
      reads this
    {
      WorkerOf(View(), me) == wk
    }

    /** No worker is in the middle of anything. */
    ghost predicate Quiet()
      reads this
    {
      forall w :: w in workers ==> workers[w].Idle?
    }

    /** Outcomes this worker has recorded so far. */
    ghost function MyRecords(): nat
      reads this
    {
      OwnRecords(origin, run, me)
    }

    constructor (b: Box, me: int)
      requires OI.Inv(b) && WorkerOf(b, me).Idle?
      ensures Valid() && View() == b && this.me == me && Mine(Idle) && run == []
    {
      config, this.me, rows, clock := b.config, me, b.rows, b.clock;
      eventSeq, workers, broker, tally, run := b.eventSeq, b.workers, b.broker, b.tally, [];
      origin := b;
    }

    lemma Sound()
      requires Valid()
      ensures OI.Inv(View())
    {
      OI.InvExec(origin, run);
    }

    /** What one more step does to the run and to the count of this worker's records. */
    lemma Logs(l: Label)
      requires Valid()
      ensures Exec(origin, run + [l]) == Step(View(), l)
      ensures OwnRecords(origin, run + [l], me) == MyRecords() + if OwnedBy(l, me) && Records(View(), l) then 1 else 0
    {
      ExecAppend(origin, run, l);
      OwnAppend(origin, run, l, me);
    }

    /** A step that records nothing. */
    lemma LogsOther(l: Label)
      requires Valid() && !l.MarkSent? && !l.MarkFailed?
      ensures Exec(origin, run + [l]) == Step(View(), l)
      ensures OwnRecords(origin, run + [l], me) == MyRecords()
    {
      Logs(l);
    }

    lemma SelectionOk(ids: seq<int>)
      requires Valid() && IsSelection(View(), ids)
      ensures Distinct(ids)
      ensures forall i :: 0 <= i < |ids| ==> Selectable(config, rows, ids[i]) && 0 <= rows[ids[i]].retryCount
    {
      Sound();
      SelectedHaveAttempts(View(), ids);
    }

    /** Replace every table. */
    method Load(t: Box)
      requires t.config == config
      modifies this`rows, this`clock, this`eventSeq, this`workers, this`broker, this`tally
      ensures View() == t
    {
      rows, clock, eventSeq, workers, broker, tally := t.rows, t.clock, t.eventSeq, t.workers, t.broker, t.tally;
    }

    /** One step of others or of the environment. */
    method Take(l: Label)
      requires Valid() && !OwnedBy(l, me)
      modifies this
      ensures Valid() && run == old(run) + [l] && View() == Step(old(View()), l)
      ensures Mine(old(WorkerOf(View(), me))) && old(clock) <= clock && MyRecords() == old(MyRecords())
    {
      Logs(l);
      ForeignStep(View(), l, me);
      Load(Step(View(), l));
      run := run + [l];
    }

    /** Time passes. */
    method Wait(d: nat)
      requires Valid()
      modifies this`clock, this`run
      ensures Valid() && run == old(run) + [Tick(d)] && clock == old(clock) + d && MyRecords() == old(MyRecords())
    {
      LogsOther(Tick(d));
      clock := clock + d;
      run := run + [Tick(d)];
    }

    /** Whatever others do, and however long it takes, while this worker does nothing. */
    method Meanwhile(ls: seq<Label>)
      requires Valid() && Foreign(ls, me)
      modifies this
      ensures Valid() && run == old(run) + ls && Mine(old(WorkerOf(View(), me)))
      ensures old(clock) <= clock && MyRecords() == old(MyRecords())
      ensures View() == Exec(old(View()), ls)
      ensures Ticks(ls) ==> rows == old(rows) && workers == old(workers) && broker == old(broker)
    {
      for i := 0 to |ls|
        invariant Valid() && run == old(run) + ls[..i] && Mine(old(WorkerOf(View(), me)))
        invariant old(clock) <= clock && MyRecords() == old(MyRecords())
        invariant View() == Exec(old(View()), ls[..i])
        invariant Ticks(ls) ==> rows == old(rows) && workers == old(workers) && broker == old(broker)
      {
        ExecTake(old(View()), ls, i);
        Take(ls[i]);
      }
      assert ls[..|ls|] == ls;
    }

    /** UPDATE ... SET status = 'pending' WHERE status = 'processing' AND updated_at < cutoff */
    method WriteRecovery()
      modifies this`rows, this`tally
      ensures View() == DoRecover(old(View()))
      ensures rows.Keys == old(rows).Keys
      ensures forall id :: id in rows ==>
        rows[id] ==
          if Stuck(old(rows)[id], clock, config.threshold) then RecoveredRow(old(rows)[id], clock) else old(rows)[id]
    {
      tally := DoRecover(View()).tally;
      rows := map id | id in rows ::
        if Stuck(rows[id], clock, config.threshold) then RecoveredRow(rows[id], clock) else rows[id];
    }

    /** recover_stuck_events: one UPDATE over the rows stuck in `processing`. */
    method RecoverStuckEvents()
      requires Valid()
      modifies this`rows, this`tally, this`run
      ensures Valid() && run == old(run) + [Recover] && MyRecords() == old(MyRecords())
      ensures rows.Keys == old(rows).Keys
      ensures forall id :: id in rows ==>
        rows[id] ==
          if Stuck(old(rows)[id], clock, config.threshold) then RecoveredRow(old(rows)[id], clock) else old(rows)[id]
    {
      LogsOther(Recover);
      RecoverStep(View());
      WriteRecovery();
      run := run + [Recover];
    }

    /** SELECT of pending, due events ordered by created_at, at most batch_size of them; rows
        that another worker has locked are skipped. */
    method SelectBatch() returns (ids: seq<int>)
      requires Valid() && Mine(Idle)
      ensures IsSelection(View(), ids)
      ensures ids == [] ==> forall id :: id in rows && RowFree(View(), id) ==> !Due(rows[id], clock)
    {
      var locked := set id | id in rows && !RowFree(View(), id);
      ghost var left;
      ids, left := OldestDue(rows, locked, clock, config.batchSize);
      OldestAreSelected(View(), locked, ids, left);
    }

    /** This worker's own state changes and nothing else does. */
    method Become(l: Label, wk: Worker)
      requires Valid() && Step(View(), l) == View().(workers := workers[me := wk])
      requires !l.MarkSent? && !l.MarkFailed?
      modifies this`workers, this`run
      ensures Valid() && old(run) <= run && workers == old(workers)[me := wk] && MyRecords() == old(MyRecords())
    {
      LogsOther(l);
      workers := workers[me := wk];
      run := run + [l];
    }

    /** UPDATE ... SET status = 'processing' WHERE id IN (...) */
    method WriteClaim(ids: seq<int>)
      requires WorkerOf(View(), me).Selecting? && |WorkerOf(View(), me).batch| == |ids|
      requires forall i :: 0 <= i < |ids| ==> WorkerOf(View(), me).batch[i].id == ids[i]
      modifies this`rows, this`workers, this`tally
      ensures View() == DoClaim(old(View()), me)
      ensures rows == Claimed(old(rows), ids, old(WorkerOf(View(), me)).at)
    {
      var t, at := DoClaim(View(), me), WorkerOf(View(), me).at;
      ClaimsIds(View(), me, ids);
      rows := Claimed(rows, ids, at);
      tally, workers := t.tally, t.workers;
    }

    /** Commit of the claim: the selected rows become `processing`. */
    method MarkProcessing(ids: seq<int>, ghost batch: seq<Held>, ghost at: int)
      requires Valid() && Mine(Selecting(batch, at)) && batch != []
      requires |batch| == |ids| && forall i :: 0 <= i < |ids| ==> batch[i].id == ids[i]
      modifies this`rows, this`workers, this`tally, this`run
      ensures Valid() && old(run) <= run && MyRecords() == old(MyRecords())
      ensures workers == old(workers)[me := Working(batch, 0, Ready, at)]
      ensures rows == Claimed(old(rows), ids, at)
    {
      LogsOther(Claim(me));
      WriteClaim(ids);
      run := run + [Claim(me)];
    }

    /** Lock the selected rows and copy them into memory; mark them and commit. */
    method ClaimBatch(ids: seq<int>, meanwhile: seq<Label>) returns (events: seq<Event>, batch: seq<Held>)
      requires Valid() && Mine(Idle) && ids != [] && IsSelection(View(), ids) && Foreign(meanwhile, me)
      modifies this
      ensures Valid() && old(run) <= run && old(clock) <= clock && MyRecords() == old(MyRecords())
      ensures Mine(Working(batch, 0, Ready, old(clock))) && Copies(old(rows), ids, events, batch)
      ensures meanwhile == [] ==> clock == old(clock)
      ensures Ticks(meanwhile) ==>
        && rows == Claimed(old(rows), ids, old(clock))
        && workers == old(workers)[me := Working(batch, 0, Ready, old(clock))]
    {
      Sound();
      batch := Hold(View(), ids);
      var table := rows;
      events := seq(|ids|, i requires 0 <= i < |ids| => Event(ids[i], table[ids[i]].payload, table[ids[i]].retryCount));
      Become(Select(me, ids), Selecting(batch, clock));
      Meanwhile(meanwhile);
      MarkProcessing(ids, batch, old(clock));
    }

    /** exchange.publish: the message may be accepted, refused, or accepted without a confirm. */
    method Send(h: Held, accepted: bool, raised: Option<string>)
      requires Valid() && InStage(View(), me) && WorkerOf(View(), me).stage.Ready? && Current(View(), me) == h
      requires accepted || raised.Some?
      modifies this`workers, this`broker, this`run
      ensures Valid() && old(run) <= run && MyRecords() == old(MyRecords())
      ensures broker == if accepted then old(broker) + [Msg(h.id, h.epoch, h.payload)] else old(broker)
      ensures workers ==
        old(workers)[me :=
          old(WorkerOf(View(), me)).(stage := if raised.Some? then Failing(raised.value) else Accepted)]
    {
      ghost var l := Publish(me, accepted, raised);
      LogsOther(l);
      PublishStep(View(), me, accepted, raised);
      if accepted {
        broker := broker + [Msg(h.id, h.epoch, h.payload)];
      }
      workers := workers[me := workers[me].(stage := if raised.Some? then Failing(raised.value) else Accepted)];
      run := run + [l];
    }

    /** UPDATE ... SET status = 'sent' WHERE id = :id */
    method WriteSent(event: Event)
      requires CanWrite(View(), me) && WorkerOf(View(), me).stage.Accepted? && Current(View(), me).id == event.id
      modifies this`rows, this`workers
      ensures View() == Step(old(View()), MarkSent(me))
      ensures rows == old(rows)[event.id := SentRow(old(rows[event.id]), clock)]
      ensures workers == old(workers)[me := Advance(old(WorkerOf(View(), me)))]
    {
      SentStep(View(), me);
      rows := rows[event.id := SentRow(rows[event.id], clock)];
      workers := workers[me := Advance(workers[me])];
    }

    /** The success of an attempt is recorded. */
    method RecordSent(event: Event)
      requires Valid() && CanWrite(View(), me) && WorkerOf(View(), me).stage.Accepted?
      requires Current(View(), me).id == event.id
      modifies this`rows, this`workers, this`run
      ensures Valid() && old(run) <= run && MyRecords() == old(MyRecords()) + 1
      ensures rows == old(rows)[event.id := SentRow(old(rows[event.id]), clock)]
      ensures workers == old(workers)[me := Advance(old(WorkerOf(View(), me)))]
    {
      Logs(MarkSent(me));
      WriteSent(event);
      run := run + [MarkSent(me)];
    }

    /** The new retry_count decides between another attempt after its backoff and `dlq`. */
    method WriteFailure(event: Event, error: string, jitter: int)
      requires event.id in rows && 0 <= event.retries
      modifies this`rows
      ensures rows == old(rows)[event.id :=
        FailedRow(old(rows[event.id]), config.maxRetries, event.retries, clock, jitter, error)]
    {
      var newRetryCount := event.retries + 1;
      var status, nextRetryAt := Pending, None;
      if config.maxRetries <= newRetryCount {
        status := Dlq;
      } else {
        nextRetryAt := Some(clock + Delay(newRetryCount, jitter));
      }
      rows := rows[event.id := rows[event.id].(
        status := status,
        retryCount := newRetryCount,
        nextRetryAt := nextRetryAt,
        error := Some(Clip(error)),
        updatedAt := clock)];
    }

    /** The row, and what this worker and the history know of it. */
    method WriteOutcome(event: Event, error: string, jitter: int)
      requires CanWrite(View(), me) && WorkerOf(View(), me).stage == Failing(error) && Jitter(jitter)
      requires Current(View(), me).id == event.id && Current(View(), me).retries == event.retries && 0 <= event.retries
      modifies this`rows, this`workers, this`tally
      ensures View() == Step(old(View()), MarkFailed(me, jitter))
      ensures rows == old(rows)[event.id :=
        FailedRow(old(rows[event.id]), config.maxRetries, event.retries, clock, jitter, error)]
      ensures workers == old(workers)[me := Advance(old(WorkerOf(View(), me)))]
    {
      FailureStep(View(), me, jitter);
      WriteFailure(event, error, jitter);
      tally := tally[event.id := tally[event.id].(failures := tally[event.id].failures + 1)];
      workers := workers[me := Advance(workers[me])];
    }

    /** The `except` branch: one more failure, a later retry or the dead letter state. */
    method RecordFailure(event: Event, error: string, jitter: int)
      requires Valid() && CanWrite(View(), me) && WorkerOf(View(), me).stage == Failing(error) && Jitter(jitter)
      requires Current(View(), me).id == event.id && Current(View(), me).retries == event.retries && 0 <= event.retries
      modifies this`rows, this`workers, this`tally, this`run
      ensures Valid() && old(run) <= run && MyRecords() == old(MyRecords()) + 1
      ensures rows == old(rows)[event.id :=
        FailedRow(old(rows[event.id]), config.maxRetries, event.retries, clock, jitter, error)]
      ensures workers == old(workers)[me := Advance(old(WorkerOf(View(), me)))]
    {
      ghost var l := MarkFailed(me, jitter);
      Logs(l);
      WriteOutcome(event, error, jitter);
      run := run + [l];
    }

    /** The event in hand exists. */
    lemma InHand()
      requires Valid() && InStage(View(), me)
      ensures Current(View(), me).id in rows && Current(View(), me).id in tally
    {
      Sound();
      HeldRowExists(View(), me);
    }

    /** Nobody locks an event in `processing`. */
    lemma FreeToWrite(id: int)
      requires Valid() && id in rows && rows[id].status == Processing
      ensures RowFree(View(), id)
    {
      Sound();
      ProcessingIsFree(View(), id);
    }

    /** Where a worker is after its publish. */
    ghost function Published(fate: Fate, batch: seq<Held>, i: nat, at: int): Worker {
      Working(batch, i, if fate.Delivered? || fate.Unrecorded? then Accepted else Failing(fate.error), at)
    }

    method SendEvent(fate: Fate, batch: seq<Held>, i: nat, ghost at: int)
      requires Valid() && i < |batch| && Mine(Working(batch, i, Ready, at))
      modifies this`workers, this`broker, this`run
      ensures Valid() && old(run) <= run && MyRecords() == old(MyRecords())
      ensures workers == old(workers)[me := Published(fate, batch, i, at)]
      ensures broker ==
        if Arrives(fate) then old(broker) + [Msg(batch[i].id, batch[i].epoch, batch[i].payload)] else old(broker)
    {
      match fate
      case Delivered => Send(batch[i], true, None);
      case Refused(error, _) => Send(batch[i], false, Some(error));
      case Unconfirmed(error, _) => Send(batch[i], true, Some(error));
      case Unrecorded(_, _) => Send(batch[i], true, None);
      case Escaped(accepted, error) => Send(batch[i], accepted, Some(error));
    }

    /** The table between the publish and the record of its outcome. */
    ghost function AfterSend(fate: Fate, batch: seq<Held>, i: nat, at: int): Box
      requires i < |batch|
      reads this
    {
      View().(
        broker := if Arrives(fate) then broker + [Msg(batch[i].id, batch[i].epoch, batch[i].payload)] else broker,
        workers := workers[me := Published(fate, batch, i, at)])
    }

    /** The publish, and whatever others do before its outcome is written. */
    method SendAndWait(fate: Fate, meanwhile: seq<Label>, batch: seq<Held>, i: nat, ghost at: int)
      requires Valid() && i < |batch| && Mine(Working(batch, i, Ready, at)) && Foreign(meanwhile, me)
      modifies this
      ensures Valid() && old(run) <= run && old(clock) <= clock && MyRecords() == old(MyRecords())
      ensures Mine(Published(fate, batch, i, at))
      ensures View() == Exec(old(AfterSend(fate, batch, i, at)), meanwhile)
      ensures Ticks(meanwhile) ==> rows == old(rows) && workers == old(workers)[me := Published(fate, batch, i, at)]
    {
      SendEvent(fate, batch, i, at);
      Meanwhile(meanwhile);
    }

    /** The `except` branch, from wherever it is entered. */
    method RecordRaised(event: Event, fate: Fate, batch: seq<Held>, i: nat, at: int)
      requires Valid() && i < |batch| && Mine(Published(fate, batch, i, at)) && FateOk(fate)
      requires !fate.Escaped? && !fate.Delivered?
      requires IsCopy(event, batch[i]) && 0 <= event.retries && CanWrite(View(), me)
      modifies this`rows, this`workers, this`tally, this`run
      ensures Valid() && old(run) <= run && MyRecords() == old(MyRecords()) + 1
      ensures rows == old(rows)[event.id := RecordedRow(config, old(rows[event.id]), event, fate, clock)]
      ensures workers == old(workers)[me := Advance(Working(batch, i, Ready, at))]
    {
      if fate.Unrecorded? {
        FailsStep(View(), me, fate.error);
        Become(MarkSentFails(me, fate.error), Working(batch, i, Failing(fate.error), at));
        StillWrites(old(View()), me, fate.error);
      }
      RecordFailure(event, fate.error, fate.jitter);
    }

    /** The outcome is written: `sent`, or one more failure. */
    method RecordEvent(event: Event, fate: Fate, batch: seq<Held>, i: nat, at: int)
      requires Valid() && i < |batch| && Mine(Published(fate, batch, i, at)) && FateOk(fate) && !fate.Escaped?
      requires IsCopy(event, batch[i]) && 0 <= event.retries && RowFree(View(), event.id)
      modifies this`rows, this`workers, this`tally, this`run
      ensures Valid() && old(run) <= run && MyRecords() == old(MyRecords()) + 1
      ensures event.id in old(rows)
      ensures rows == old(rows)[event.id := RecordedRow(config, old(rows)[event.id], event, fate, clock)]
      ensures workers == old(workers)[me := Advance(Working(batch, i, Ready, at))]
    {
      InHand();
      if fate.Delivered? {
        RecordSent(event);
      } else {
        RecordRaised(event, fate, batch, i, at);
      }
    }

    /** An error escapes: the worker lets go of its batch. */
    method GiveUp()
      requires Valid() && !WorkerOf(View(), me).Idle?
      modifies this`workers, this`run
      ensures Valid() && old(run) <= run && workers == old(workers)[me := Idle] && MyRecords() == old(MyRecords())
    {
      Become(Abandon(me), Idle);
    }

    /** The outcome is written unless that fails: the row is locked for too long, or the write
        itself raises. */
    method Conclude(event: Event, fate: Fate, batch: seq<Held>, i: nat, at: int) returns (recorded: bool)
      requires Valid() && i < |batch| && Mine(Published(fate, batch, i, at)) && FateOk(fate)
      requires IsCopy(event, batch[i]) && 0 <= event.retries
      modifies this`rows, this`workers, this`tally, this`run
      ensures Valid() && old(run) <= run
      ensures MyRecords() == old(MyRecords()) + if recorded then 1 else 0
      ensures workers == old(workers)[me := if recorded then Advance(Working(batch, i, Ready, at)) else Idle]
      ensures recorded <==> !fate.Escaped? && old(RowFree(View(), event.id))
      ensures rows.Keys == old(rows).Keys
      ensures forall id :: id in old(rows) && id != event.id ==> rows[id] == old(rows)[id]
      ensures if recorded
        then event.id in old(rows) && IsOutcome(config, old(rows)[event.id], rows[event.id], event, fate, clock)
        else rows == old(rows)
    {
      recorded := !fate.Escaped? && RowFree(View(), event.id);
      if recorded {
        RecordEvent(event, fate, batch, i, at);
        RecordedIsOutcome(config, old(rows)[event.id], event, fate, clock);
      } else {
        GiveUp();
      }
    }

    /** _publish_event: one attempt at one claimed event, outside any transaction, so others may
        do anything before its outcome is written. The write waits for the row's lock; an error of
        the write, or of the wait, escapes and leaves the row as it is. */
    method PublishEvent(event: Event, fate: Fate, meanwhile: seq<Label>, batch: seq<Held>, i: nat, at: int)
      returns (recorded: bool, ghost was: Box)
      requires Valid() && i < |batch| && Mine(Working(batch, i, Ready, at)) && FateOk(fate) && Foreign(meanwhile, me)
      requires IsCopy(event, batch[i]) && 0 <= event.retries
      modifies this
      ensures Valid() && old(run) <= run && old(clock) <= clock
      ensures Mine(if recorded then Advance(Working(batch, i, Ready, at)) else Idle)
      ensures MyRecords() == old(MyRecords()) + if recorded then 1 else 0
      ensures was == Exec(old(AfterSend(fate, batch, i, at)), meanwhile) && clock == was.clock
      ensures recorded <==> !fate.Escaped? && RowFree(was, event.id)
      ensures rows.Keys == was.rows.Keys
      ensures forall id :: id in was.rows && id != event.id ==> rows[id] == was.rows[id]
      ensures if recorded
        then event.id in was.rows && IsOutcome(config, was.rows[event.id], rows[event.id], event, fate, clock)
        else rows == was.rows
      ensures Ticks(meanwhile) ==>
        && was.rows == old(rows)
        && workers == old(workers)[me := if recorded then Advance(Working(batch, i, Ready, at)) else Idle]
      ensures Ticks(meanwhile) && event.id in old(rows) && old(rows)[event.id].status == Processing ==>
        (recorded <==> !fate.Escaped?)
    {
      SendAndWait(fate, meanwhile, batch, i, at);
      was := View();
      if event.id in rows && rows[event.id].status == Processing {
        FreeToWrite(event.id);
      }
      recorded := Conclude(event, fate, batch, i, at);
    }

    /** The next event of the batch. `still` says that nothing but time passes meanwhile. */
    method PublishNext(events: seq<Event>, i: nat, env: nat -> Fate, meanwhile: nat -> seq<Label>,
                       ghost before: map<int, Row>, ghost ids: seq<int>, batch: seq<Held>, at: int, ghost still: bool)
      returns (recorded: bool)
      requires Valid() && i < |events| && i < |batch| && Mine(Working(batch, i, Ready, at))
      requires Around(env, meanwhile, me) && Attemptable(before, ids, events, batch)
      requires still ==> Still(meanwhile) && SoFar(config, env, before, rows, ids, i, at)
      modifies this
      ensures Valid() && old(run) <= run && old(clock) <= clock
      ensures Mine(Doing(batch, if recorded then i + 1 else i, at, recorded))
      ensures MyRecords() == old(MyRecords()) + if recorded then 1 else 0
      ensures still ==> SoFar(config, env, before, rows, ids, if recorded then i + 1 else i, at)
      ensures still ==> workers == old(workers)[me := Doing(batch, if recorded then i + 1 else i, at, recorded)]
      ensures still && Contained(env) ==> recorded
      ensures Instant(meanwhile) ==> clock == old(clock)
    {
      CopyAt(before, ids, events, batch, i);
      Meanwhile(meanwhile(2 * i + 1));
      if still {
        ClaimedAt(config, before, rows, ids, i, at);
      }
      ghost var was;
      recorded, was := PublishEvent(events[i], env(i), meanwhile(2 * i + 2), batch, i, at);
      if still && recorded {
        OutcomeIsAttempt(config, was.rows[ids[i]], rows[ids[i]], events[i], env(i), clock);
        OneMoreDone(config, before, was.rows, rows, ids, i, at);
        OneMoreFate(env, before, ids, events, batch, i, was.rows, rows);
      }
    }

    /** The loop over the claimed events, which an error ends early. */
    method PublishAll(events: seq<Event>, env: nat -> Fate, meanwhile: nat -> seq<Label>,
                      ghost before: map<int, Row>, ghost ids: seq<int>, batch: seq<Held>, at: int, ghost still: bool)
      returns (done: nat)
      requires Valid() && batch != [] && Mine(Working(batch, 0, Ready, at)) && Attemptable(before, ids, events, batch)
      requires Around(env, meanwhile, me)
      requires still ==> Still(meanwhile) && rows == Claimed(before, ids, at)
      modifies this
      ensures Valid() && old(run) <= run && old(clock) <= clock && Mine(Idle)
      ensures done <= |ids| && MyRecords() == old(MyRecords()) + done
      ensures still ==> SoFar(config, env, before, rows, ids, done, at) && workers == old(workers)[me := Idle]
      ensures still && Contained(env) ==> done == |ids|
      ensures Instant(meanwhile) ==> clock == old(clock)
    {
      var going := true;
      done := 0;
      NoneDone(config, before, ids, at);
      while going && done < |events|
        invariant done <= |events| && Valid() && old(run) <= run && old(clock) <= clock
        invariant Mine(Doing(batch, done, at, going)) && MyRecords() == old(MyRecords()) + done
        invariant still ==> SoFar(config, env, before, rows, ids, done, at)
        invariant still ==> workers == old(workers)[me := Doing(batch, done, at, going)]
        invariant still && Contained(env) ==> going
        invariant Instant(meanwhile) ==> clock == old(clock)
        decreases |events| - done, going
      {
        going := PublishNext(events, done, env, meanwhile, before, ids, batch, at, still);
        if going {
          done := done + 1;
        }
      }
    }

    /** Claim a selection and attempt its events. */
    method AttemptBatch(ids: seq<int>, env: nat -> Fate, meanwhile: nat -> seq<Label>, ghost still: bool)
      returns (done: nat)
      requires Valid() && Mine(Idle) && ids != [] && IsSelection(View(), ids)
      requires Around(env, meanwhile, me)
      requires still ==> Still(meanwhile)
      modifies this
      ensures Valid() && old(run) <= run && old(clock) <= clock && Mine(Idle)
      ensures done <= |ids| && MyRecords() == old(MyRecords()) + done
      ensures still ==> SoFar(config, env, old(rows), rows, ids, done, old(clock))
      ensures still ==> workers == old(workers)[me := Idle]
      ensures still && Contained(env) ==> done == |ids|
      ensures Instant(meanwhile) ==> clock == old(clock)
    {
      var at := clock;
      SelectionOk(ids);
      var events, batch := ClaimBatch(ids, meanwhile(0));
      done := PublishAll(events, env, meanwhile, old(rows), ids, batch, at, still);
    }

    /** process_batch: claim, publish one by one outside any transaction, record each outcome.
        `env` decides the fate of each attempt, and `meanwhile` what other workers and the
        environment do between this worker's steps. `done` is less than the number of claimed
        events exactly if an error escaped. */
    method ProcessBatch(env: nat -> Fate, meanwhile: nat -> seq<Label>) returns (n: nat, done: nat, ghost ids: seq<int>)
      requires Valid() && Mine(Idle)
      requires Around(env, meanwhile, me)
      modifies this
      ensures Valid() && old(run) <= run && old(clock) <= clock && Mine(Idle)
      ensures n == |ids| && IsSelection(old(View()), ids)
      ensures done <= n && MyRecords() == old(MyRecords()) + done
      ensures n == 0 ==> View() == old(View())
      ensures n == 0 ==> forall id :: id in rows && RowFree(View(), id) ==> !Due(rows[id], clock)
      ensures Still(meanwhile) ==> HalfDone(config, old(rows), rows, ids, done, old(clock))
      ensures Still(meanwhile) ==> Fates(env, ids, done, rows)
      ensures Still(meanwhile) ==> workers == if n == 0 then old(workers) else old(workers)[me := Idle]
      ensures Still(meanwhile) ==> Work(config, rows) + done <= Work(config, old(rows))
      ensures Still(meanwhile) && Contained(env) ==> done == n
      ensures Instant(meanwhile) ==> clock == old(clock)
    {
      var chosen := SelectBatch();
      n, done, ids := |chosen|, 0, chosen;
      SelectionOk(ids);
      if chosen != [] {
        done := AttemptBatch(chosen, env, meanwhile, Still(meanwhile));
      }
      if Still(meanwhile) {
        BatchDrains(config, old(rows), rows, ids, done, old(clock));
      }
    }

    /** Recovery, when a whole interval has gone since the last one. */
    method RecoverIfTime(lastRecoveryAt: int, ghost times: seq<int>) returns (last: int)
      requires Valid() && lastRecoveryAt == LastRecovery(times, config.threshold)
      modifies this`rows, this`tally, this`run
      ensures last == LastRecovery(times + [clock], config.threshold)
      ensures last == if config.threshold <= clock - lastRecoveryAt then clock else lastRecoveryAt
      ensures forall id :: id in rows && id in old(rows) ==>
        rows[id] ==
          if RecoversAt(times + [clock], config.threshold, |times|) && Stuck(old(rows)[id], clock, config.threshold)
          then RecoveredRow(old(rows)[id], clock) else old(rows)[id]
      ensures run == old(run) + if RecoversAt(times + [clock], config.threshold, |times|) then [Recover] else []
      ensures Valid() && MyRecords() == old(MyRecords()) && rows.Keys == old(rows).Keys
      ensures Work(config, rows) == Work(config, old(rows))
      ensures old(RecoveryOk(config, rows, lastRecoveryAt)) ==>
        RecoveryOk(config, rows, last) && RecoveryAhead(config, rows, clock)
      ensures NoneDue(rows, clock) ==> rows == old(rows)
    {
      last := lastRecoveryAt;
      RecoveryAppend(times, config.threshold, clock);
      if config.threshold <= clock - last {
        RecoverStuckEvents();
        last := clock;
        RecoveredAreDue(config, old(rows), rows, clock);
      } else if RecoveryOk(config, rows, last) {
        NotYetStuck(config, rows, last, clock);
      }
    }

    /** The pause of an iteration, if it needs one, and what others do then. */
    method Pause(needed: bool, pollInterval: nat, after: seq<Label>)
      requires Valid() && Foreign(after, me)
      modifies this
      ensures Valid() && Mine(old(WorkerOf(View(), me))) && MyRecords() == old(MyRecords())
      ensures run == old(run) + (if needed then [Tick(pollInterval)] else []) + after
      ensures old(clock) + (if needed then pollInterval else 0) <= clock
      ensures after == [] ==> clock == old(clock) + if needed then pollInterval else 0
      ensures Ticks(after) ==> rows == old(rows) && workers == old(workers)
    {
      if needed {
        Wait(pollInterval);
      }
      Meanwhile(after);
    }

    /** A batch, then a pause if there was nothing to do or an error escaped. `still` says that no
        other worker does anything. */
    method BatchOrPause(env: nat -> Fate, meanwhile: nat -> seq<Label>, around: nat -> seq<Label>, pollInterval: nat,
                        ghost last: int, ghost still: bool)
      returns (n: nat, done: nat, ghost mid: seq<Label>)
      requires Valid() && Mine(Idle) && 1 <= pollInterval
      requires Around(env, meanwhile, me) && forall k :: Foreign(around(k), me)
      requires still ==> Quiet() && RecoveryOk(config, rows, last) && (last == 0 || last <= clock)
      requires still ==> Still(meanwhile) && Still(around)
      modifies this
      ensures Valid() && Mine(Idle) && old(clock) <= clock && old(run) + around(0) <= mid
      ensures run == mid + (if n == 0 || done < n then [Tick(pollInterval)] else []) + around(1)
      ensures done <= n && MyRecords() == old(MyRecords()) + done
      ensures n == 0 || done < n ==> old(clock) + pollInterval <= clock
      ensures Instant(meanwhile) && Instant(around) ==>
        clock == old(clock) + if n == 0 || done < n then pollInterval else 0
      ensures still ==> Quiet() && RecoveryOk(config, rows, last) && rows.Keys == old(rows).Keys
      ensures still ==> Work(config, rows) + done <= Work(config, old(rows))
      ensures still && Contained(env) ==> done == n
      ensures still && n == 0 ==> rows == old(rows) && NoneDue(rows, old(clock))
    {
      ghost var ids;
      Meanwhile(around(0));
      ghost var before, at := rows, clock;
      n, done, ids := ProcessBatch(env, meanwhile);
      if still {
        BatchKeepsRecoveryOk(config, before, rows, ids, done, at, last);
      }
      mid := run;
      Pause(n == 0 || done < n, pollInterval, around(1));
    }

    lemma NotReadyAt(now: int)
      requires Valid() && NoneDue(rows, now) && RecoveryAhead(config, rows, now)
      ensures now < Horizon(config, rows) || Finished(rows)
    {
      Sound();
      NotReady(config, rows, now);
    }

    /** One iteration of the loop: recovery if it is time, then a batch or a pause. */
    method Iterate(lastRecoveryAt: int, env: nat -> Fate, meanwhile: nat -> seq<Label>, around: nat -> seq<Label>,
                   pollInterval: nat, ghost times: seq<int>, ghost still: bool)
      returns (last: int, n: nat, done: nat, ghost mid: seq<Label>)
      requires Valid() && Mine(Idle) && 1 <= pollInterval && lastRecoveryAt == LastRecovery(times, config.threshold)
      requires Around(env, meanwhile, me) && forall k :: Foreign(around(k), me)
      requires still ==> Quiet() && Still(meanwhile) && Still(around)
      requires still ==> RecoveryOk(config, rows, lastRecoveryAt) && (lastRecoveryAt == 0 || lastRecoveryAt <= clock)
      modifies this
      ensures Valid() && Mine(Idle) && old(clock) <= clock && old(run) <= mid
      ensures run == mid + (if n == 0 || done < n then [Tick(pollInterval)] else []) + around(1)
      ensures last == LastRecovery(times + [old(clock)], config.threshold)
      ensures RecoversAt(times + [old(clock)], config.threshold, |times|) ==> old(run) + [Recover] <= run
      ensures done <= n && MyRecords() == old(MyRecords()) + done
      ensures n == 0 || done < n ==> old(clock) + pollInterval <= clock
      ensures Instant(meanwhile) && Instant(around) ==>
        clock == old(clock) + if n == 0 || done < n then pollInterval else 0
      ensures still ==> Quiet() && RecoveryOk(config, rows, last) && (last == 0 || last <= clock)
      ensures still ==> rows.Keys == old(rows).Keys && Work(config, rows) + done <= Work(config, old(rows))
      ensures still && Contained(env) ==> done == n
      ensures still && n == 0 ==> rows == old(rows)
      ensures still && n == 0 ==> old(clock) < Horizon(config, rows) || Finished(rows)
    {
      last := RecoverIfTime(lastRecoveryAt, times);
      n, done, mid := BatchOrPause(env, meanwhile, around, pollInterval, last, still);
      if still && n == 0 {
        NotReadyAt(old(clock));
      }
    }

    /** run_worker among any number of other workers that do anything, while events arrive, until
        the shutdown signal after `rounds` iterations. Its run is cut into turns that recover on
        schedule. */
    method RunAmongOthers(env: nat -> nat -> Fate, meanwhile: nat -> nat -> seq<Label>,
                          around: nat -> nat -> seq<Label>, pollInterval: nat, rounds: nat)
      returns (attempts: nat, ghost turns: seq<seq<Label>>, ghost times: seq<int>)
      requires Valid() && Mine(Idle) && 1 <= pollInterval
      requires forall i :: Around(env(i), meanwhile(i), me) && forall k :: Foreign(around(i)(k), me)
      modifies this
      ensures Valid() && Mine(Idle) && MyRecords() == old(MyRecords()) + attempts
      ensures |turns| == rounds && Scheduled(old(View()), turns, times)
      ensures View() == Exec(old(View()), Flat(turns))
    {
      var lastRecoveryAt := 0;
      attempts, turns, times := 0, [], [];   // the steps of each iteration, and when it began
      for i := 0 to rounds
        invariant Valid() && Mine(Idle) && MyRecords() == old(MyRecords()) + attempts
        invariant |turns| == i && lastRecoveryAt == LastRecovery(times, config.threshold)
        invariant Scheduled(old(View()), turns, times) && View() == Exec(old(View()), Flat(turns))
      {
        var n, done;
        ghost var mid;
        ghost var now, earlier := clock, run;
        lastRecoveryAt, n, done, mid :=
          Iterate(lastRecoveryAt, env(i), meanwhile(i), around(i), pollInterval, times, false);
        ghost var turn := TurnTaken(origin, earlier, run, old(View()), turns, times, now);
        attempts, turns, times := attempts + done, turns + [turn], times + [now];
      }
    }

    lemma WorkLeft()
      requires Valid()
      ensures 0 <= Work(config, rows) <= config.maxRetries * |rows|
    {
      Sound();
      WorkAtMost(config, rows);
    }

    /** The loop of run_worker until the outbox is empty. */
    method Drain(env: nat -> nat -> Fate, meanwhile: nat -> nat -> seq<Label>, around: nat -> nat -> seq<Label>,
                 pollInterval: nat, ghost faults: nat)
      returns (attempts: nat, ghost turns: seq<seq<Label>>, ghost times: seq<int>)
      requires Valid() && Quiet() && 1 <= pollInterval
      requires forall i :: Still(meanwhile(i)) && Still(around(i)) && (faults <= i ==> Contained(env(i)))
      requires forall i, k :: FateOk(env(i)(k))
      modifies this
      ensures Valid() && rows.Keys == old(rows).Keys && MyRecords() == old(MyRecords()) + attempts
      ensures Scheduled(old(View()), turns, times) && View() == Exec(old(View()), Flat(turns))
      ensures Finished(rows)
      ensures attempts + Work(config, rows) <= Work(config, old(rows))
    {
      var lastRecoveryAt, i := 0, 0;
      attempts, turns, times := 0, [], [];
      while !Finished(rows)
        invariant Valid() && Quiet() && RecoveryOk(config, rows, lastRecoveryAt)
        invariant lastRecoveryAt == 0 || lastRecoveryAt <= clock
        invariant rows.Keys == old(rows).Keys && lastRecoveryAt == LastRecovery(times, config.threshold)
        invariant Scheduled(old(View()), turns, times) && View() == Exec(old(View()), Flat(turns))
        invariant attempts + Work(config, rows) <= Work(config, old(rows)) && MyRecords() == old(MyRecords()) + attempts
        decreases if i < faults then faults - i else 0, Work(config, rows), Horizon(config, rows) - clock
      {
        var n, done;
        ghost var mid;
        ghost var now, earlier := clock, run;
        WorkLeft();
        TicksAreForeign(meanwhile(i), me);
        TicksAreForeign(around(i), me);
        lastRecoveryAt, n, done, mid :=
          Iterate(lastRecoveryAt, env(i), meanwhile(i), around(i), pollInterval, times, true);
        ghost var turn := TurnTaken(origin, earlier, run, old(View()), turns, times, now);
        attempts, i, turns, times := attempts + done, i + 1, turns + [turn], times + [now];
      }
    }

    /** run_worker: with no new events, no other worker, errors that escape a batch in finitely many
        iterations only, and a shutdown signal when nothing is left, every event ends as sent or
        dead-lettered after at most max_retries recorded attempts for each. */
    method RunWorker(env: nat -> nat -> Fate, meanwhile: nat -> nat -> seq<Label>, around: nat -> nat -> seq<Label>,
                     pollInterval: nat, ghost faults: nat)
      returns (attempts: nat, ghost turns: seq<seq<Label>>, ghost times: seq<int>)
      requires Valid() && Quiet() && 1 <= pollInterval
      requires forall i :: Still(meanwhile(i)) && Still(around(i)) && (faults <= i ==> Contained(env(i)))
      requires forall i, k :: FateOk(env(i)(k))
      modifies this
      ensures Valid() && rows.Keys == old(rows).Keys && MyRecords() == old(MyRecords()) + attempts
      ensures Scheduled(old(View()), turns, times) && View() == Exec(old(View()), Flat(turns))
      ensures forall id :: id in rows ==> rows[id].status == Sent || rows[id].status == Dlq
      ensures attempts <= config.maxRetries * |old(rows)|
    {
      WorkLeft();
      attempts, turns, times := Drain(env, meanwhile, around, pollInterval, faults);
      WorkLeft();
    }
  }
}
