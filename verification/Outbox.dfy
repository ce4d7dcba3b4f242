/** The outbox workers as a state machine: any number of workers share the outbox table and
    the broker. As in module Purchase a schedule is a sequence of labels and a label that is
    not enabled changes nothing. */
module Outbox {
  import opened Schema
  import opened Backoff

  /** OUTBOX_MAX_RETRIES, OUTBOX_BATCH_SIZE and the stuck threshold (in microseconds). */
  datatype Config = Config(maxRetries: int, batchSize: int, threshold: int)

  predicate ConfigOk(c: Config) {
    1 <= c.maxRetries && 1 <= c.batchSize && 0 <= c.threshold
  }

  /** A worker's in-memory copy of an event: its retry_count is the one read at claim time.
      `epoch` numbers the claims of the event and is history only. */
  datatype Held = Held(id: int, payload: Payload, retries: int, epoch: int)

  /** Where a worker is with the event it is publishing. */
  datatype Stage = Ready | Accepted | Failing(error: string)

  datatype Worker =
    | Idle
    | Selecting(batch: seq<Held>, at: int)                          // rows locked, not yet committed
    | Working(batch: seq<Held>, next: nat, stage: Stage, at: int)   // batch[next..] still to do

  /** An accepted message; the epoch of the claim behind it is history only. */
  datatype Msg = Msg(id: int, epoch: int, payload: Payload)

  /** History of one event: claims, recorded failures, recoveries. */
  datatype Tally = Tally(claims: int, failures: int, recoveries: int)

  datatype Box = Box(
    config: Config,
    rows: map<int, Row>,
    eventSeq: int,
    workers: map<int, Worker>,
    broker: seq<Msg>,
    clock: int,
    tally: map<int, Tally>)

  datatype Label =
    | Tick(d: int)
    | Insert(id: int, payload: Payload, at: int)
    | Select(w: int, ids: seq<int>)
    | Claim(w: int)
    | Publish(w: int, accepted: bool, raised: Option<string>)
    | MarkSent(w: int)
    | MarkSentFails(w: int, error: string)
    | MarkFailed(w: int, jitter: int)
    | Abandon(w: int)        // crash, or an error that escapes the batch
    | Recover

  function Init(c: Config): Box {
    Box(c, map[], 1, map[], [], 0, map[])
  }

  function NewRow(p: Payload, at: int): Row {
    Row(p, Pending, 0, Some(at), None, None, at, at)
  }

  function ClaimedRow(row: Row, at: int): Row {
    row.(status := Processing, updatedAt := at)
  }

  function SentRow(row: Row, now: int): Row {
    row.(status := Sent, sentAt := Some(now), error := None, updatedAt := now)
  }

  /** The error text is cut to 1000 characters. */
  function Clip(error: string): string {
    if |error| <= 1000 then error else error[..1000]
  }

  /** The failure record is computed from the worker's copy of retry_count, not the row's. */
  function FailedRow(row: Row, maxRetries: int, retries: nat, now: int, jitter: int, error: string): Row {
    var n := retries + 1;
    row.(
      status := if maxRetries <= n then Dlq else Pending,
      retryCount := n,
      nextRetryAt := if maxRetries <= n then None else Some(now + Delay(n, jitter)),
      error := Some(Clip(error)),
      updatedAt := now)
  }

  predicate Stuck(row: Row, now: int, threshold: int) {
    row.status == Processing && row.updatedAt < now - threshold
  }

  function RecoveredRow(row: Row, now: int): Row {
    row.(status := Pending, nextRetryAt := Some(now), updatedAt := now)
  }

  predicate Due(row: Row, now: int) {
    row.status == Pending && row.nextRetryAt.Some? && row.nextRetryAt.value <= now
  }

  predicate Has(batch: seq<Held>, from: nat, id: int) {
    exists i :: from <= i < |batch| && batch[i].id == id
  }

  function WorkerOf(b: Box, w: int): Worker {
    if w in b.workers then b.workers[w] else Idle
  }

  /** Row locks are held between the SELECT and the commit of a claim. */
  predicate RowFree(b: Box, id: int) {
    forall w :: w in b.workers && b.workers[w].Selecting? ==> !Has(b.workers[w].batch, 0, id)
  }

  predicate NoneYounger(rows: map<int, Row>, ids: seq<int>, createdAt: int)
    requires forall i :: 0 <= i < |ids| ==> ids[i] in rows
  {
    forall i :: 0 <= i < |ids| ==> rows[ids[i]].createdAt <= createdAt
  }

  /** Pending, due, oldest first, at most `limit` rows, locked rows skipped. */
  predicate IsSelection(b: Box, ids: seq<int>) {
    && |ids| <= b.config.batchSize
    && (forall i :: 0 <= i < |ids| ==> ids[i] in b.rows && Due(b.rows[ids[i]], b.clock) && RowFree(b, ids[i]))
    && (forall i, j :: 0 <= i < j < |ids| ==>
          ids[i] != ids[j] && b.rows[ids[i]].createdAt <= b.rows[ids[j]].createdAt)
    && (forall id :: id in b.rows && id !in ids && Due(b.rows[id], b.clock) && RowFree(b, id) ==>
          |ids| == b.config.batchSize && NoneYounger(b.rows, ids, b.rows[id].createdAt))
  }

  function Hold(b: Box, ids: seq<int>): seq<Held>
    requires forall i :: 0 <= i < |ids| ==> ids[i] in b.rows && ids[i] in b.tally
  {
    seq(|ids|, i requires 0 <= i < |ids| =>
      Held(ids[i], b.rows[ids[i]].payload, b.rows[ids[i]].retryCount, b.tally[ids[i]].claims + 1))
  }

  predicate InStage(b: Box, w: int) {
    WorkerOf(b, w).Working? && WorkerOf(b, w).next < |WorkerOf(b, w).batch|
  }

  function Current(b: Box, w: int): Held
    requires InStage(b, w)
  {
    WorkerOf(b, w).batch[WorkerOf(b, w).next]
  }

  /** The event in hand can be written: it exists and no claim holds its lock. */
  predicate CanWrite(b: Box, w: int) {
    && InStage(b, w)
    && Current(b, w).id in b.rows && Current(b, w).id in b.tally
    && RowFree(b, Current(b, w).id)
  }

  function Advance(wk: Worker): Worker
    requires wk.Working?
  {
    if wk.next + 1 < |wk.batch| then Working(wk.batch, wk.next + 1, Ready, wk.at) else Idle
  }

  predicate Enabled(b: Box, l: Label) {
    match l
    case Tick(d) => 0 <= d
    case Insert(id, _, at) => id !in b.rows && at <= b.clock
    case Select(w, ids) =>
      && WorkerOf(b, w).Idle? && ids != [] && IsSelection(b, ids)
      && forall i :: 0 <= i < |ids| ==> ids[i] in b.tally
    case Claim(w) => WorkerOf(b, w).Selecting?
    case Publish(w, accepted, raised) =>
      InStage(b, w) && WorkerOf(b, w).stage.Ready? && (accepted || raised.Some?)
    case MarkSent(w) => CanWrite(b, w) && WorkerOf(b, w).stage.Accepted?
    case MarkSentFails(w, _) => InStage(b, w) && WorkerOf(b, w).stage.Accepted?
    case MarkFailed(w, jitter) =>
      CanWrite(b, w) && WorkerOf(b, w).stage.Failing? && Jitter(jitter) && 0 <= Current(b, w).retries
    case Abandon(w) => !WorkerOf(b, w).Idle?
    case Recover => true
  }

  function DoInsert(b: Box, id: int, payload: Payload, at: int): Box {
    b.(
      rows := b.rows[id := NewRow(payload, at)],
      tally := b.tally[id := Tally(0, 0, 0)],
      eventSeq := Max(b.eventSeq, id + 1))
  }

  function DoClaim(b: Box, w: int): Box
    requires WorkerOf(b, w).Selecting?
  {
    var wk := WorkerOf(b, w);
    b.(
      rows := map id | id in b.rows :: if Has(wk.batch, 0, id) then ClaimedRow(b.rows[id], wk.at) else b.rows[id],
      tally := map id | id in b.tally ::
        if Has(wk.batch, 0, id) then b.tally[id].(claims := b.tally[id].claims + 1) else b.tally[id],
      workers := b.workers[w := if wk.batch == [] then Idle else Working(wk.batch, 0, Ready, wk.at)])
  }

  /** The broker may accept the message and still raise (a lost confirm). */
  function DoPublish(b: Box, w: int, accepted: bool, raised: Option<string>): Box
    requires InStage(b, w)
  {
    var h := Current(b, w);
    b.(
      broker := if accepted then b.broker + [Msg(h.id, h.epoch, h.payload)] else b.broker,
      workers := b.workers[w := WorkerOf(b, w).(stage := if raised.Some? then Failing(raised.value) else Accepted)])
  }

  function DoMarkSent(b: Box, w: int): Box
    requires CanWrite(b, w)
  {
    var id := Current(b, w).id;
    b.(rows := b.rows[id := SentRow(b.rows[id], b.clock)], workers := b.workers[w := Advance(WorkerOf(b, w))])
  }

  function DoMarkFailed(b: Box, w: int, jitter: int): Box
    requires CanWrite(b, w) && WorkerOf(b, w).stage.Failing? && 0 <= Current(b, w).retries
  {
    var h, wk := Current(b, w), WorkerOf(b, w);
    b.(
      rows := b.rows[h.id := FailedRow(b.rows[h.id], b.config.maxRetries, h.retries, b.clock, jitter, wk.stage.error)],
      tally := b.tally[h.id := b.tally[h.id].(failures := b.tally[h.id].failures + 1)],
      workers := b.workers[w := Advance(wk)])
  }

  function DoRecover(b: Box): Box {
    b.(
      rows := map id | id in b.rows ::
        if Stuck(b.rows[id], b.clock, b.config.threshold) then RecoveredRow(b.rows[id], b.clock) else b.rows[id],
      tally := map id | id in b.tally ::
        if id in b.rows && Stuck(b.rows[id], b.clock, b.config.threshold)
        then b.tally[id].(recoveries := b.tally[id].recoveries + 1) else b.tally[id])
  }

  function Effect(b: Box, l: Label): Box
    requires Enabled(b, l)
  {
    match l
    case Tick(d) => b.(clock := b.clock + d)
    case Insert(id, payload, at) => DoInsert(b, id, payload, at)
    case Select(w, ids) => b.(workers := b.workers[w := Selecting(Hold(b, ids), b.clock)])
    case Claim(w) => DoClaim(b, w)
    case Publish(w, accepted, raised) => DoPublish(b, w, accepted, raised)
    case MarkSent(w) => DoMarkSent(b, w)
    case MarkSentFails(w, error) => b.(workers := b.workers[w := WorkerOf(b, w).(stage := Failing(error))])
    case MarkFailed(w, jitter) => DoMarkFailed(b, w, jitter)
    case Abandon(w) => b.(workers := b.workers[w := Idle])
    case Recover => DoRecover(b)
  }

  function Step(b: Box, l: Label): Box {
    if Enabled(b, l) then Effect(b, l) else b
  }

  function Exec(b: Box, ls: seq<Label>): Box {
    if ls == [] then b else Step(Exec(b, ls[..|ls| - 1]), ls[|ls| - 1])
  }

  /** A step of worker `w` itself. */
  predicate OwnedBy(l: Label, w: int) {
    match l
    case Tick(_) => false
    case Insert(_, _, _) => false
    case Recover => false
    case Select(x, _) => x == w
    case Claim(x) => x == w
    case Publish(x, _, _) => x == w
    case MarkSent(x) => x == w
    case MarkSentFails(x, _) => x == w
    case MarkFailed(x, _) => x == w
    case Abandon(x) => x == w
  }

  predicate Foreign(ls: seq<Label>, w: int) {
    forall i :: 0 <= i < |ls| ==> !OwnedBy(ls[i], w)
  }

  /** The steps of others leave a worker where it is. */
  lemma ForeignStep(b: Box, l: Label, w: int)
    requires !OwnedBy(l, w)
    ensures WorkerOf(Step(b, l), w) == WorkerOf(b, w)
    ensures b.clock <= Step(b, l).clock && Step(b, l).config == b.config
  {
  }

  lemma ExecAppend(b: Box, ls: seq<Label>, l: Label)
    ensures Exec(b, ls + [l]) == Step(Exec(b, ls), l)
  {
  }

  lemma ExecTake(b: Box, ls: seq<Label>, i: nat)
    requires i < |ls|
    ensures Exec(b, ls[..i + 1]) == Step(Exec(b, ls[..i]), ls[i])
  {
    assert ls[..i + 1][..i] == ls[..i];
  }

  lemma {:induction false} ExecConcat(b: Box, ls: seq<Label>, more: seq<Label>)
    ensures Exec(b, ls + more) == Exec(Exec(b, ls), more)
  {
    if more == [] {
      assert ls + more == ls;
    } else {
      var n := |more| - 1;
      ExecConcat(b, ls, more[..n]);
      assert (ls + more)[..|ls| + n] == ls + more[..n];
    }
  }
}
