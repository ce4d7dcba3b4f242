/** What every step of every interleaving of the outbox workers keeps, stale holders, lost
    confirms, failed writes, crashes and recoveries included. */
module OutboxInvariant {
  import opened Schema
  import opened Outbox

  /** A row that will be tried again has attempts left and a time for it; a dead-lettered row
      has used exactly all of them; a sent row says when. */
  predicate RowOk(c: Config, row: Row) {
    && 0 <= row.retryCount <= c.maxRetries
    && (row.status == Pending || row.status == Processing ==>
          row.retryCount < c.maxRetries && row.nextRetryAt.Some?)
    && (row.status == Dlq ==> row.retryCount == c.maxRetries && row.nextRetryAt.None?)
    && (row.status == Sent ==> row.sentAt.Some?)
    && (row.error.Some? ==> |row.error.value| <= 1000)
  }

  predicate TallyOk(t: Tally, status: Status) {
    && 0 <= t.claims && 0 <= t.failures && 0 <= t.recoveries
    && t.claims <= t.failures + t.recoveries + (if status == Pending then 0 else 1)
  }

  predicate RowsOk(b: Box) {
    && ConfigOk(b.config)
    && b.tally.Keys == b.rows.Keys
    && forall id :: id in b.rows ==>
         id < b.eventSeq && RowOk(b.config, b.rows[id]) && TallyOk(b.tally[id], b.rows[id].status)
  }

  predicate InBroker(broker: seq<Msg>, id: int, epoch: int) {
    exists j :: 0 <= j < |broker| && broker[j].id == id && broker[j].epoch == epoch
  }

  /** Every message is one claim's message and carries its event's payload; every sent event
      is in the broker. */
  predicate MsgOk(b: Box, m: Msg) {
    && m.id in b.rows && m.id in b.tally
    && m.payload == b.rows[m.id].payload
    && 1 <= m.epoch <= b.tally[m.id].claims
  }

  predicate Reached(broker: seq<Msg>, id: int) {
    exists j :: 0 <= j < |broker| && broker[j].id == id
  }

  predicate BrokerOk(b: Box) {
    && (forall j :: 0 <= j < |b.broker| ==> MsgOk(b, b.broker[j]))
    && (forall i, j :: 0 <= i < j < |b.broker| ==>
          b.broker[i].id != b.broker[j].id || b.broker[i].epoch != b.broker[j].epoch)
    && (forall id :: id in b.rows && b.rows[id].status == Sent ==> Reached(b.broker, id))
  }

  /** A row locked by a claim in progress is still as it was read. */
  predicate SelectedOk(b: Box, h: Held) {
    && h.id in b.rows && h.id in b.tally
    && h.payload == b.rows[h.id].payload
    && b.rows[h.id].status == Pending
    && h.retries == b.rows[h.id].retryCount
    && h.epoch == b.tally[h.id].claims + 1
  }

  /** A claimed event may have changed under its holder, except for its payload. */
  predicate HeldOk(b: Box, h: Held) {
    && h.id in b.rows && h.id in b.tally
    && h.payload == b.rows[h.id].payload
    && 0 <= h.retries < b.config.maxRetries
    && 1 <= h.epoch <= b.tally[h.id].claims
  }

  predicate DistinctIds(batch: seq<Held>) {
    forall i, j :: 0 <= i < j < |batch| ==> batch[i].id != batch[j].id
  }

  predicate WorkerOk(b: Box, wk: Worker) {
    match wk
    case Idle => true
    case Selecting(batch, at) =>
      && batch != [] && DistinctIds(batch) && at <= b.clock
      && forall i :: 0 <= i < |batch| ==> SelectedOk(b, batch[i])
    case Working(batch, next, stage, at) =>
      && next < |batch| && DistinctIds(batch) && at <= b.clock
      && (forall i :: next <= i < |batch| ==> HeldOk(b, batch[i]))
      && (stage.Accepted? ==> InBroker(b.broker, batch[next].id, batch[next].epoch))
      && (forall i :: next <= i < |batch| && (next < i || stage.Ready?) ==>
            !InBroker(b.broker, batch[i].id, batch[i].epoch))
  }

  /** Two workers never claim the same row at the same time, and never work for the same claim. */
  predicate Apart(x: Worker, y: Worker) {
    && (x.Selecting? && y.Selecting? ==>
          forall i, j :: 0 <= i < |x.batch| && 0 <= j < |y.batch| ==> x.batch[i].id != y.batch[j].id)
    && (x.Working? && y.Working? ==>
          forall i, j :: x.next <= i < |x.batch| && y.next <= j < |y.batch| ==>
            x.batch[i].id != y.batch[j].id || x.batch[i].epoch != y.batch[j].epoch)
  }

  predicate WorkersOk(b: Box) {
    && (forall w :: w in b.workers ==> WorkerOk(b, b.workers[w]))
    && (forall v, w :: v in b.workers && w in b.workers && v != w ==> Apart(b.workers[v], b.workers[w]))
  }

  predicate Inv(b: Box) {
    RowsOk(b) && BrokerOk(b) && WorkersOk(b)
  }

  lemma InvInit(c: Config)
    requires ConfigOk(c)
    ensures Inv(Init(c))
  {
  }

  /** What no step ever undoes: rows, payloads, claim counts. */
  predicate Keeps(b: Box, t: Box) {
    && t.config == b.config
    && b.clock <= t.clock
    && (forall id :: id in b.rows ==> id in t.rows && t.rows[id].payload == b.rows[id].payload)
    && (forall id :: id in b.tally ==> id in t.tally && b.tally[id].claims <= t.tally[id].claims)
  }

  /** The rows that `wk` has locked are the same in `t`. */
  predicate LockedSame(b: Box, t: Box, wk: Worker) {
    wk.Selecting? ==>
      forall id :: id in b.rows && Has(wk.batch, 0, id) ==>
        && id in t.rows && t.rows[id] == b.rows[id]
        && (id in b.tally && id in t.tally ==> t.tally[id].claims == b.tally[id].claims)
  }

  /** The workers are fine if the moving one is and the others saw nothing. */
  lemma MoverAndBystanders(b: Box, t: Box, w: int)
    requires WorkersOk(b) && Keeps(b, t) && t.broker == b.broker
    requires w in t.workers && t.workers == b.workers[w := t.workers[w]]
    requires WorkerOk(t, t.workers[w])
    requires forall v :: v in b.workers && v != w ==>
      LockedSame(b, t, b.workers[v]) && Apart(b.workers[v], t.workers[w]) && Apart(t.workers[w], b.workers[v])
    ensures WorkersOk(t)
  {
  }

  lemma AllBystanders(b: Box, t: Box)
    requires WorkersOk(b) && Keeps(b, t) && t.broker == b.broker && t.workers == b.workers
    requires forall v :: v in b.workers ==> LockedSame(b, t, b.workers[v])
    ensures WorkersOk(t)
  {
  }

  lemma MessagesStay(b: Box, t: Box)
    requires BrokerOk(b) && Keeps(b, t) && t.broker == b.broker
    requires forall id :: id in t.rows && t.rows[id].status == Sent ==> Reached(b.broker, id)
    ensures BrokerOk(t)
  {
  }

  lemma TickKeeps(b: Box, d: int)
    requires Inv(b) && 0 <= d
    ensures Inv(b.(clock := b.clock + d))
  {
  }

  lemma InsertKeeps(b: Box, id: int, payload: Payload, at: int)
    requires Inv(b) && id !in b.rows
    ensures Inv(DoInsert(b, id, payload, at))
  {
    var t := DoInsert(b, id, payload, at);
    MessagesStay(b, t);
    AllBystanders(b, t);
  }

  lemma SelectKeeps(b: Box, w: int, ids: seq<int>)
    requires Inv(b) && Enabled(b, Select(w, ids))
    ensures Inv(Effect(b, Select(w, ids)))
  {
    var t := Effect(b, Select(w, ids));
    MessagesStay(b, t);
    forall i | 0 <= i < |ids|
      ensures SelectedOk(t, Hold(b, ids)[i])
    {
      assert Due(b.rows[ids[i]], b.clock);
    }
    forall v | v in b.workers && v != w && b.workers[v].Selecting?
      ensures Apart(b.workers[v], t.workers[w]) && Apart(t.workers[w], b.workers[v])
    {
      forall i, j | 0 <= i < |ids| && 0 <= j < |b.workers[v].batch|
        ensures ids[i] != b.workers[v].batch[j].id
      {
        assert RowFree(b, ids[i]);
      }
    }
    MoverAndBystanders(b, t, w);
  }

  /** The claims a commit makes are newer than every claim a worker or a message knows. */
  lemma ClaimedHeld(b: Box, w: int, i: nat)
    requires Inv(b) && WorkerOf(b, w).Selecting? && i < |WorkerOf(b, w).batch|
    ensures HeldOk(DoClaim(b, w), WorkerOf(b, w).batch[i])
    ensures !InBroker(b.broker, WorkerOf(b, w).batch[i].id, WorkerOf(b, w).batch[i].epoch)
    ensures forall h: Held ::
      HeldOk(b, h) && h.id == WorkerOf(b, w).batch[i].id ==> h.epoch < WorkerOf(b, w).batch[i].epoch
  {
  }

  lemma LockedArePending(b: Box, w: int, id: int)
    requires Inv(b) && WorkerOf(b, w).Selecting? && Has(WorkerOf(b, w).batch, 0, id)
    ensures id in b.rows && b.rows[id].status == Pending
  {
    var batch := WorkerOf(b, w).batch;
    var i :| 0 <= i < |batch| && batch[i].id == id;
    assert SelectedOk(b, batch[i]);
  }

  lemma ClaimRows(b: Box, w: int)
    requires Inv(b) && WorkerOf(b, w).Selecting?
    requires forall id :: Has(WorkerOf(b, w).batch, 0, id) ==> id in b.rows && b.rows[id].status == Pending
    ensures RowsOk(DoClaim(b, w)) && Keeps(b, DoClaim(b, w))
  {
  }

  lemma ClaimMessages(b: Box, w: int)
    requires Inv(b) && WorkerOf(b, w).Selecting?
    ensures RowsOk(DoClaim(b, w)) && BrokerOk(DoClaim(b, w)) && Keeps(b, DoClaim(b, w))
  {
    forall id | Has(WorkerOf(b, w).batch, 0, id)
      ensures id in b.rows && b.rows[id].status == Pending
    {
      LockedArePending(b, w, id);
    }
    ClaimRows(b, w);
    MessagesStay(b, DoClaim(b, w));
  }

  /** A claim that commits is apart from every other worker. */
  lemma ClaimApart(b: Box, w: int, v: int)
    requires Inv(b) && WorkerOf(b, w).Selecting? && v in b.workers && v != w
    ensures
      var t := DoClaim(b, w);
      LockedSame(b, t, b.workers[v]) && Apart(b.workers[v], t.workers[w]) && Apart(t.workers[w], b.workers[v])
  {
    var me, other := WorkerOf(b, w), b.workers[v];
    assert Apart(other, me) && Apart(me, other);
    if other.Working? {
      forall i, j | 0 <= i < |me.batch| && other.next <= j < |other.batch|
        ensures me.batch[i].id != other.batch[j].id || me.batch[i].epoch != other.batch[j].epoch
      {
        assert HeldOk(b, other.batch[j]);
        ClaimedHeld(b, w, i);
      }
    }
  }

  lemma ClaimKeeps(b: Box, w: int)
    requires Inv(b) && WorkerOf(b, w).Selecting?
    ensures Inv(DoClaim(b, w))
  {
    var t, me := DoClaim(b, w), WorkerOf(b, w);
    ClaimMessages(b, w);
    forall i | 0 <= i < |me.batch|
      ensures HeldOk(t, me.batch[i]) && !InBroker(b.broker, me.batch[i].id, me.batch[i].epoch)
    {
      ClaimedHeld(b, w, i);
    }
    forall v | v in b.workers && v != w
      ensures LockedSame(b, t, b.workers[v]) && Apart(b.workers[v], t.workers[w]) && Apart(t.workers[w], b.workers[v])
    {
      ClaimApart(b, w, v);
    }
    MoverAndBystanders(b, t, w);
  }

  lemma PublishBroker(b: Box, w: int, accepted: bool, raised: Option<string>)
    requires Inv(b) && Enabled(b, Publish(w, accepted, raised))
    requires HeldOk(b, Current(b, w)) && !InBroker(b.broker, Current(b, w).id, Current(b, w).epoch)
    ensures BrokerOk(DoPublish(b, w, accepted, raised))
  {
  }

  lemma PublishBystander(b: Box, t: Box, wk: Worker)
    requires WorkerOk(b, wk) && t.rows == b.rows && t.tally == b.tally && t.config == b.config && t.clock == b.clock
    ensures wk.Selecting? ==> WorkerOk(t, wk)
    ensures wk.Working? ==> forall i :: wk.next <= i < |wk.batch| ==> HeldOk(t, wk.batch[i])
  {
  }

  lemma PublishKeeps(b: Box, w: int, accepted: bool, raised: Option<string>)
    requires Inv(b) && Enabled(b, Publish(w, accepted, raised))
    ensures Inv(DoPublish(b, w, accepted, raised))
  {
    var t, me, h := DoPublish(b, w, accepted, raised), WorkerOf(b, w), Current(b, w);
    assert WorkerOk(b, me) && HeldOk(b, h) && !InBroker(b.broker, h.id, h.epoch);
    PublishBroker(b, w, accepted, raised);
    forall id, epoch
      ensures InBroker(t.broker, id, epoch) <==>
        InBroker(b.broker, id, epoch) || (accepted && id == h.id && epoch == h.epoch)
    {
      if InBroker(b.broker, id, epoch) {
        var j :| 0 <= j < |b.broker| && b.broker[j].id == id && b.broker[j].epoch == epoch;
        assert t.broker[j] == b.broker[j];
      } else if accepted && id == h.id && epoch == h.epoch {
        assert t.broker[|b.broker|].id == id;
      }
    }
    forall v | v in t.workers
      ensures WorkerOk(t, t.workers[v])
    {
      if v != w {
        assert WorkerOk(b, b.workers[v]) && Apart(b.workers[v], me);
        PublishBystander(b, t, b.workers[v]);
      } else {
        PublishBystander(b, t, me);
      }
    }
  }

  /** One event is written and the worker goes on to the next. */
  lemma WriteKeeps(b: Box, t: Box, w: int)
    requires Inv(b) && CanWrite(b, w) && Keeps(b, t) && t.broker == b.broker
    requires t.workers == b.workers[w := Advance(WorkerOf(b, w))]
    requires forall id :: id in b.rows && id != Current(b, w).id ==>
      t.rows[id] == b.rows[id] && (id in b.tally ==> t.tally[id].claims == b.tally[id].claims)
    ensures WorkersOk(t)
  {
    var me, wk := WorkerOf(b, w), Advance(WorkerOf(b, w));
    assert WorkerOk(b, me);
    if wk.Working? {
      forall i | wk.next <= i < |wk.batch|
        ensures HeldOk(t, wk.batch[i])
      {
        assert HeldOk(b, wk.batch[i]);
      }
    }
    forall v | v in b.workers && v != w
      ensures LockedSame(b, t, b.workers[v]) && Apart(b.workers[v], wk) && Apart(wk, b.workers[v])
    {
      assert Apart(b.workers[v], me) && Apart(me, b.workers[v]);
    }
    MoverAndBystanders(b, t, w);
  }

  lemma RecordRows(b: Box, id: int, row: Row, tally: Tally)
    requires RowsOk(b) && id in b.rows && RowOk(b.config, row) && TallyOk(tally, row.status)
    ensures RowsOk(b.(rows := b.rows[id := row], tally := b.tally[id := tally]))
  {
  }

  /** The event in hand written as `row`, and the worker gone on to the next. */
  function Recorded(b: Box, w: int, row: Row, tally: Tally): Box
    requires InStage(b, w)
  {
    var id := Current(b, w).id;
    b.(rows := b.rows[id := row], tally := b.tally[id := tally], workers := b.workers[w := Advance(WorkerOf(b, w))])
  }

  /** Writing a good row, with the claim count of its event unchanged, keeps everything. */
  lemma RecordKeeps(b: Box, w: int, row: Row, tally: Tally)
    requires Inv(b) && CanWrite(b, w)
    requires RowOk(b.config, row) && row.payload == b.rows[Current(b, w).id].payload
    requires TallyOk(tally, row.status) && tally.claims == b.tally[Current(b, w).id].claims
    requires row.status == Sent ==> Reached(b.broker, Current(b, w).id)
    ensures Inv(Recorded(b, w, row, tally))
  {
    var t := Recorded(b, w, row, tally);
    RecordRows(b, Current(b, w).id, row, tally);
    MessagesStay(b, t);
    WriteKeeps(b, t, w);
  }

  lemma MarkSentKeeps(b: Box, w: int)
    requires Inv(b) && Enabled(b, MarkSent(w))
    ensures Inv(DoMarkSent(b, w))
  {
    var h := Current(b, w);
    assert WorkerOk(b, WorkerOf(b, w)) && InBroker(b.broker, h.id, h.epoch);
    var j :| 0 <= j < |b.broker| && b.broker[j].id == h.id && b.broker[j].epoch == h.epoch;
    assert Reached(b.broker, h.id);
    RecordKeeps(b, w, SentRow(b.rows[h.id], b.clock), b.tally[h.id]);
    assert b.tally[h.id := b.tally[h.id]] == b.tally;
  }

  /** The record of a failure is a good row, however old the count it comes from. */
  lemma FailedRowOk(c: Config, row: Row, retries: nat, now: int, jitter: int, error: string)
    requires retries < c.maxRetries
    ensures RowOk(c, FailedRow(row, c.maxRetries, retries, now, jitter, error))
  {
  }

  lemma FailedTallyOk(tally: Tally, before: Status, after: Status)
    requires TallyOk(tally, before)
    ensures TallyOk(tally.(failures := tally.failures + 1), after)
  {
  }

  lemma HolderOk(b: Box, w: int)
    requires Inv(b) && InStage(b, w)
    ensures HeldOk(b, Current(b, w))
  {
    assert WorkerOk(b, WorkerOf(b, w));
  }

  lemma MarkFailedKeeps(b: Box, w: int, jitter: int)
    requires Inv(b) && Enabled(b, MarkFailed(w, jitter))
    ensures Inv(DoMarkFailed(b, w, jitter))
  {
    var h, wk := Current(b, w), WorkerOf(b, w);
    var row := FailedRow(b.rows[h.id], b.config.maxRetries, h.retries, b.clock, jitter, wk.stage.error);
    var tally := b.tally[h.id].(failures := b.tally[h.id].failures + 1);
    assert DoMarkFailed(b, w, jitter) == Recorded(b, w, row, tally);
    HolderOk(b, w);
    FailedRowOk(b.config, b.rows[h.id], h.retries, b.clock, jitter, wk.stage.error);
    FailedTallyOk(b.tally[h.id], b.rows[h.id].status, row.status);
    RecordKeeps(b, w, row, tally);
  }

  lemma RecoverKeeps(b: Box)
    requires Inv(b)
    ensures Inv(DoRecover(b))
  {
    var t := DoRecover(b);
    MessagesStay(b, t);
    forall v | v in b.workers
      ensures LockedSame(b, t, b.workers[v])
    {
      if b.workers[v].Selecting? {
        forall id | id in b.rows && Has(b.workers[v].batch, 0, id)
          ensures b.rows[id].status == Pending
        {
          var i :| 0 <= i < |b.workers[v].batch| && b.workers[v].batch[i].id == id;
          assert SelectedOk(b, b.workers[v].batch[i]);
        }
      }
    }
    AllBystanders(b, t);
  }

  /** A worker that gives up, or whose success record failed, touches no row. */
  lemma QuietKeeps(b: Box, w: int, wk: Worker)
    requires Inv(b) && w in b.workers
    requires wk.Idle? ||
      (wk.Working? && wk.stage.Failing? && b.workers[w].Working? && wk == b.workers[w].(stage := wk.stage))
    ensures Inv(b.(workers := b.workers[w := wk]))
  {
    var t := b.(workers := b.workers[w := wk]);
    MessagesStay(b, t);
    assert WorkerOk(b, b.workers[w]);
    forall v | v in b.workers && v != w
      ensures Apart(b.workers[v], wk) && Apart(wk, b.workers[v])
    {
      assert Apart(b.workers[v], b.workers[w]) && Apart(b.workers[w], b.workers[v]);
    }
    MoverAndBystanders(b, t, w);
  }

  lemma InvStep(b: Box, l: Label)
    requires Inv(b)
    ensures Inv(Step(b, l))
  {
    if Enabled(b, l) {
      match l
      case Tick(d) => TickKeeps(b, d);
      case Insert(id, payload, at) => InsertKeeps(b, id, payload, at);
      case Select(w, ids) => SelectKeeps(b, w, ids);
      case Claim(w) => ClaimKeeps(b, w);
      case Publish(w, accepted, raised) => PublishKeeps(b, w, accepted, raised);
      case MarkSent(w) => MarkSentKeeps(b, w);
      case MarkSentFails(w, error) => QuietKeeps(b, w, WorkerOf(b, w).(stage := Failing(error)));
      case MarkFailed(w, jitter) => MarkFailedKeeps(b, w, jitter);
      case Abandon(w) => QuietKeeps(b, w, Idle);
      case Recover => RecoverKeeps(b);
    }
  }

  lemma {:induction false} InvExec(b: Box, ls: seq<Label>)
    requires Inv(b)
    ensures Inv(Exec(b, ls))
  {
    if ls != [] {
      InvExec(b, ls[..|ls| - 1]);
      InvStep(Exec(b, ls[..|ls| - 1]), ls[|ls| - 1]);
    }
  }
}
