/** How far any number of workers get together, in runs in which no recovery comes while a live
    batch is older than the stuck threshold: every recorded attempt is one attempt fewer, and
    nobody can pass over an event more often than the events before it have attempts. Crashes, lost
    confirms, recoveries and new events are all part of such runs. */
module OutboxProgress {
  import opened Schema
  import opened Totals
  import opened Outbox
  import opened OutboxInvariant
  import opened Lease
  import opened Batch

  /** A step that records the outcome of an attempt. */
  predicate Records(b: Box, l: Label) {
    (l.MarkSent? || l.MarkFailed?) && Enabled(b, l)
  }

  predicate Inserts(b: Box, l: Label) {
    l.Insert? && Enabled(b, l)
  }

  function CountRecords(b: Box, ls: seq<Label>): nat {
    if ls == [] then 0
    else
      var n := |ls| - 1;
      CountRecords(b, ls[..n]) + (if Records(Exec(b, ls[..n]), ls[n]) then 1 else 0)
  }

  function CountInserts(b: Box, ls: seq<Label>): nat {
    if ls == [] then 0
    else
      var n := |ls| - 1;
      CountInserts(b, ls[..n]) + (if Inserts(Exec(b, ls[..n]), ls[n]) then 1 else 0)
  }

  /** The row a record writes was claimed by its writer and is written once. */
  lemma RecordSpends(b: Box, l: Label)
    requires Inv(b) && LeaseInv(b) && Records(b, l)
    ensures
      var id := Current(b, l.w).id;
      && id in b.rows && id in Step(b, l).rows
      && Step(b, l).rows == b.rows[id := Step(b, l).rows[id]]
      && b.rows[id].status == Processing && Step(b, l).rows[id].status != Processing
      && Step(b, l).rows[id].createdAt == b.rows[id].createdAt
      && 0 <= Attempts(b.config, Step(b, l).rows[id]) < Attempts(b.config, b.rows[id])
  {
    assert CurrentClaim(b, Current(b, l.w), WorkerOf(b, l.w).at);
    assert RowOk(b.config, b.rows[Current(b, l.w).id]);
  }

  lemma RecordLowersWork(b: Box, l: Label)
    requires Inv(b) && LeaseInv(b) && Records(b, l)
    ensures Work(b.config, Step(b, l).rows) + 1 <= Work(b.config, b.rows)
  {
    var t, id := Step(b, l), Current(b, l.w).id;
    RecordSpends(b, l);
    TotalUpdate(AttemptMap(b.config, b.rows), id, Attempts(b.config, t.rows[id]));
    assert AttemptMap(b.config, t.rows) == AttemptMap(b.config, b.rows)[id := Attempts(b.config, t.rows[id])];
  }

  lemma InsertRaisesWork(b: Box, l: Label)
    requires Inv(b) && Inserts(b, l)
    ensures Work(b.config, Step(b, l).rows) == Work(b.config, b.rows) + b.config.maxRetries
  {
    var t := Step(b, l);
    TotalInsert(AttemptMap(b.config, b.rows), l.id, b.config.maxRetries);
    assert AttemptMap(b.config, t.rows) == AttemptMap(b.config, b.rows)[l.id := b.config.maxRetries];
  }

  /** Claims and recoveries move a row between its two open states, with its count unchanged. */
  lemma OthersKeepAttempts(b: Box, l: Label)
    requires Inv(b) && !Records(b, l) && !Inserts(b, l)
    ensures Step(b, l).rows.Keys == b.rows.Keys
    ensures forall id :: id in b.rows ==>
      Open(Step(b, l).rows[id]) == Open(b.rows[id]) && Step(b, l).rows[id].retryCount == b.rows[id].retryCount
  {
    if l.Claim? && Enabled(b, l) {
      forall id | Has(WorkerOf(b, l.w).batch, 0, id)
        ensures id in b.rows && b.rows[id].status == Pending
      {
        LockedArePending(b, l.w, id);
      }
    }
  }

  lemma WorkStep(b: Box, l: Label)
    requires Inv(b) && LeaseInv(b)
    ensures Work(b.config, Step(b, l).rows) + (if Records(b, l) then 1 else 0) <=
            Work(b.config, b.rows) + (if Inserts(b, l) then b.config.maxRetries else 0)
  {
    if Records(b, l) {
      RecordLowersWork(b, l);
    } else if Inserts(b, l) {
      InsertRaisesWork(b, l);
    } else {
      OthersKeepAttempts(b, l);
      SameWork(b.config, b.rows, Step(b, l).rows);
    }
  }

  /** One more step of an account: `spent` of a `budget` that grows by `unit` with each income. */
  lemma Account(spent: int, left: int, budget: int, unit: int, incomes: nat, cost: int, left': int, income: bool)
    requires spent + left <= budget + unit * incomes
    requires left' + cost <= left + (if income then unit else 0)
    ensures spent + cost + left' <= budget + unit * (incomes + if income then 1 else 0)
  {
    assert unit * (incomes + 1) == unit * incomes + unit;
  }

  /** Whatever the workers do, they record no more attempts than the table had left, and
      max_retries for each event that arrives. */
  lemma {:induction false} DrainBound(b: Box, ls: seq<Label>)
    requires Inv(b) && LeaseInv(b) && PunctualRun(b, ls)
    ensures CountRecords(b, ls) + Work(b.config, Exec(b, ls).rows) <=
            Work(b.config, b.rows) + b.config.maxRetries * CountInserts(b, ls)
  {
    if ls != [] {
      var n := |ls| - 1;
      var t := Exec(b, ls[..n]);
      PunctualPrefix(b, ls, n);
      DrainBound(b, ls[..n]);
      LeaseRun(b, ls[..n]);
      WorkStep(t, ls[n]);
      Account(CountRecords(b, ls[..n]), Work(b.config, t.rows), Work(b.config, b.rows), b.config.maxRetries,
        CountInserts(b, ls[..n]), if Records(t, ls[n]) then 1 else 0,
        Work(b.config, Exec(b, ls).rows), Inserts(t, ls[n]));
    }
  }

  /** So a table of N events and M new ones costs at most max_retries attempts for each. */
  lemma AttemptsAreBounded(b: Box, ls: seq<Label>)
    requires Inv(b) && LeaseInv(b) && PunctualRun(b, ls)
    ensures CountRecords(b, ls) <= b.config.maxRetries * |b.rows| + b.config.maxRetries * CountInserts(b, ls)
  {
    DrainBound(b, ls);
    LeaseRun(b, ls);
    WorkAtMost(b.config, b.rows);
    WorkAtMost(b.config, Exec(b, ls).rows);
  }

  /** Event `id` comes before `e` in the order of selection. */
  predicate Before(rows: map<int, Row>, id: int, e: int)
    requires e in rows
  {
    id in rows && id != e && rows[id].createdAt <= rows[e].createdAt
  }

  /** Attempts that nobody has claimed yet. */
  function Unclaimed(c: Config, row: Row): int {
    Attempts(c, row) - (if row.status == Processing then 1 else 0)
  }

  function UnclaimedMap(c: Config, rows: map<int, Row>, e: int): map<int, int>
    requires e in rows
  {
    map id | id in rows :: if Before(rows, id, e) then Unclaimed(c, rows[id]) else 0
  }

  /** Unclaimed attempts of the events before `e`. */
  ghost function Ahead(c: Config, rows: map<int, Row>, e: int): int
    requires e in rows
  {
    Total(UnclaimedMap(c, rows, e))
  }

  function StuckMap(b: Box, e: int): map<int, int>
    requires e in b.rows
  {
    map id | id in b.rows :: if Before(b.rows, id, e) && Stuck(b.rows[id], b.clock, b.config.threshold) then 1 else 0
  }

  /** Events before `e` that a step recovers. */
  ghost function RecoveredAhead(b: Box, l: Label, e: int): int
    requires e in b.rows
  {
    if l.Recover? then Total(StuckMap(b, e)) else 0
  }

  /** A full batch of events before `e`. */
  predicate Skips(b: Box, batch: seq<Held>, e: int)
    requires e in b.rows
  {
    |batch| == b.config.batchSize && forall i :: 0 <= i < |batch| ==> Before(b.rows, batch[i].id, e)
  }

  /** The step claims a full batch of events before `e`. */
  predicate Passes(b: Box, l: Label, e: int) {
    l.Claim? && Enabled(b, l) && e in b.rows && Skips(b, WorkerOf(b, l.w).batch, e)
  }

  /** A selection that leaves out a due event which nobody has locked skips it in this sense. */
  lemma SelectionSkips(b: Box, w: int, ids: seq<int>, e: int)
    requires Enabled(b, Select(w, ids))
    requires e in b.rows && Due(b.rows[e], b.clock) && RowFree(b, e) && e !in ids
    ensures WorkerOf(Step(b, Select(w, ids)), w).Selecting?
    ensures Skips(Step(b, Select(w, ids)), WorkerOf(Step(b, Select(w, ids)), w).batch, e)
  {
  }

  lemma RowsGrow(b: Box, l: Label, e: int)
    requires e in b.rows
    ensures e in Step(b, l).rows && Step(b, l).rows[e].createdAt == b.rows[e].createdAt
  {
  }

  /** It still does when the claim commits, whatever happens in between. */
  lemma SkipsStays(b: Box, l: Label, batch: seq<Held>, e: int)
    requires Inv(b) && e in b.rows && Skips(b, batch, e)
    ensures e in Step(b, l).rows && Skips(Step(b, l), batch, e)
  {
    RowsGrow(b, l, e);
    forall i | 0 <= i < |batch|
      ensures Before(Step(b, l).rows, batch[i].id, e)
    {
      RowsGrow(b, l, batch[i].id);
    }
  }

  lemma {:induction false} SkipsUntilClaim(b: Box, w: int, ls: seq<Label>, e: int)
    requires Inv(b) && e in b.rows && WorkerOf(b, w).Selecting? && Skips(b, WorkerOf(b, w).batch, e) && Foreign(ls, w)
    ensures e in Exec(b, ls).rows && WorkerOf(Exec(b, ls), w) == WorkerOf(b, w)
    ensures Skips(Exec(b, ls), WorkerOf(b, w).batch, e)
  {
    if ls != [] {
      var n := |ls| - 1;
      SkipsUntilClaim(b, w, ls[..n], e);
      InvExec(b, ls[..n]);
      ForeignStep(Exec(b, ls[..n]), ls[n], w);
      SkipsStays(Exec(b, ls[..n]), ls[n], WorkerOf(b, w).batch, e);
    }
  }

  /** A selection that leaves out a due event which nobody has locked becomes, whatever others do
      before it commits, a claim that passes over the event. */
  lemma SelectionPasses(b: Box, w: int, ids: seq<int>, ls: seq<Label>, e: int)
    requires Inv(b) && Enabled(b, Select(w, ids)) && Foreign(ls, w)
    requires e in b.rows && Due(b.rows[e], b.clock) && RowFree(b, e) && e !in ids
    ensures Passes(Exec(Step(b, Select(w, ids)), ls), Claim(w), e)
  {
    SelectionSkips(b, w, ids, e);
    InvStep(b, Select(w, ids));
    RowsGrow(b, Select(w, ids), e);
    SkipsUntilClaim(Step(b, Select(w, ids)), w, ls, e);
  }

  function BatchIds(batch: seq<Held>): seq<int> {
    seq(|batch|, i requires 0 <= i < |batch| => batch[i].id)
  }

  lemma FullBatchLowers(c: Config, b: Box, t: Box, w: int, e: int)
    requires Inv(b) && Enabled(b, Claim(w)) && e in b.rows && t == DoClaim(b, w) && c == b.config
    requires Skips(b, WorkerOf(b, w).batch, e)
    requires forall id :: Has(WorkerOf(b, w).batch, 0, id) ==> id in b.rows && b.rows[id].status == Pending
    ensures Ahead(c, t.rows, e) + c.batchSize <= Ahead(c, b.rows, e)
  {
    var batch := WorkerOf(b, w).batch;
    var before, after, ids := UnclaimedMap(c, b.rows, e), UnclaimedMap(c, t.rows, e), BatchIds(batch);
    forall i | 0 <= i < |ids|
      ensures ids[i] in before && after[ids[i]] < before[ids[i]]
    {
      assert Has(batch, 0, ids[i]);
    }
    assert WorkerOk(b, WorkerOf(b, w));
    DropsByOne(after, before, ids);
  }

  /** A claim takes one attempt of each event it claims. */
  lemma ClaimLowersAhead(b: Box, w: int, e: int)
    requires Inv(b) && Enabled(b, Claim(w)) && e in b.rows
    ensures e in DoClaim(b, w).rows
    ensures Ahead(b.config, DoClaim(b, w).rows, e) + (if Passes(b, Claim(w), e) then b.config.batchSize else 0) <=
            Ahead(b.config, b.rows, e)
  {
    var t, batch := DoClaim(b, w), WorkerOf(b, w).batch;
    forall id | Has(batch, 0, id)
      ensures id in b.rows && b.rows[id].status == Pending
    {
      LockedArePending(b, w, id);
    }
    if Passes(b, Claim(w), e) {
      FullBatchLowers(b.config, b, t, w, e);
    } else {
      TotalMonotone(UnclaimedMap(b.config, t.rows, e), UnclaimedMap(b.config, b.rows, e));
    }
  }

  lemma RecordKeepsAhead(b: Box, l: Label, e: int)
    requires Inv(b) && LeaseInv(b) && Records(b, l) && e in b.rows
    ensures e in Step(b, l).rows && Ahead(b.config, Step(b, l).rows, e) <= Ahead(b.config, b.rows, e)
  {
    var t := Step(b, l);
    RecordSpends(b, l);
    TotalMonotone(UnclaimedMap(b.config, t.rows, e), UnclaimedMap(b.config, b.rows, e));
  }

  lemma RecoverRaisesAhead(b: Box, e: int)
    requires e in b.rows
    ensures e in DoRecover(b).rows
    ensures Ahead(b.config, DoRecover(b).rows, e) == Ahead(b.config, b.rows, e) + Total(StuckMap(b, e))
  {
    TotalSum(UnclaimedMap(b.config, b.rows, e), StuckMap(b, e), UnclaimedMap(b.config, DoRecover(b).rows, e));
  }

  lemma InsertKeepsAhead(b: Box, l: Label, e: int)
    requires Inv(b) && Inserts(b, l) && e in b.rows && b.rows[e].createdAt < l.at
    ensures e in Step(b, l).rows && Ahead(b.config, Step(b, l).rows, e) == Ahead(b.config, b.rows, e)
  {
    TotalPadded(UnclaimedMap(b.config, b.rows, e), UnclaimedMap(b.config, Step(b, l).rows, e));
  }

  /** Each pass over `e` costs a full batch of attempts before `e`; only a recovery gives some
      back. */
  lemma AheadStep(b: Box, l: Label, e: int)
    requires Inv(b) && LeaseInv(b) && e in b.rows && (l.Insert? ==> b.rows[e].createdAt < l.at)
    ensures e in Step(b, l).rows
    ensures Ahead(b.config, Step(b, l).rows, e) + (if Passes(b, l, e) then b.config.batchSize else 0) <=
            Ahead(b.config, b.rows, e) + RecoveredAhead(b, l, e)
  {
    if Records(b, l) {
      RecordKeepsAhead(b, l, e);
    } else if Inserts(b, l) {
      InsertKeepsAhead(b, l, e);
    } else if l.Claim? && Enabled(b, l) {
      ClaimLowersAhead(b, l.w, e);
    } else if l.Recover? {
      RecoverRaisesAhead(b, e);
    }
  }

  /** How often a run passes over `e`. */
  function CountPasses(b: Box, ls: seq<Label>, e: int): nat {
    if ls == [] then 0
    else
      var n := |ls| - 1;
      CountPasses(b, ls[..n], e) + (if Passes(Exec(b, ls[..n]), ls[n], e) then 1 else 0)
  }

  /** How many times a run recovers events before `e`. */
  ghost function CountRecovered(b: Box, ls: seq<Label>, e: int): int {
    if ls == [] then 0
    else
      var n := |ls| - 1;
      var t := Exec(b, ls[..n]);
      CountRecovered(b, ls[..n], e) + (if e in t.rows then RecoveredAhead(t, ls[n], e) else 0)
  }

  lemma AheadNotNegative(b: Box, e: int)
    requires Inv(b) && e in b.rows
    ensures 0 <= Ahead(b.config, b.rows, e)
  {
    forall id | id in b.rows
      ensures 0 <= UnclaimedMap(b.config, b.rows, e)[id]
    {
      assert RowOk(b.config, b.rows[id]);
    }
    TotalNonNegative(UnclaimedMap(b.config, b.rows, e));
  }

  /** New events are younger than `e`. */
  predicate YoungerThan(ls: seq<Label>, createdAt: int) {
    forall i :: 0 <= i < |ls| && ls[i].Insert? ==> createdAt < ls[i].at
  }

  lemma {:induction false} RowStays(b: Box, ls: seq<Label>, e: int)
    requires Inv(b) && e in b.rows
    ensures e in Exec(b, ls).rows && Exec(b, ls).rows[e].createdAt == b.rows[e].createdAt
  {
    if ls != [] {
      RowStays(b, ls[..|ls| - 1], e);
      InvExec(b, ls[..|ls| - 1]);
      RowsGrow(Exec(b, ls[..|ls| - 1]), ls[|ls| - 1], e);
    }
  }

  /** Attempts spent on passing over `e`. */
  ghost function PassCost(b: Box, ls: seq<Label>, e: int): int {
    if ls == [] then 0
    else
      var n := |ls| - 1;
      PassCost(b, ls[..n], e) + (if Passes(Exec(b, ls[..n]), ls[n], e) then b.config.batchSize else 0)
  }

  lemma {:induction false} PassesCost(b: Box, ls: seq<Label>, e: int)
    ensures PassCost(b, ls, e) == b.config.batchSize * CountPasses(b, ls, e)
  {
    if ls != [] {
      PassesCost(b, ls[..|ls| - 1], e);
    }
  }

  lemma {:induction false} AheadRun(b: Box, ls: seq<Label>, e: int)
    requires Inv(b) && LeaseInv(b) && PunctualRun(b, ls)
    requires e in b.rows && YoungerThan(ls, b.rows[e].createdAt)
    ensures e in Exec(b, ls).rows
    ensures Ahead(b.config, Exec(b, ls).rows, e) + PassCost(b, ls, e) <=
            Ahead(b.config, b.rows, e) + CountRecovered(b, ls, e)
  {
    if ls != [] {
      var n := |ls| - 1;
      PunctualPrefix(b, ls, n);
      AheadRun(b, ls[..n], e);
      LeaseRun(b, ls[..n]);
      RowStays(b, ls[..n], e);
      AheadStep(Exec(b, ls[..n]), ls[n], e);
    }
  }

  /** Starvation bound. In every punctual run of any number of workers in which new events are
      younger than `e`, the claims that pass over `e` are at most (unclaimed attempts of the events
      before it, plus recoveries of those) / batch_size. */
  lemma NoStarvation(b: Box, ls: seq<Label>, e: int)
    requires Inv(b) && LeaseInv(b) && PunctualRun(b, ls)
    requires e in b.rows && YoungerThan(ls, b.rows[e].createdAt)
    ensures b.config.batchSize * CountPasses(b, ls, e) <= Ahead(b.config, b.rows, e) + CountRecovered(b, ls, e)
  {
    AheadRun(b, ls, e);
    PassesCost(b, ls, e);
    LeaseRun(b, ls);
    AheadNotNegative(Exec(b, ls), e);
  }

  predicate HeldBySomeone(b: Box, id: int) {
    exists w :: w in b.workers && b.workers[w].Working? && Has(b.workers[w].batch, b.workers[w].next, id)
  }

  /** Every event in `processing` is in the hands of a live worker. */
  predicate AllHeld(b: Box) {
    forall id :: id in b.rows && b.rows[id].status == Processing ==> HeldBySomeone(b, id)
  }

  /** A live worker's events are not stuck. */
  lemma HeldIsNotStuck(b: Box, id: int)
    requires LeaseInv(b) && Punctual(b) && id in b.rows && HeldBySomeone(b, id)
    ensures !Stuck(b.rows[id], b.clock, b.config.threshold)
  {
    var w :| w in b.workers && b.workers[w].Working? && Has(b.workers[w].batch, b.workers[w].next, id);
    var i :| b.workers[w].next <= i < |b.workers[w].batch| && b.workers[w].batch[i].id == id;
    assert CurrentClaim(b, b.workers[w].batch[i], b.workers[w].at);
  }

  lemma NothingRecovered(b: Box, l: Label, e: int)
    requires LeaseInv(b) && (l.Recover? ==> Punctual(b)) && AllHeld(b) && e in b.rows
    ensures RecoveredAhead(b, l, e) == 0
  {
    if !l.Recover? {
      return;
    }
    forall id | id in b.rows
      ensures StuckMap(b, e)[id] == 0
    {
      if b.rows[id].status == Processing {
        HeldIsNotStuck(b, id);
      }
    }
    TotalAtMost(StuckMap(b, e), 0);
    TotalNonNegative(StuckMap(b, e));
  }

  lemma StillHolds(b: Box, l: Label, id: int, w: int)
    requires Inv(b) && LeaseInv(b) && !l.Abandon? && Enabled(b, l)
    requires id in b.rows && b.rows[id].status == Processing
    requires id in Effect(b, l).rows && Effect(b, l).rows[id].status == Processing
    requires w in b.workers && b.workers[w].Working? && Has(b.workers[w].batch, b.workers[w].next, id)
    ensures HeldBySomeone(Effect(b, l), id)
  {
    var t, wk := Effect(b, l), b.workers[w];
    var i :| wk.next <= i < |wk.batch| && wk.batch[i].id == id;
    if Records(b, l) && l.w == w {
      RecordSpends(b, l);
      assert i != wk.next;
    }
    assert Has(t.workers[w].batch, t.workers[w].next, id);
  }

  lemma HeldStep(b: Box, l: Label, id: int)
    requires Inv(b) && LeaseInv(b) && AllHeld(b) && !l.Abandon? && Enabled(b, l)
    requires id in Effect(b, l).rows && Effect(b, l).rows[id].status == Processing
    ensures HeldBySomeone(Effect(b, l), id)
  {
    var t := Effect(b, l);
    if l.Claim? && Has(WorkerOf(b, l.w).batch, 0, id) {
      assert t.workers[l.w].Working? && Has(t.workers[l.w].batch, t.workers[l.w].next, id);
    } else {
      assert id in b.rows && b.rows[id].status == Processing;
      var w :| w in b.workers && b.workers[w].Working? && Has(b.workers[w].batch, b.workers[w].next, id);
      StillHolds(b, l, id, w);
    }
  }

  /** Only a crash, or an error that escapes a batch, lets go of an event in `processing`. */
  lemma AllHeldStep(b: Box, l: Label)
    requires Inv(b) && LeaseInv(b) && AllHeld(b) && !l.Abandon?
    ensures AllHeld(Step(b, l))
  {
    var t := Step(b, l);
    forall id | id in t.rows && t.rows[id].status == Processing
      ensures HeldBySomeone(t, id)
    {
      if Enabled(b, l) {
        HeldStep(b, l, id);
      }
    }
  }

  lemma {:induction false} NothingIsRecovered(b: Box, ls: seq<Label>, e: int)
    requires Inv(b) && LeaseInv(b) && PunctualRun(b, ls) && AllHeld(b) && e in b.rows
    requires forall i :: 0 <= i < |ls| ==> !ls[i].Abandon?
    ensures AllHeld(Exec(b, ls)) && CountRecovered(b, ls, e) == 0
  {
    if ls != [] {
      var n := |ls| - 1;
      var t := Exec(b, ls[..n]);
      PunctualPrefix(b, ls, n);
      NothingIsRecovered(b, ls[..n], e);
      LeaseRun(b, ls[..n]);
      AllHeldStep(t, ls[n]);
      if e in t.rows {
        NothingRecovered(t, ls[n], e);
      }
    }
  }

  /** Without crashes no claim is lost, so `e` is passed over at most (unclaimed attempts of the
      events before it) / batch_size times. */
  lemma CrashFreeNoStarvation(b: Box, ls: seq<Label>, e: int)
    requires Inv(b) && LeaseInv(b) && PunctualRun(b, ls) && AllHeld(b)
    requires forall i :: 0 <= i < |ls| ==> !ls[i].Abandon?
    requires e in b.rows && YoungerThan(ls, b.rows[e].createdAt)
    ensures b.config.batchSize * CountPasses(b, ls, e) <= Ahead(b.config, b.rows, e)
  {
    NoStarvation(b, ls, e);
    NothingIsRecovered(b, ls, e);
  }

  /** Recoveries happen only when no worker is in the middle of anything, as those of a worker on
      its own do, which come between its batches. */
  ghost predicate RecoversIdle(b: Box, ls: seq<Label>) {
    forall i, w :: 0 <= i < |ls| && ls[i].Recover? && w in Exec(b, ls[..i]).workers ==>
      Exec(b, ls[..i]).workers[w].Idle?
  }

  /** For a worker on its own there is no condition on time: however long its batches last, without
      crashes `e` is passed over at most (unclaimed attempts of the events before it) / batch_size
      times. */
  lemma AloneNoStarvation(b: Box, ls: seq<Label>, e: int)
    requires Inv(b) && LeaseInv(b) && AllHeld(b) && RecoversIdle(b, ls)
    requires forall i :: 0 <= i < |ls| ==> !ls[i].Abandon?
    requires e in b.rows && YoungerThan(ls, b.rows[e].createdAt)
    ensures b.config.batchSize * CountPasses(b, ls, e) <= Ahead(b.config, b.rows, e)
  {
    CrashFreeNoStarvation(b, ls, e);
  }
}
