/** What each statement of a worker reads and writes, column by column, and from that the retry
    schedule: no event is claimed before its time, and after a failure its time is min(2^n, 300)
    seconds and at most one second of jitter away. */
module RetrySchedule {
  import opened Schema
  import opened Backoff
  import opened Outbox
  import opened OutboxInvariant
  import opened Lease
  import opened OutboxProgress

  /** INSERT: a new event is pending, untried and due at once. */
  lemma InsertWrites(b: Box, id: int, payload: Payload, at: int)
    requires Enabled(b, Insert(id, payload, at))
    ensures
      var row := Step(b, Insert(id, payload, at)).rows[id];
      && row.payload == payload && row.status == Pending && row.retryCount == 0
      && row.nextRetryAt == Some(at) && at <= b.clock
      && row.error == None && row.sentAt == None && row.createdAt == at && row.updatedAt == at
    ensures Due(Step(b, Insert(id, payload, at)).rows[id], b.clock)
    ensures forall x :: x in b.rows ==>
      x in Step(b, Insert(id, payload, at)).rows && Step(b, Insert(id, payload, at)).rows[x] == b.rows[x]
  {
  }

  /** SELECT ... FOR UPDATE SKIP LOCKED: pending events whose time has come, oldest first, at most
      batch_size, none that another claim has locked. */
  lemma SelectReads(b: Box, w: int, ids: seq<int>)
    requires Enabled(b, Select(w, ids))
    ensures 0 < |ids| <= b.config.batchSize
    ensures forall i :: 0 <= i < |ids| ==>
      && ids[i] in b.rows && b.rows[ids[i]].status == Pending
      && b.rows[ids[i]].nextRetryAt.Some? && b.rows[ids[i]].nextRetryAt.value <= b.clock
    ensures forall i, j :: 0 <= i < j < |ids| ==>
      ids[i] != ids[j] && b.rows[ids[i]].createdAt <= b.rows[ids[j]].createdAt
    ensures forall i, v, k ::
      0 <= i < |ids| && v in b.workers && b.workers[v].Selecting? && 0 <= k < |b.workers[v].batch| ==>
        b.workers[v].batch[k].id != ids[i]
  {
    forall i, v, k | 0 <= i < |ids| && v in b.workers && b.workers[v].Selecting? && 0 <= k < |b.workers[v].batch|
      ensures b.workers[v].batch[k].id != ids[i]
    {
      assert RowFree(b, ids[i]);
      assert !Has(b.workers[v].batch, 0, ids[i]);
    }
  }

  /** UPDATE ... SET status = 'processing': only the status, and the time of the transaction. */
  lemma ClaimWrites(b: Box, w: int, id: int)
    requires Enabled(b, Claim(w)) && id in b.rows
    ensures id in Step(b, Claim(w)).rows
    ensures
      var row, now := b.rows[id], Step(b, Claim(w)).rows[id];
      if Has(WorkerOf(b, w).batch, 0, id) then
        && now.status == Processing && now.updatedAt == WorkerOf(b, w).at
        && now == row.(status := now.status, updatedAt := now.updatedAt)
      else now == row
  {
  }

  /** UPDATE ... SET status = 'sent': sent now, with no error left. */
  lemma SentWrites(b: Box, w: int)
    requires Enabled(b, MarkSent(w))
    ensures
      var id := Current(b, w).id;
      var row, now := b.rows[id], Step(b, MarkSent(w)).rows[id];
      && now.status == Sent && now.sentAt == Some(b.clock) && now.error == None && now.updatedAt == b.clock
      && now.payload == row.payload && now.retryCount == row.retryCount
      && now.nextRetryAt == row.nextRetryAt && now.createdAt == row.createdAt
  {
  }

  /** What is kept of an error: its first 1000 characters. */
  predicate IsStart(start: string, error: string) {
    start <= error && |start| == if |error| < 1000 then |error| else 1000
  }

  /** UPDATE after a failure: one more than the writer's copy of retry_count; the dead letter state
      when that is max_retries, and otherwise a retry after the backoff, counted from now. */
  lemma FailureWrites(b: Box, w: int, jitter: int)
    requires Enabled(b, MarkFailed(w, jitter))
    ensures
      var id, n := Current(b, w).id, Current(b, w).retries + 1;
      var row, now := b.rows[id], Step(b, MarkFailed(w, jitter)).rows[id];
      && now.retryCount == n && now.updatedAt == b.clock
      && now.error.Some? && IsStart(now.error.value, WorkerOf(b, w).stage.error)
      && now.payload == row.payload && now.sentAt == row.sentAt && now.createdAt == row.createdAt
      && (if n < b.config.maxRetries
          then now.status == Pending && now.nextRetryAt.Some? && InWindow(n, now.nextRetryAt.value - b.clock)
          else now.status == Dlq && now.nextRetryAt == None)
  {
  }

  /** UPDATE ... SET status = 'pending' of the stuck: due now, with its count. */
  lemma RecoverWrites(b: Box, id: int)
    requires id in b.rows
    ensures id in Step(b, Recover).rows
    ensures
      var row, now := b.rows[id], Step(b, Recover).rows[id];
      if row.status == Processing && row.updatedAt < b.clock - b.config.threshold then
        && now.status == Pending && now.nextRetryAt == Some(b.clock) && now.updatedAt == b.clock
        && now == row.(status := now.status, nextRetryAt := now.nextRetryAt, updatedAt := now.updatedAt)
      else now == row
  {
  }

  predicate DueAt(b: Box, id: int, at: int) {
    && id in b.rows && b.rows[id].nextRetryAt.Some?
    && b.rows[id].nextRetryAt.value <= at <= b.clock
  }

  /** Rows locked by a claim in progress were due when it selected them. */
  predicate SelectedDue(b: Box) {
    forall w, i :: w in b.workers && b.workers[w].Selecting? && 0 <= i < |b.workers[w].batch| ==>
      DueAt(b, b.workers[w].batch[i].id, b.workers[w].at)
  }

  /** A locked row does not change until its claim commits. */
  lemma LockedStays(b: Box, l: Label, w: int, i: nat)
    requires Inv(b) && w in b.workers && b.workers[w].Selecting? && i < |b.workers[w].batch|
    requires !(l.Claim? && l.w == w)
    ensures
      var id := b.workers[w].batch[i].id;
      id in b.rows && id in Step(b, l).rows && Step(b, l).rows[id] == b.rows[id]
  {
    var id := b.workers[w].batch[i].id;
    assert SelectedOk(b, b.workers[w].batch[i]) && Has(b.workers[w].batch, 0, id);
    if l.Claim? && Enabled(b, l) {
      assert Apart(b.workers[w], b.workers[l.w]);
    }
  }

  lemma SelectedDueStep(b: Box, l: Label)
    requires Inv(b) && SelectedDue(b)
    ensures SelectedDue(Step(b, l))
  {
    var t := Step(b, l);
    forall w, i | w in t.workers && t.workers[w].Selecting? && 0 <= i < |t.workers[w].batch|
      ensures DueAt(t, t.workers[w].batch[i].id, t.workers[w].at)
    {
      if l.Select? && Enabled(b, l) && l.w == w {
        SelectReads(b, w, l.ids);
      } else {
        assert w in b.workers && b.workers[w] == t.workers[w];
        assert DueAt(b, b.workers[w].batch[i].id, b.workers[w].at);
        LockedStays(b, l, w, i);
      }
    }
  }

  lemma {:induction false} SelectedDueExec(b: Box, ls: seq<Label>)
    requires Inv(b) && SelectedDue(b)
    ensures SelectedDue(Exec(b, ls))
  {
    if ls != [] {
      SelectedDueExec(b, ls[..|ls| - 1]);
      InvExec(b, ls[..|ls| - 1]);
      SelectedDueStep(Exec(b, ls[..|ls| - 1]), ls[|ls| - 1]);
    }
  }

  /** The step claims event `id`. */
  predicate Claims(b: Box, l: Label, id: int) {
    l.Claim? && Enabled(b, l) && Has(WorkerOf(b, l.w).batch, 0, id)
  }

  /** The step records an outcome of event `id`. */
  predicate Writes(b: Box, l: Label, id: int) {
    Records(b, l) && Current(b, l.w).id == id
  }

  /** No event is claimed before its next_retry_at. */
  lemma ClaimIsDue(b: Box, l: Label, id: int)
    requires Inv(b) && SelectedDue(b) && Claims(b, l, id)
    ensures id in b.rows && b.rows[id].nextRetryAt.Some? && b.rows[id].nextRetryAt.value <= b.clock
  {
    var batch := WorkerOf(b, l.w).batch;
    var i :| 0 <= i < |batch| && batch[i].id == id;
    assert DueAt(b, b.workers[l.w].batch[i].id, b.workers[l.w].at);
  }

  /** A pending row changes only by a claim, or by a worker that holds it from before. */
  lemma PendingStep(b: Box, l: Label, id: int)
    requires Inv(b) && id in b.rows && b.rows[id].status == Pending
    ensures id in Step(b, l).rows
    ensures !Claims(b, l, id) && !Writes(b, l, id) ==> Step(b, l).rows[id] == b.rows[id]
  {
  }

  predicate SameRow(b: Box, t: Box, id: int) {
    id in b.rows && id in t.rows && t.rows[id] == b.rows[id]
  }

  /** Step `i` of a run neither claims nor records event `id`. */
  predicate Passive(b: Box, ls: seq<Label>, i: nat, id: int)
    requires i < |ls|
  {
    !Claims(Exec(b, ls[..i]), ls[i], id) && !Writes(Exec(b, ls[..i]), ls[i], id)
  }

  lemma PendingMoves(b: Box, ls: seq<Label>, id: int, i: nat)
    requires Inv(b) && SelectedDue(b) && i < |ls| && id in b.rows && b.rows[id].status == Pending
    requires SameRow(b, Exec(b, ls[..i]), id)
    ensures Passive(b, ls, i, id) ==> SameRow(b, Exec(b, ls[..i + 1]), id)
    ensures Claims(Exec(b, ls[..i]), ls[i], id) ==>
      b.rows[id].nextRetryAt.Some? && b.rows[id].nextRetryAt.value <= Exec(b, ls[..i]).clock
  {
    var t := Exec(b, ls[..i]);
    InvExec(b, ls[..i]);
    SelectedDueExec(b, ls[..i]);
    ExecTake(b, ls, i);
    PendingStep(t, ls[i], id);
    if Claims(t, ls[i], id) {
      ClaimIsDue(t, ls[i], id);
    }
  }

  /** A pending row stays as it is until it is claimed, at its next_retry_at or later, or written
      by a worker that holds it from before; `k` is that step, or the end of the run. */
  lemma {:induction false} PendingWaits(b: Box, ls: seq<Label>, id: int, n: nat) returns (k: nat)
    requires Inv(b) && SelectedDue(b) && n <= |ls| && id in b.rows && b.rows[id].status == Pending
    ensures k <= n
    ensures forall i :: 0 <= i <= k ==> SameRow(b, Exec(b, ls[..i]), id)
    ensures forall i :: 0 <= i < k ==> Passive(b, ls, i, id)
    ensures k < n ==>
      || Writes(Exec(b, ls[..k]), ls[k], id)
      || (Claims(Exec(b, ls[..k]), ls[k], id)
          && b.rows[id].nextRetryAt.Some? && b.rows[id].nextRetryAt.value <= Exec(b, ls[..k]).clock)
  {
    if n == 0 {
      k := 0;
    } else {
      k := PendingWaits(b, ls, id, n - 1);
      if k == n - 1 {
        PendingMoves(b, ls, id, k);
        k := if Passive(b, ls, k, id) then n else k;
      }
    }
  }

  /** Backoff is kept. After the n-th failure of an event is recorded, in every punctual run, the
      row stays as it was written until its next claim, which comes no sooner than
      min(2^n, 300) seconds after the failure. */
  lemma BackoffIsKept(b: Box, w: int, jitter: int, ls: seq<Label>) returns (k: nat)
    requires Inv(b) && LeaseInv(b) && SelectedDue(b) && Enabled(b, MarkFailed(w, jitter))
    requires Current(b, w).retries + 1 < b.config.maxRetries
    requires PunctualRun(Step(b, MarkFailed(w, jitter)), ls)
    ensures k <= |ls|
    ensures
      var s, id, n := Step(b, MarkFailed(w, jitter)), Current(b, w).id, Current(b, w).retries + 1;
      && (forall i :: 0 <= i <= k ==> SameRow(s, Exec(s, ls[..i]), id))
      && (forall i :: 0 <= i < k ==> Passive(s, ls, i, id))
      && (k < |ls| ==>
            && Claims(Exec(s, ls[..k]), ls[k], id)
            && b.clock + BaseDelay(n) * 1_000_000 <= Exec(s, ls[..k]).clock)
  {
    var s, id := Step(b, MarkFailed(w, jitter)), Current(b, w).id;
    InvStep(b, MarkFailed(w, jitter));
    LeaseStep(b, MarkFailed(w, jitter));
    SelectedDueStep(b, MarkFailed(w, jitter));
    FailureWrites(b, w, jitter);
    k := PendingWaits(s, ls, id, |ls|);
    if k < |ls| && Writes(Exec(s, ls[..k]), ls[k], id) {
      PunctualPrefix(s, ls, k);
      LeaseRun(s, ls[..k]);
      RecordSpends(Exec(s, ls[..k]), ls[k]);
      assert false;
    }
  }
}
