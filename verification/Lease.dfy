/** Bounded duplication in every run, and the guarantees of runs in which every live batch
    finishes before the stuck threshold. */
module Lease {
  import opened Schema
  import opened Outbox
  import opened OutboxInvariant

  /** How often the broker accepted event `id`. */
  function Publishes(broker: seq<Msg>, id: int): nat {
    if broker == [] then 0
    else
      var n := |broker| - 1;
      Publishes(broker[..n], id) + (if broker[n].id == id then 1 else 0)
  }

  ghost function Epochs(broker: seq<Msg>, id: int): set<int> {
    set j | 0 <= j < |broker| && broker[j].id == id :: broker[j].epoch
  }

  lemma EpochsGrow(broker: seq<Msg>, id: int)
    requires broker != []
    ensures var n := |broker| - 1;
      Epochs(broker, id) == Epochs(broker[..n], id) + (if broker[n].id == id then {broker[n].epoch} else {})
  {
  }

  lemma {:induction false} PublishesAreEpochs(broker: seq<Msg>, id: int)
    requires forall i, j :: 0 <= i < j < |broker| ==> broker[i].id != broker[j].id || broker[i].epoch != broker[j].epoch
    ensures Publishes(broker, id) == |Epochs(broker, id)|
  {
    if broker != [] {
      var n := |broker| - 1;
      PublishesAreEpochs(broker[..n], id);
      EpochsGrow(broker, id);
      assert broker[n].id == id ==> broker[n].epoch !in Epochs(broker[..n], id);
    }
  }

  lemma {:induction false} SmallSet(s: set<int>, n: nat)
    requires forall e :: e in s ==> 1 <= e <= n
    ensures |s| <= n
  {
    if n == 0 {
      assert forall e :: e in s ==> e == n + 1 && e == n;
    } else if n in s {
      SmallSet(s - {n}, n - 1);
    } else {
      SmallSet(s, n - 1);
    }
  }

  /** Every claim publishes at most once, so in every run (stale holders, lost confirms,
      crashes) an event is published at most once more often than it failed or was recovered. */
  lemma PublishBound(b: Box, id: int)
    requires Inv(b) && id in b.rows
    ensures Publishes(b.broker, id) <= b.tally[id].claims
    ensures Publishes(b.broker, id) <= b.tally[id].failures + b.tally[id].recoveries + 1
  {
    PublishesAreEpochs(b.broker, id);
    forall e | e in Epochs(b.broker, id)
      ensures 1 <= e <= b.tally[id].claims
    {
      var j :| 0 <= j < |b.broker| && b.broker[j].id == id && b.broker[j].epoch == e;
      assert MsgOk(b, b.broker[j]);
    }
    assert TallyOk(b.tally[id], b.rows[id].status);
    SmallSet(Epochs(b.broker, id), b.tally[id].claims);
  }

  /** No live batch is older than the stuck threshold. */
  predicate Punctual(b: Box) {
    forall w :: w in b.workers && !b.workers[w].Idle? ==> b.clock - b.workers[w].at <= b.config.threshold
  }

  /** Recoveries never come while a live batch is older than that. */
  ghost predicate PunctualRun(b: Box, ls: seq<Label>) {
    forall i :: 0 <= i < |ls| && ls[i].Recover? ==> Punctual(Exec(b, ls[..i]))
  }

  /** The claim of `h` is the current one and nothing has happened to its row since. */
  predicate CurrentClaim(b: Box, h: Held, at: int) {
    && h.id in b.rows && h.id in b.tally
    && b.rows[h.id].status == Processing
    && b.rows[h.id].retryCount == h.retries
    && b.rows[h.id].updatedAt == at
    && b.tally[h.id].claims == h.epoch
  }

  predicate ExactTally(t: Tally, row: Row) {
    && t.failures == row.retryCount
    && t.claims == t.failures + t.recoveries + (if row.status == Processing || row.status == Sent then 1 else 0)
  }

  predicate LeaseInv(b: Box) {
    && (forall w, i :: w in b.workers && b.workers[w].Working? && b.workers[w].next <= i < |b.workers[w].batch| ==>
          CurrentClaim(b, b.workers[w].batch[i], b.workers[w].at))
    && (forall id :: id in b.rows && id in b.tally ==> ExactTally(b.tally[id], b.rows[id]))
    && (forall id :: id in b.rows && b.rows[id].status == Sent ==> b.rows[id].retryCount < b.config.maxRetries)
  }

  /** No two workers ever act on the same event. */
  lemma NoSharedEvent(b: Box, v: int, w: int, i: nat, j: nat)
    requires Inv(b) && LeaseInv(b)
    requires v in b.workers && w in b.workers && v != w
    requires b.workers[v].Working? && b.workers[v].next <= i < |b.workers[v].batch|
    requires b.workers[w].Working? && b.workers[w].next <= j < |b.workers[w].batch|
    ensures b.workers[v].batch[i].id != b.workers[w].batch[j].id
  {
    assert CurrentClaim(b, b.workers[v].batch[i], b.workers[v].at);
    assert CurrentClaim(b, b.workers[w].batch[j], b.workers[w].at);
    assert Apart(b.workers[v], b.workers[w]);
  }

  /** A worker writes to its current event; every other live hold is of another event. */
  lemma WriteLease(b: Box, t: Box, w: int)
    requires Inv(b) && LeaseInv(b) && CanWrite(b, w)
    requires t.workers == b.workers[w := Advance(WorkerOf(b, w))]
    requires forall id :: id in b.rows && id != Current(b, w).id ==> id in t.rows && t.rows[id] == b.rows[id]
    requires forall id :: id in b.tally && id != Current(b, w).id ==> id in t.tally && t.tally[id] == b.tally[id]
    ensures forall v, i :: v in t.workers && t.workers[v].Working? && t.workers[v].next <= i < |t.workers[v].batch| ==>
      CurrentClaim(t, t.workers[v].batch[i], t.workers[v].at)
  {
  }

  lemma MarkSentLease(b: Box, w: int)
    requires Inv(b) && LeaseInv(b) && Enabled(b, MarkSent(w))
    ensures LeaseInv(DoMarkSent(b, w))
  {
  }

  lemma MarkFailedLease(b: Box, w: int, jitter: int)
    requires Inv(b) && LeaseInv(b) && Enabled(b, MarkFailed(w, jitter))
    ensures LeaseInv(DoMarkFailed(b, w, jitter))
  {
    assert CurrentClaim(b, Current(b, w), WorkerOf(b, w).at);
    WriteLease(b, DoMarkFailed(b, w, jitter), w);
  }

  lemma ClaimLease(b: Box, w: int)
    requires Inv(b) && LeaseInv(b) && WorkerOf(b, w).Selecting?
    ensures LeaseInv(DoClaim(b, w))
  {
    var t, me := DoClaim(b, w), WorkerOf(b, w);
    forall id | id in b.rows && Has(me.batch, 0, id)
      ensures b.rows[id].status == Pending
    {
      var i :| 0 <= i < |me.batch| && me.batch[i].id == id;
      assert SelectedOk(b, me.batch[i]);
    }
    forall v, i | v in t.workers && t.workers[v].Working? && t.workers[v].next <= i < |t.workers[v].batch|
      ensures CurrentClaim(t, t.workers[v].batch[i], t.workers[v].at)
    {
      if v == w {
        assert SelectedOk(b, me.batch[i]) && Has(me.batch, 0, me.batch[i].id);
      } else {
        assert CurrentClaim(b, b.workers[v].batch[i], b.workers[v].at);
      }
    }
  }

  /** Recovery leaves alone whatever a live worker holds. */
  lemma RecoverLease(b: Box)
    requires Inv(b) && LeaseInv(b) && Punctual(b)
    ensures LeaseInv(DoRecover(b))
  {
  }

  lemma PlainLease(b: Box, l: Label)
    requires Inv(b) && LeaseInv(b) && Enabled(b, l)
    requires l.Tick? || l.Insert? || l.Select? || l.Publish? || l.MarkSentFails? || l.Abandon?
    ensures LeaseInv(Effect(b, l))
  {
    var t := Effect(b, l);
    forall v, i | v in t.workers && t.workers[v].Working? && t.workers[v].next <= i < |t.workers[v].batch|
      ensures CurrentClaim(t, t.workers[v].batch[i], t.workers[v].at)
    {
      assert CurrentClaim(b, b.workers[v].batch[i], b.workers[v].at);
    }
  }

  lemma LeaseStep(b: Box, l: Label)
    requires Inv(b) && LeaseInv(b) && (l.Recover? ==> Punctual(b))
    ensures LeaseInv(Step(b, l))
  {
    if Enabled(b, l) {
      match l
      case Claim(w) => ClaimLease(b, w);
      case MarkSent(w) => MarkSentLease(b, w);
      case MarkFailed(w, jitter) => MarkFailedLease(b, w, jitter);
      case Recover => RecoverLease(b);
      case _ => PlainLease(b, l);
    }
  }

  lemma PunctualPrefix(b: Box, ls: seq<Label>, n: nat)
    requires PunctualRun(b, ls) && n <= |ls|
    ensures PunctualRun(b, ls[..n])
    ensures n < |ls| && ls[n].Recover? ==> Punctual(Exec(b, ls[..n]))
  {
    forall i | 0 <= i < n && ls[..n][i].Recover?
      ensures Punctual(Exec(b, ls[..n][..i]))
    {
      assert ls[..n][..i] == ls[..i];
    }
  }

  lemma ConfigStays(b: Box, l: Label)
    ensures Step(b, l).config == b.config
  {
  }

  /** In punctual runs the counters are exact: retry_count is the number of recorded failures,
      and claims are failures, recoveries and the claim in progress or sent. */
  lemma {:induction false} LeaseRun(b: Box, ls: seq<Label>)
    requires Inv(b) && LeaseInv(b) && PunctualRun(b, ls)
    ensures Inv(Exec(b, ls)) && LeaseInv(Exec(b, ls)) && Exec(b, ls).config == b.config
  {
    if ls != [] {
      var n := |ls| - 1;
      PunctualPrefix(b, ls, n);
      LeaseRun(b, ls[..n]);
      InvStep(Exec(b, ls[..n]), ls[n]);
      LeaseStep(Exec(b, ls[..n]), ls[n]);
      ConfigStays(Exec(b, ls[..n]), ls[n]);
    }
  }

  /** In punctual runs retry_count counts the failures, and an event is published at most
      max_retries times, not counting recoveries. */
  lemma PublishBoundPunctual(b: Box, id: int)
    requires Inv(b) && LeaseInv(b) && id in b.rows
    ensures b.rows[id].retryCount == b.tally[id].failures
    ensures b.tally[id].claims == b.tally[id].failures + b.tally[id].recoveries +
      (if b.rows[id].status == Processing || b.rows[id].status == Sent then 1 else 0)
    ensures Publishes(b.broker, id) <= b.rows[id].retryCount + b.tally[id].recoveries + 1
    ensures Publishes(b.broker, id) <= b.config.maxRetries + b.tally[id].recoveries
  {
    PublishBound(b, id);
    assert ExactTally(b.tally[id], b.rows[id]) && RowOk(b.config, b.rows[id]);
  }

  lemma LeaseInit(c: Config)
    requires ConfigOk(c)
    ensures Inv(Init(c)) && LeaseInv(Init(c))
  {
  }

  /** Every punctual run of the workers from an empty table satisfies the lease invariant. */
  lemma PunctualRuns(c: Config, ls: seq<Label>)
    requires ConfigOk(c) && PunctualRun(Init(c), ls)
    ensures Inv(Exec(Init(c), ls)) && LeaseInv(Exec(Init(c), ls)) && Exec(Init(c), ls).config == c
  {
    LeaseInit(c);
    LeaseRun(Init(c), ls);
  }

  predicate Terminal(row: Row) {
    row.status == Sent || row.status == Dlq
  }

  /** In any run a sent or dead-lettered row changes only by a write of a worker that still
      holds it: the writes filter on the id alone. */
  lemma OnlyHoldersTouchTerminal(b: Box, l: Label, id: int)
    requires Inv(b) && id in b.rows && Terminal(b.rows[id])
    ensures id in Step(b, l).rows
    ensures Step(b, l).rows[id] != b.rows[id] ==>
      (l.MarkSent? || l.MarkFailed?) && Enabled(b, l) && Current(b, l.w).id == id
  {
    if l.Claim? && Enabled(b, l) {
      var batch := WorkerOf(b, l.w).batch;
      forall i | 0 <= i < |batch|
        ensures batch[i].id != id
      {
        assert SelectedOk(b, batch[i]);
      }
    }
  }

  /** A sent or dead-lettered event comes back exactly when a worker that still holds it records
      a failure and, by its own old count, has attempts left. */
  lemma ReopenedExactly(b: Box, l: Label, id: int)
    requires Inv(b) && id in b.rows && Terminal(b.rows[id])
    ensures id in Step(b, l).rows
    ensures !Terminal(Step(b, l).rows[id]) <==>
      l.MarkFailed? && Enabled(b, l) && Current(b, l.w).id == id && Current(b, l.w).retries + 1 < b.config.maxRetries
  {
    OnlyHoldersTouchTerminal(b, l, id);
  }

  lemma TerminalStep(b: Box, l: Label, id: int)
    requires Inv(b) && LeaseInv(b) && id in b.rows && Terminal(b.rows[id])
    ensures id in Step(b, l).rows && Step(b, l).rows[id] == b.rows[id]
  {
    OnlyHoldersTouchTerminal(b, l, id);
    if (l.MarkSent? || l.MarkFailed?) && Enabled(b, l) {
      assert CurrentClaim(b, Current(b, l.w), WorkerOf(b, l.w).at);
    }
  }

  /** In punctual runs `sent` and `dlq` are final. */
  lemma {:induction false} TerminalStays(b: Box, more: seq<Label>, id: int)
    requires Inv(b) && LeaseInv(b) && PunctualRun(b, more)
    requires id in b.rows && Terminal(b.rows[id])
    ensures id in Exec(b, more).rows && Exec(b, more).rows[id] == b.rows[id]
  {
    if more != [] {
      var n := |more| - 1;
      PunctualPrefix(b, more, n);
      TerminalStays(b, more[..n], id);
      LeaseRun(b, more[..n]);
      TerminalStep(Exec(b, more[..n]), more[n], id);
    }
  }
}
