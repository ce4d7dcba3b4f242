/** Attempts: how many an event still has, how many a table can still cost, and how one batch,
    complete or broken off, spends them. */
module Batch {
  import opened Schema
  import opened Totals
  import opened Backoff
  import opened Outbox
  import opened OutboxInvariant

  predicate Open(row: Row) {
    row.status == Pending || row.status == Processing
  }

  /** Attempts an event still has. */
  function Attempts(c: Config, row: Row): int {
    if Open(row) then c.maxRetries - row.retryCount else 0
  }

  function AttemptMap(c: Config, rows: map<int, Row>): map<int, int> {
    map id | id in rows :: Attempts(c, rows[id])
  }

  /** All attempts the table can still cost. */
  ghost function Work(c: Config, rows: map<int, Row>): int {
    Total(AttemptMap(c, rows))
  }

  /** The next attempt waits for min(2^retry_count, 300) seconds and at most one second more. */
  predicate BacksOff(row: Row) {
    && 0 <= row.retryCount && row.nextRetryAt.Some?
    && var wait := row.nextRetryAt.value - row.updatedAt;
       BaseDelay(row.retryCount) * SECOND <= wait <= (BaseDelay(row.retryCount) + 1) * SECOND
  }

  /** Equal attempts of each event make equal work. */
  lemma SameWork(c: Config, before: map<int, Row>, after: map<int, Row>)
    requires after.Keys == before.Keys
    requires forall id :: id in after ==> Attempts(c, after[id]) == Attempts(c, before[id])
    ensures Work(c, after) == Work(c, before)
  {
    forall id | id in after
      ensures id in before && AttemptMap(c, after)[id] == AttemptMap(c, before)[id]
    {
      assert id in after.Keys;
    }
    assert AttemptMap(c, after).Keys == AttemptMap(c, before).Keys;
    assert AttemptMap(c, after) == AttemptMap(c, before);
  }

  /** One attempt: sent with its retry_count untouched, or one more failure, which is the last
      one or waits for its backoff. */
  predicate Attempted(c: Config, before: Row, after: Row) {
    && after.payload == before.payload && after.createdAt == before.createdAt
    && (after.status == Sent ==>
          after.retryCount == before.retryCount && after.sentAt == Some(after.updatedAt) && after.error.None?)
    && (after.status != Sent ==>
          && after.retryCount == before.retryCount + 1
          && after.status == (if c.maxRetries <= after.retryCount then Dlq else Pending)
          && after.error.Some?)
    && (after.status == Dlq ==> after.nextRetryAt.None?)
    && (after.status == Pending ==> BacksOff(after))
  }

  /** The first `i` events of the batch are attempted, once each, and the rest are claimed. */
  predicate HalfDone(c: Config, before: map<int, Row>, now: map<int, Row>, ids: seq<int>, i: nat, at: int) {
    && now.Keys == before.Keys
    && (forall j :: 0 <= j < |ids| ==>
          && ids[j] in before && ids[j] in now
          && if j < i then Attempted(c, before[ids[j]], now[ids[j]]) else now[ids[j]] == ClaimedRow(before[ids[j]], at))
    && (forall id :: id in before && id !in ids ==> id in now && now[id] == before[id])
  }

  predicate Distinct(ids: seq<int>) {
    forall i, j :: 0 <= i < j < |ids| ==> ids[i] != ids[j]
  }

  predicate Selectable(c: Config, rows: map<int, Row>, id: int) {
    id in rows && rows[id].status == Pending && rows[id].retryCount < c.maxRetries
  }

  /** A map that is smaller by at least one at each listed key has a sum smaller by their number. */
  lemma {:induction false} DropsByOne(small: map<int, int>, big: map<int, int>, ids: seq<int>)
    requires small.Keys == big.Keys && Distinct(ids)
    requires forall k :: k in big ==> small[k] <= big[k]
    requires forall i :: 0 <= i < |ids| ==> ids[i] in big && small[ids[i]] < big[ids[i]]
    ensures Total(small) + |ids| <= Total(big)
  {
    if ids == [] {
      assert forall k :: k in small ==> k in big.Keys && small[k] <= big[k];
      TotalMonotone(small, big);
    } else {
      var n := |ids| - 1;
      var k := ids[n];
      TotalUpdate(small, k, big[k]);
      DropsByOne(small[k := big[k]], big, ids[..n]);
    }
  }

  lemma AttemptCosts(c: Config, before: Row, after: Row)
    requires before.status == Pending && before.retryCount < c.maxRetries && Attempted(c, before, after)
    ensures Attempts(c, after) < Attempts(c, before)
  {
  }

  /** A batch lowers the remaining attempts by one for each event it attempts, also if it breaks
      off. */
  lemma BatchDrains(c: Config, before: map<int, Row>, now: map<int, Row>, ids: seq<int>, i: nat, at: int)
    requires HalfDone(c, before, now, ids, i, at) && Distinct(ids) && i <= |ids|
    requires forall j :: 0 <= j < |ids| ==> Selectable(c, before, ids[j])
    ensures Work(c, now) + i <= Work(c, before)
  {
    forall j | 0 <= j < i
      ensures Attempts(c, now[ids[j]]) < Attempts(c, before[ids[j]])
    {
      AttemptCosts(c, before[ids[j]], now[ids[j]]);
    }
    forall id | id in before
      ensures id in now && Attempts(c, now[id]) <= Attempts(c, before[id])
    {
      if id in ids {
        var j :| 0 <= j < |ids| && ids[j] == id;
        assert Selectable(c, before, ids[j]);
      }
    }
    DropsByOne(AttemptMap(c, now), AttemptMap(c, before), ids[..i]);
  }

  /** The whole table costs at most max_retries attempts per event. */
  lemma WorkAtMost(c: Config, rows: map<int, Row>)
    requires ConfigOk(c) && forall id :: id in rows ==> RowOk(c, rows[id])
    ensures 0 <= Work(c, rows) <= c.maxRetries * |rows|
  {
    forall id | id in AttemptMap(c, rows)
      ensures 0 <= AttemptMap(c, rows)[id] <= c.maxRetries
    {
      assert RowOk(c, rows[id]);
    }
    TotalNonNegative(AttemptMap(c, rows));
    TotalAtMost(AttemptMap(c, rows), c.maxRetries);
    assert AttemptMap(c, rows).Keys == rows.Keys;
    assert |AttemptMap(c, rows)| == |AttemptMap(c, rows).Keys| && |rows| == |rows.Keys|;
  }

  /** When an open event is sure to be taken by a worker loop: a pending one when its retry is
      due, a processing one two thresholds after its last write, or one threshold after the origin
      of the clock if it is older than that. */
  function ReadyBy(c: Config, row: Row): int {
    if row.status == Pending && row.nextRetryAt.Some? then row.nextRetryAt.value
    else if row.status == Processing then
      if row.updatedAt + c.threshold < 0 then c.threshold else row.updatedAt + 2 * c.threshold + 1
    else 0
  }

  function ReadyMap(c: Config, rows: map<int, Row>): map<int, int> {
    map id | id in rows :: if ReadyBy(c, rows[id]) < 0 then 0 else ReadyBy(c, rows[id])
  }

  /** A time by which every open event is ready. */
  ghost function Horizon(c: Config, rows: map<int, Row>): int {
    Total(ReadyMap(c, rows))
  }

  lemma ReadyByHorizon(c: Config, rows: map<int, Row>, id: int)
    requires id in rows
    ensures ReadyBy(c, rows[id]) <= Horizon(c, rows)
  {
    TotalAtLeast(ReadyMap(c, rows), id);
  }
}
