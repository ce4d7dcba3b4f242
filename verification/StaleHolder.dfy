/** Why the lease theorems need punctual workers: a concrete run in which a worker that lost its
    lease turns a sent event back into a pending one, because the failure record filters on the
    id alone. */
module StaleHolder {
  import opened Schema
  import opened Backoff
  import opened Outbox

  // Two attempts, batches of one event, a stuck threshold of one minute.
  const SETTINGS := Config(2, 1, 60 * SECOND)
  // Just past the threshold.
  const LATE := 60 * SECOND + 1
  const BODY := Payload(1, 1, 42, 1)
  const CLAIM_1 := Held(1, BODY, 0, 1)
  const CLAIM_2 := Held(1, BODY, 0, 2)

  /** A table with event 1 alone. */
  function Table(row: Row, workers: map<int, Worker>, broker: seq<Msg>, tally: Tally, clock: int): Box {
    Box(SETTINGS, map[1 := row], 2, workers, broker, clock, map[1 := tally])
  }

  function Fresh(): Row { NewRow(BODY, 0) }

  function ClaimedOnce(): Row { ClaimedRow(Fresh(), 0) }

  function Recovered(): Row { RecoveredRow(ClaimedOnce(), LATE) }

  function ClaimedTwice(): Row { ClaimedRow(Recovered(), LATE) }

  function Holding(h: Held, stage: Stage, at: int): Worker { Working([h], 0, stage, at) }

  lemma Appears()
    ensures Step(Init(SETTINGS), Insert(1, BODY, 0)) == Table(Fresh(), map[], [], Tally(0, 0, 0), 0)
  {
  }

  /** A worker takes the only event. */
  lemma Takes(row: Row, workers: map<int, Worker>, tally: Tally, now: int, w: int)
    requires Due(row, now) && (w in workers ==> workers[w].Idle?)
    requires forall v :: v in workers ==> !workers[v].Selecting?
    ensures
      var h := Held(1, row.payload, row.retryCount, tally.claims + 1);
      Step(Step(Table(row, workers, [], tally, now), Select(w, [1])), Claim(w)) ==
      Table(ClaimedRow(row, now), workers[w := Holding(h, Ready, now)], [], tally.(claims := tally.claims + 1), now)
  {
    var b := Table(row, workers, [], tally, now);
    var h := Held(1, row.payload, row.retryCount, tally.claims + 1);
    assert IsSelection(b, [1]);
    assert Hold(b, [1]) == [h];
    var locked := Step(b, Select(w, [1]));
    assert locked == Table(row, workers[w := Selecting([h], now)], [], tally, now);
    assert [h][0].id == 1 && Has([h], 0, 1);
    var claimed := DoClaim(locked, w);
    assert claimed.rows == map[1 := ClaimedRow(row, now)];
    assert claimed.tally == map[1 := tally.(claims := tally.claims + 1)];
    assert claimed.workers == workers[w := Holding(h, Ready, now)];
  }

  /** The lease of worker 1 runs out while it is alive, and recovery frees the event. */
  lemma Expires(workers: map<int, Worker>)
    ensures
      Step(Step(Table(ClaimedOnce(), workers, [], Tally(1, 0, 0), 0), Tick(LATE)), Recover) ==
      Table(Recovered(), workers, [], Tally(1, 0, 1), LATE)
  {
  }

  /** Worker 2 publishes the event and records it as sent. */
  lemma Succeeds(row: Row, other: Worker)
    requires other.Working?
    ensures
      var b := Table(row, map[1 := other, 2 := Holding(CLAIM_2, Ready, LATE)], [], Tally(2, 0, 1), LATE);
      Step(Step(b, Publish(2, true, None)), MarkSent(2)) ==
      Table(SentRow(row, LATE), map[1 := other, 2 := Idle], [Msg(1, 2, BODY)], Tally(2, 0, 1), LATE)
  {
  }

  /** Worker 1, none the wiser, fails to publish and records that. */
  lemma FailsLate(row: Row, broker: seq<Msg>)
    ensures
      var b := Table(row, map[1 := Holding(CLAIM_1, Ready, 0), 2 := Idle], broker, Tally(2, 0, 1), LATE);
      Step(Step(b, Publish(1, false, Some("timeout"))), MarkFailed(1, 0)) ==
      Table(FailedRow(row, 2, 0, LATE, 0, "timeout"), map[1 := Idle, 2 := Idle], broker, Tally(2, 1, 1), LATE)
  {
    var b := Table(row, map[1 := Holding(CLAIM_1, Ready, 0), 2 := Idle], broker, Tally(2, 0, 1), LATE);
    var late := Holding(CLAIM_1, Failing("timeout"), 0);
    var failed := Table(row, map[1 := late, 2 := Idle], broker, Tally(2, 0, 1), LATE);
    assert Step(b, Publish(1, false, Some("timeout"))) == failed;
    assert CanWrite(failed, 1);
  }

  /** Two steps more. */
  lemma Then(b: Box, ls: seq<Label>, first: Label, second: Label)
    ensures Exec(b, ls + [first] + [second]) == Step(Step(Exec(b, ls), first), second)
  {
  }

  /** The event is claimed by worker 2 and still held by worker 1. */
  lemma TwoHolders() returns (ls: seq<Label>)
    ensures
      var workers := map[1 := Holding(CLAIM_1, Ready, 0), 2 := Holding(CLAIM_2, Ready, LATE)];
      Exec(Init(SETTINGS), ls) == Table(ClaimedTwice(), workers, [], Tally(2, 0, 1), LATE)
  {
    var b := Init(SETTINGS);
    ls := [Insert(1, BODY, 0)];
    ExecAppend(b, [], Insert(1, BODY, 0));
    assert [] + ls == ls;
    Appears();
    Then(b, ls, Select(1, [1]), Claim(1));
    Takes(Fresh(), map[], Tally(0, 0, 0), 0, 1);
    ls := ls + [Select(1, [1])] + [Claim(1)];
    Then(b, ls, Tick(LATE), Recover);
    Expires(map[1 := Holding(CLAIM_1, Ready, 0)]);
    ls := ls + [Tick(LATE)] + [Recover];
    Then(b, ls, Select(2, [1]), Claim(2));
    Takes(Recovered(), map[1 := Holding(CLAIM_1, Ready, 0)], Tally(1, 0, 1), LATE, 2);
    ls := ls + [Select(2, [1])] + [Claim(2)];
  }

  /** The run: event 1 is sent, its message is in the broker, and yet it becomes pending again. */
  lemma SentCanReopen() returns (ls: seq<Label>, more: seq<Label>)
    ensures var s := Exec(Init(SETTINGS), ls); 1 in s.rows && s.rows[1].status == Sent
    ensures
      var t := Exec(Init(SETTINGS), ls + more);
      1 in t.rows && t.rows[1].status == Pending && t.rows[1].retryCount == 1
  {
    var b := Init(SETTINGS);
    ls := TwoHolders();
    Then(b, ls, Publish(2, true, None), MarkSent(2));
    Succeeds(ClaimedTwice(), Holding(CLAIM_1, Ready, 0));
    ls := ls + [Publish(2, true, None)] + [MarkSent(2)];
    Then(b, ls, Publish(1, false, Some("timeout")), MarkFailed(1, 0));
    FailsLate(SentRow(ClaimedTwice(), LATE), [Msg(1, 2, BODY)]);
    more := [Publish(1, false, Some("timeout")), MarkFailed(1, 0)];
    assert ls + more == ls + [Publish(1, false, Some("timeout"))] + [MarkFailed(1, 0)];
  }
}
