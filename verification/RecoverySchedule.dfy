/** When the worker loop runs recovery, and how long an abandoned event waits for it. */
module RecoverySchedule {
  import opened Schema
  import opened Outbox
  import opened OutboxInvariant

  /** last_recovery_at after iterations at these times: it starts at zero and moves to the time
      of every iteration that finds a whole interval gone. */
  function LastRecovery(times: seq<int>, interval: int): int {
    if times == [] then 0
    else
      var now, last := times[|times| - 1], LastRecovery(times[..|times| - 1], interval);
      if interval <= now - last then now else last
  }

  predicate RecoversAt(times: seq<int>, interval: int, i: nat)
    requires i < |times|
  {
    interval <= times[i] - LastRecovery(times[..i], interval)
  }

  lemma RecoveryAppend(times: seq<int>, interval: int, now: int)
    ensures RecoversAt(times + [now], interval, |times|) <==> interval <= now - LastRecovery(times, interval)
    ensures LastRecovery(times + [now], interval) ==
      if interval <= now - LastRecovery(times, interval) then now else LastRecovery(times, interval)
  {
  }

  /** Iterations follow each other at most `gap` apart. */
  predicate Paced(times: seq<int>, gap: int) {
    forall i :: 0 <= i < |times| - 1 ==> times[i] <= times[i + 1] <= times[i] + gap
  }

  /** From an iteration before which no recovery ran after u + interval, one that does is found
      before the bound. */
  lemma {:induction false} NextRecovery(times: seq<int>, interval: int, gap: int, u: int, i: nat) returns (k: nat)
    requires 0 <= interval && 0 <= gap && Paced(times, gap) && i < |times|
    requires LastRecovery(times[..i], interval) <= u + interval
    requires times[i] <= u + 2 * interval + gap
    requires u + 2 * interval < times[|times| - 1]
    ensures k < |times| && RecoversAt(times, interval, k)
    ensures u + interval < times[k] <= u + 2 * interval + gap
    decreases |times| - i
  {
    if RecoversAt(times, interval, i) && u + interval < times[i] {
      k := i;
    } else {
      assert times[..i + 1][..i] == times[..i];
      k := NextRecovery(times, interval, gap, u, i + 1);
    }
  }

  /** The first iteration after `now`, in a loop that has begun by then, has seen no recovery
      later than `now`. */
  lemma {:induction false} NextIteration(times: seq<int>, interval: int, now: int, i: nat) returns (j: nat)
    requires 0 <= now && i < |times| && times[i] <= now < times[|times| - 1]
    requires LastRecovery(times[..i + 1], interval) <= now
    ensures 0 < j < |times| && times[j - 1] <= now < times[j]
    ensures LastRecovery(times[..j], interval) <= now
    decreases |times| - i
  {
    if now < times[i + 1] {
      j := i + 1;
    } else {
      assert times[..i + 2][..i + 1] == times[..i + 1];
      j := NextIteration(times, interval, now, i + 1);
    }
  }

  /** Whenever something happens while the loop runs, a recovery comes more than one threshold and
      at most two thresholds and one gap later. */
  lemma RecoveryComes(times: seq<int>, interval: int, gap: int, now: int) returns (k: nat)
    requires 0 <= interval && 0 <= gap && Paced(times, gap) && times != []
    requires 0 <= now && times[0] <= now && now + 2 * interval < times[|times| - 1]
    ensures k < |times| && RecoversAt(times, interval, k)
    ensures now + interval < times[k] <= now + 2 * interval + gap
  {
    assert times[..1][..0] == [];
    var j := NextIteration(times, interval, now, 0);
    k := NextRecovery(times, interval, gap, now, j);
  }

  /** The last write of an event, or the start of the loop less one gap if that is later; the
      clock's origin at the earliest. */
  function Since(start: int, gap: int, updatedAt: int): int {
    var later := if updatedAt < start - gap then start - gap else updatedAt;
    if later < 0 then 0 else later
  }

  /** The loop finds a row stuck no later than two thresholds and one iteration after that. */
  lemma StuckIsFound(times: seq<int>, c: Config, gap: int, row: Row) returns (k: nat)
    requires ConfigOk(c) && 0 <= gap && Paced(times, gap) && times != []
    requires row.status == Processing
    requires Since(times[0], gap, row.updatedAt) + 2 * c.threshold < times[|times| - 1]
    ensures k < |times| && RecoversAt(times, c.threshold, k)
    ensures times[k] <= Since(times[0], gap, row.updatedAt) + 2 * c.threshold + gap
    ensures Stuck(row, times[k], c.threshold)
  {
    assert times[..0] == [];
    k := NextRecovery(times, c.threshold, gap, Since(times[0], gap, row.updatedAt), 0);
  }

  /** An event in `processing` that no worker will write to any more. */
  predicate Orphan(b: Box, id: int) {
    && id in b.rows && b.rows[id].status == Processing
    && forall w :: w in b.workers && b.workers[w].Working? ==> !Has(b.workers[w].batch, b.workers[w].next, id)
  }

  /** A crash or an error that escapes the batch makes orphans of what the worker still held. */
  lemma AbandonOrphans(b: Box, w: int, id: int)
    requires id in b.rows && b.rows[id].status == Processing && Enabled(b, Abandon(w))
    requires forall v :: v in b.workers && v != w && b.workers[v].Working? ==>
      !Has(b.workers[v].batch, b.workers[v].next, id)
    ensures Orphan(Step(b, Abandon(w)), id)
  {
  }

  lemma OrphanNotClaimed(b: Box, w: int, id: int)
    requires Inv(b) && Orphan(b, id) && Enabled(b, Claim(w))
    ensures !Has(WorkerOf(b, w).batch, 0, id)
    ensures Orphan(DoClaim(b, w), id) && DoClaim(b, w).rows[id] == b.rows[id]
  {
  }

  lemma OrphanNotHeld(b: Box, w: int, id: int)
    requires Orphan(b, id) && CanWrite(b, w)
    ensures Current(b, w).id != id
    ensures Advance(WorkerOf(b, w)).Working? ==>
      !Has(Advance(WorkerOf(b, w)).batch, Advance(WorkerOf(b, w)).next, id)
  {
  }

  /** Nothing but a recovery, after the threshold, moves an orphan. */
  lemma OrphanStep(b: Box, l: Label, id: int)
    requires Inv(b) && Orphan(b, id)
    ensures id in Step(b, l).rows
    ensures
      if l.Recover? && Stuck(b.rows[id], b.clock, b.config.threshold)
      then Step(b, l).rows[id] == RecoveredRow(b.rows[id], b.clock)
      else Orphan(Step(b, l), id) && Step(b, l).rows[id] == b.rows[id]
  {
    if Enabled(b, l) {
      match l
      case Claim(w) => OrphanNotClaimed(b, w, id);
      case Publish(w, _, _) => assert b.workers[w] == WorkerOf(b, w);
      case MarkSent(w) => OrphanNotHeld(b, w, id);
      case MarkFailed(w, _) => OrphanNotHeld(b, w, id);
      case _ =>
    }
  }

  /** Step `i` of a run is a recovery that finds the event as it was at the start, and stuck. */
  predicate FoundStuck(b: Box, ls: seq<Label>, id: int, i: nat)
    requires id in b.rows && i < |ls|
  {
    ls[i].Recover? && Stuck(b.rows[id], Exec(b, ls[..i]).clock, b.config.threshold)
  }

  lemma {:induction false} ConfigIs(b: Box, ls: seq<Label>)
    ensures Exec(b, ls).config == b.config
  {
    if ls != [] {
      ConfigIs(b, ls[..|ls| - 1]);
    }
  }

  lemma OrphanMoves(b: Box, ls: seq<Label>, id: int, i: nat) returns (k: nat)
    requires Inv(b) && Orphan(b, id) && i < |ls|
    requires Orphan(Exec(b, ls[..i]), id) && Exec(b, ls[..i]).rows[id] == b.rows[id]
    ensures k == if FoundStuck(b, ls, id, i) then i else i + 1
    ensures k == i ==>
      && id in Exec(b, ls[..i + 1]).rows
      && Exec(b, ls[..i + 1]).rows[id] == RecoveredRow(b.rows[id], Exec(b, ls[..i]).clock)
    ensures k != i ==> Orphan(Exec(b, ls[..i + 1]), id) && Exec(b, ls[..i + 1]).rows[id] == b.rows[id]
  {
    k := if FoundStuck(b, ls, id, i) then i else i + 1;
    InvExec(b, ls[..i]);
    ConfigIs(b, ls[..i]);
    OrphanStep(Exec(b, ls[..i]), ls[i], id);
    assert ls[..i + 1][..i] == ls[..i];
  }

  /** Along a run an orphan waits unchanged until the first recovery that finds it stuck, which
      makes it pending and due. */
  lemma {:induction false} OrphanWaits(b: Box, ls: seq<Label>, id: int, n: nat) returns (k: nat)
    requires Inv(b) && Orphan(b, id) && n <= |ls|
    ensures k <= n
    ensures Orphan(Exec(b, ls[..k]), id) && Exec(b, ls[..k]).rows[id] == b.rows[id]
    ensures forall i :: 0 <= i < k ==> !FoundStuck(b, ls, id, i)
    ensures k < n ==>
      && FoundStuck(b, ls, id, k)
      && id in Exec(b, ls[..k + 1]).rows
      && Exec(b, ls[..k + 1]).rows[id] == RecoveredRow(b.rows[id], Exec(b, ls[..k]).clock)
  {
    if n == 0 {
      k := 0;
    } else {
      k := OrphanWaits(b, ls, id, n - 1);
      if k == n - 1 {
        k := OrphanMoves(b, ls, id, k);
      }
    }
  }

  /** So an abandoned event is pending again by the first recovery after the threshold. */
  lemma OrphanIsRecovered(b: Box, ls: seq<Label>, id: int, i: nat) returns (k: nat)
    requires Inv(b) && Orphan(b, id)
    requires i < |ls| && FoundStuck(b, ls, id, i)
    ensures k <= i && ls[k].Recover?
    ensures id in Exec(b, ls[..k + 1]).rows
    ensures Exec(b, ls[..k + 1]).rows[id] == RecoveredRow(b.rows[id], Exec(b, ls[..k]).clock)
    ensures Due(Exec(b, ls[..k + 1]).rows[id], Exec(b, ls[..k]).clock)
  {
    k := OrphanWaits(b, ls, id, |ls|);
  }

  /** The steps of a run that is cut into turns. */
  function Flat(turns: seq<seq<Label>>): seq<Label> {
    if turns == [] then [] else Flat(turns[..|turns| - 1]) + turns[|turns| - 1]
  }

  /** Each turn begins at its time, and with a recovery if the worker loop runs one then. The
      other steps of a turn are arbitrary: batches, other workers, inserts, crashes. */
  ghost predicate Scheduled(b: Box, turns: seq<seq<Label>>, times: seq<int>) {
    && |turns| == |times|
    && forall i :: 0 <= i < |turns| ==>
         && Exec(b, Flat(turns[..i])).clock == times[i]
         && (RecoversAt(times, b.config.threshold, i) ==> turns[i] != [] && turns[i][0] == Recover)
  }

  lemma ScheduledAppend(b: Box, turns: seq<seq<Label>>, times: seq<int>, turn: seq<Label>, now: int)
    requires Scheduled(b, turns, times) && now == Exec(b, Flat(turns)).clock
    requires RecoversAt(times + [now], b.config.threshold, |times|) ==> turn != [] && turn[0] == Recover
    ensures Scheduled(b, turns + [turn], times + [now])
    ensures Flat(turns + [turn]) == Flat(turns) + turn
  {
    var turns', times' := turns + [turn], times + [now];
    assert turns'[..|turns|] == turns;
    forall i | 0 <= i < |turns|
      ensures turns'[..i] == turns[..i] && times'[..i] == times[..i]
    {
    }
  }

  lemma {:induction false} FlatAt(turns: seq<seq<Label>>, i: nat)
    requires i < |turns|
    ensures Flat(turns[..i]) + turns[i] <= Flat(turns)
  {
    var n := |turns| - 1;
    if i < n {
      FlatAt(turns[..n], i);
      assert turns[..n][..i] == turns[..i];
    }
  }

  /** Where in the run a scheduled recovery happens. */
  lemma RecoveryInRun(b: Box, turns: seq<seq<Label>>, times: seq<int>, turn: nat) returns (i: nat)
    requires Scheduled(b, turns, times) && turn < |times| && RecoversAt(times, b.config.threshold, turn)
    ensures i < |Flat(turns)| && Flat(turns)[i] == Recover && Exec(b, Flat(turns)[..i]).clock == times[turn]
  {
    i := |Flat(turns[..turn])|;
    FlatAt(turns, turn);
    assert Flat(turns)[..i] == Flat(turns[..turn]) && Flat(turns)[i] == turns[turn][0];
  }

  lemma {:induction false} ClockRises(b: Box, ls: seq<Label>, k: nat, i: nat)
    requires k <= i <= |ls|
    ensures Exec(b, ls[..k]).clock <= Exec(b, ls[..i]).clock
    decreases i
  {
    if k < i {
      ClockRises(b, ls, k, i - 1);
      assert ls[..i][..i - 1] == ls[..i - 1];
    }
  }

  /** No row was written in the future. */
  predicate Past(b: Box) {
    forall id :: id in b.rows ==> b.rows[id].updatedAt <= b.clock
  }

  lemma PastStep(b: Box, l: Label)
    requires Inv(b) && Past(b)
    ensures Past(Step(b, l))
  {
    if l.Claim? && Enabled(b, l) {
      assert WorkerOk(b, WorkerOf(b, l.w));
    }
  }

  lemma {:induction false} PastExec(b: Box, ls: seq<Label>)
    requires Inv(b) && Past(b)
    ensures Past(Exec(b, ls))
  {
    if ls != [] {
      PastExec(b, ls[..|ls| - 1]);
      InvExec(b, ls[..|ls| - 1]);
      PastStep(Exec(b, ls[..|ls| - 1]), ls[|ls| - 1]);
    }
  }

  /** From position `n` of a run on, everything is as in a run from the state reached there. */
  lemma Later(b: Box, run: seq<Label>, n: nat, k: nat)
    requires n + k <= |run|
    ensures Exec(b, run[..n + k]) == Exec(Exec(b, run[..n]), run[n..][..k])
  {
    ExecConcat(b, run[..n], run[n..n + k]);
    assert run[n..][..k] == run[n..n + k];
    assert run[..n + k] == run[..n] + run[n..n + k];
  }

  lemma StuckLater(b: Box, run: seq<Label>, n: nat, id: int, i: nat)
    requires Inv(b) && Past(b) && n <= i < |run| && Orphan(Exec(b, run[..n]), id)
    requires run[i] == Recover && Exec(b, run[..n]).clock + b.config.threshold < Exec(b, run[..i]).clock
    ensures FoundStuck(Exec(b, run[..n]), run[n..], id, i - n)
  {
    PastExec(b, run[..n]);
    ConfigIs(b, run[..n]);
    Later(b, run, n, i - n);
  }

  lemma SameLater(b: Box, run: seq<Label>, n: nat, j: nat)
    requires n + j < |run|
    ensures Exec(b, run[..n + j]) == Exec(Exec(b, run[..n]), run[n..][..j])
    ensures Exec(b, run[..n + j + 1]) == Exec(Exec(b, run[..n]), run[n..][..j + 1])
  {
    Later(b, run, n, j);
    Later(b, run, n, j + 1);
  }

  lemma RecoveredInRest(b: Box, run: seq<Label>, n: nat, id: int, i: nat) returns (j: nat)
    requires Inv(b) && Past(b) && n <= i < |run| && Orphan(Exec(b, run[..n]), id)
    requires run[i] == Recover && Exec(b, run[..n]).clock + b.config.threshold < Exec(b, run[..i]).clock
    ensures
      var s, rest := Exec(b, run[..n]), run[n..];
      && n + j <= i && id in Exec(s, rest[..j + 1]).rows
      && Due(Exec(s, rest[..j + 1]).rows[id], Exec(s, rest[..j]).clock)
      && Exec(s, rest[..j + 1]).rows[id].retryCount == s.rows[id].retryCount
  {
    InvExec(b, run[..n]);
    StuckLater(b, run, n, id, i);
    j := OrphanIsRecovered(Exec(b, run[..n]), run[n..], id, i - n);
  }

  /** An orphan of the state after `n` steps is recovered by any later recovery at which the clock
      is more than a threshold ahead. */
  lemma RecoveredLater(b: Box, run: seq<Label>, n: nat, id: int, i: nat) returns (k: nat)
    requires Inv(b) && Past(b) && n <= i < |run| && Orphan(Exec(b, run[..n]), id)
    requires run[i] == Recover && Exec(b, run[..n]).clock + b.config.threshold < Exec(b, run[..i]).clock
    ensures n <= k <= i
    ensures id in Exec(b, run[..k + 1]).rows && Due(Exec(b, run[..k + 1]).rows[id], Exec(b, run[..k]).clock)
    ensures Exec(b, run[..k + 1]).rows[id].retryCount == Exec(b, run[..n]).rows[id].retryCount
  {
    var j := RecoveredInRest(b, run, n, id, i);
    k := n + j;
    SameLater(b, run, n, j);
  }

  /** Recovery latency. In every run whose turns are scheduled by the worker loop at most `gap`
      apart, an event that nobody will write to any more at some moment `n` of the run, because its
      worker crashed or gave up before or during the loop, is pending and due again within two
      thresholds and one gap, whatever else happens in the run. */
  lemma AbandonedIsRecovered(b: Box, turns: seq<seq<Label>>, times: seq<int>, gap: int, n: nat, id: int)
    returns (k: nat)
    requires Inv(b) && Past(b) && 0 <= b.clock
    requires Scheduled(b, turns, times) && 0 <= gap && Paced(times, gap) && times != []
    requires n <= |Flat(turns)| && Orphan(Exec(b, Flat(turns)[..n]), id)
    requires Exec(b, Flat(turns)[..n]).clock + 2 * b.config.threshold < times[|times| - 1]
    ensures n <= k < |Flat(turns)|
    ensures
      var before, now := Exec(b, Flat(turns)[..n]), Exec(b, Flat(turns)[..k]).clock;
      var rows := Exec(b, Flat(turns)[..k + 1]).rows;
      && now <= before.clock + 2 * b.config.threshold + gap
      && id in rows && Due(rows[id], now) && rows[id].retryCount == before.rows[id].retryCount
  {
    var run := Flat(turns);
    var now := Exec(b, run[..n]).clock;
    assert turns[..0] == [] && times[0] == b.clock && run[..0] == [];
    ClockRises(b, run, 0, n);
    var turn := RecoveryComes(times, b.config.threshold, gap, now);
    var i := RecoveryInRun(b, turns, times, turn);
    if i < n {
      ClockRises(b, run, i, n);
    }
    k := RecoveredLater(b, run, n, id, i);
    ClockRises(b, run, k, i);
  }

  /** For an event that was abandoned before the loop started the time counts from its last write
      (or from the start of the loop, if that is later). */
  lemma RecoveredAfterStart(b: Box, turns: seq<seq<Label>>, times: seq<int>, gap: int, id: int) returns (k: nat)
    requires Inv(b) && Orphan(b, id)
    requires Scheduled(b, turns, times) && 0 <= gap && Paced(times, gap) && times != []
    requires Since(b.clock, gap, b.rows[id].updatedAt) + 2 * b.config.threshold < times[|times| - 1]
    ensures k < |Flat(turns)|
    ensures
      var now, rows := Exec(b, Flat(turns)[..k]).clock, Exec(b, Flat(turns)[..k + 1]).rows;
      && now <= Since(b.clock, gap, b.rows[id].updatedAt) + 2 * b.config.threshold + gap
      && id in rows && Due(rows[id], now) && rows[id].retryCount == b.rows[id].retryCount
  {
    var run := Flat(turns);
    assert turns[..0] == [] && times[0] == b.clock;
    var turn := StuckIsFound(times, b.config, gap, b.rows[id]);
    var i := RecoveryInRun(b, turns, times, turn);
    k := OrphanIsRecovered(b, run, id, i);
    ClockRises(b, run, k, i);
  }

  /** What a recovery does: exactly the rows in `processing` that were last written more than
      the threshold ago become pending and due; nothing younger is touched. */
  lemma RecoveryIsExact(b: Box, id: int)
    requires id in b.rows
    ensures id in DoRecover(b).rows
    ensures DoRecover(b).rows[id] != b.rows[id] <==>
      b.rows[id].status == Processing && b.rows[id].updatedAt + b.config.threshold < b.clock
    ensures DoRecover(b).rows[id] != b.rows[id] ==>
      Due(DoRecover(b).rows[id], b.clock) && DoRecover(b).rows[id].retryCount == b.rows[id].retryCount
  {
  }
}
