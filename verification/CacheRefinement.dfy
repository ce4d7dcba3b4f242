/** Redis is only an accelerator: every run with Redis has a twin run in which Redis never
    answers and the committed tables go through the same states. */
module CacheRefinement {
  import opened Schema
  import opened Purchase
  import opened PurchaseInvariant

  /** A call that was answered by Redis never reached the database. */
  function Forget(pr: Proc): Proc {
    if pr.phase == Done(Success(RedisHit)) then Proc(pr.req, Probing) else pr
  }

  function Uncached(s: Shop): Shop {
    s.(redis := map[], procs := map r | r in s.procs :: Forget(s.procs[r]))
  }

  predicate TouchesRedis(l: Label) {
    l.ProbeHit? || l.CacheSet? || l.Evict?
  }

  /** What the run without Redis does in place of a step that happens. */
  function Offline(l: Label): seq<Label> {
    match l
    case ProbeHit(_) => []
    case Evict(_) => []
    case CacheSet(r) => [CacheSkip(r)]
    case _ => [l]
  }

  function OfflineRun(s: Shop, ls: seq<Label>): seq<Label> {
    if ls == [] then []
    else
      var n := |ls| - 1;
      OfflineRun(s, ls[..n]) + (if Enabled(Exec(s, ls[..n]), ls[n]) then Offline(ls[n]) else [])
  }

  lemma UncachedMove(s: Shop, r: int, ph: Phase)
    requires r in s.procs && s.procs[r].phase != Done(Success(RedisHit)) && ph != Done(Success(RedisHit))
    ensures Uncached(Move(s, r, ph)) == Move(Uncached(s), r, ph)
  {
  }

  lemma StillEnabled(s: Shop, l: Label)
    requires Enabled(s, l) && !TouchesRedis(l)
    ensures Enabled(Uncached(s), l)
  {
  }

  lemma OfflineCommit(s: Shop, r: int)
    requires Enabled(s, Commit(r))
    ensures DoCommit(Uncached(s), r) == Uncached(DoCommit(s, r))
  {
  }

  lemma OfflineInsert(s: Shop, r: int, orderId: int)
    requires Enabled(s, Insert(r, orderId))
    ensures DoInsert(Uncached(s), r, orderId) == Uncached(DoInsert(s, r, orderId))
  {
    UncachedMove(s.(orderSeq := Max(s.orderSeq, orderId + 1)), r,
      if s.procs[r].req.key in s.keyIndex then Done(Success(Race)) else Committing(orderId));
  }

  lemma OfflinePhase(s: Shop, l: Label)
    requires Inv(s) && Enabled(s, l)
    requires l.ProbeSkip? || l.Authorise? || l.LookUp? || l.Reread? || l.CacheSkip?
    ensures Enabled(Uncached(s), l)
    ensures Move(Uncached(s), l.r, NextPhase(Uncached(s), l)) == Uncached(Move(s, l.r, NextPhase(s, l)))
  {
    assert ProcOk(s, s.procs[l.r]);
    UncachedMove(s, l.r, NextPhase(s, l));
  }

  lemma OfflineUpdate(s: Shop, r: int)
    requires At(s, r, Updating)
    ensures DoUpdate(Uncached(s), r) == Uncached(DoUpdate(s, r))
  {
    UncachedMove(s, r, if Qualifies(s, s.procs[r].req) then Inserting else Rereading);
  }

  lemma OfflineCrash(s: Shop, r: int)
    requires r in s.procs && !Final(s.procs[r].phase)
    ensures DoCrash(Uncached(s), r) == Uncached(DoCrash(s, r))
  {
    UncachedMove(s, r, if s.procs[r].phase.Caching? then Lost else RolledBack);
  }

  lemma OfflineStep(s: Shop, l: Label)
    requires Inv(s) && Enabled(s, l) && !TouchesRedis(l)
    ensures Effect(Uncached(s), l) == Uncached(Effect(s, l))
  {
    match l
    case Arrive(r, q) => assert Effect(Uncached(s), l).procs == Uncached(Effect(s, l)).procs;
    case Update(r) => OfflineUpdate(s, r);
    case Insert(r, orderId) => OfflineInsert(s, r, orderId);
    case Commit(r) => OfflineCommit(s, r);
    case Crash(r) => OfflineCrash(s, r);
    case SetUser(_, _) =>
    case Burn(_) =>
    case _ => OfflinePhase(s, l);
  }

  lemma CacheSetTwin(s: Shop, r: int)
    requires Inv(s) && Enabled(s, CacheSet(r))
    ensures Exec(Uncached(s), [CacheSkip(r)]) == Uncached(Effect(s, CacheSet(r)))
  {
    OfflinePhase(s, CacheSkip(r));
    assert [CacheSkip(r)][..0] == [];
    assert Uncached(Effect(s, CacheSet(r))) == Uncached(Effect(s, CacheSkip(r)));
  }

  /** One step with Redis is no step, or the same step, without it. */
  lemma OfflineTwin(s: Shop, l: Label)
    requires Inv(s) && Enabled(s, l)
    ensures Exec(Uncached(s), Offline(l)) == Uncached(Effect(s, l))
  {
    if l.ProbeHit? {
      assert Uncached(Effect(s, l)).procs == Uncached(s).procs;
    } else if l.CacheSet? {
      CacheSetTwin(s, l.r);
    } else if !l.Evict? {
      StillEnabled(s, l);
      OfflineStep(s, l);
      assert [l][..0] == [];
    }
  }

  /** The twin run uses no Redis at all and leaves the same committed tables, the same
      order_id sequence and the same calls, but for the calls Redis answered, which wait at
      their first step. */
  lemma {:induction false} RedisOnlyAccelerates(users: map<int, UserStatus>, stock: map<int, int>, ls: seq<Label>)
    requires forall p :: p in stock ==> 0 <= stock[p]
    ensures
      var s0 := Init(users, stock);
      var twin := OfflineRun(s0, ls);
      && (forall l :: l in twin ==> !TouchesRedis(l))
      && Exec(s0, twin) == Uncached(Exec(s0, ls))
  {
    var s0 := Init(users, stock);
    InvInit(users, stock);
    if ls == [] {
      assert Uncached(s0) == s0;
    } else {
      var n := |ls| - 1;
      RedisOnlyAccelerates(users, stock, ls[..n]);
      var s := Exec(s0, ls[..n]);
      InvExec(s0, ls[..n]);
      if Enabled(s, ls[n]) {
        OfflineTwin(s, ls[n]);
        ExecConcat(s0, OfflineRun(s0, ls[..n]), Offline(ls[n]));
      } else {
        assert OfflineRun(s0, ls) == OfflineRun(s0, ls[..n]);
      }
    }
  }
}
