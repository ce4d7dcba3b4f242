/** What every step of every interleaving of purchases keeps, and what it says about
    the answers the calls give. */
module PurchaseInvariant {
  import opened Schema
  import opened Purchase

  predicate StockOk(s: Shop) {
    forall p :: p in s.products ==> 0 <= s.products[p]
  }

  predicate OrderOk(s: Shop, o: int, order: Order) {
    && order.key in s.keyIndex
    && s.keyIndex[order.key] == o
    && 0 < order.count
    && order.productId in s.products
  }

  /** The unique index and the order table describe each other. */
  predicate IndexOk(s: Shop) {
    && (forall k :: k in s.keyIndex ==> s.keyIndex[k] in s.orders && s.orders[s.keyIndex[k]].key == k)
    && (forall o :: o in s.orders ==> o < s.orderSeq && OrderOk(s, o, s.orders[o]))
  }

  predicate Apart(a: Proc, b: Proc) {
    && (HoldsProduct(a.phase) && HoldsProduct(b.phase) ==> a.req.productId != b.req.productId)
    && (a.phase.Committing? && b.phase.Committing? ==>
          a.req.key != b.req.key && a.phase.orderId != b.phase.orderId)
  }

  /** No two open transactions hold the same product row, key or order_id. */
  predicate Exclusive(s: Shop) {
    forall x, y :: x in s.procs && y in s.procs && x != y ==> Apart(s.procs[x], s.procs[y])
  }

  predicate ProcOk(s: Shop, pr: Proc) {
    var q := pr.req;
    && 0 < q.count
    && (HoldsProduct(pr.phase) ==> Qualifies(s, q))
    && match pr.phase
       case Rereading => !Qualifies(s, q)
       case Committing(orderId) =>
         q.key !in s.keyIndex && orderId !in s.orders && orderId < s.orderSeq
       case Caching(orderId, via) =>
         && orderId in s.orders && s.orders[orderId].key == q.key
         && (via == OwnCommit ==> s.orders[orderId] == OrderOf(q))
         && (via == OwnCommit || via == DbHit)
       case Done(Success(_)) => q.key in s.keyIndex
       case Done(Conflict(available, requested)) =>
         && requested == q.count
         && q.productId in s.products
         && s.products[q.productId] <= available < requested
       case Done(NotFound) => q.productId !in s.products
       case _ => true
  }

  predicate ProcsOk(s: Shop) {
    forall r :: r in s.procs ==> ProcOk(s, s.procs[r])
  }

  /** Redis only ever names committed orders, under their own key. */
  predicate RedisOk(s: Shop) {
    forall k :: k in s.redis ==> s.redis[k] in s.orders && s.orders[s.redis[k]].key == k
  }

  predicate Inv(s: Shop) {
    StockOk(s) && IndexOk(s) && ProcsOk(s) && Exclusive(s) && RedisOk(s)
  }

  lemma InvInit(users: map<int, UserStatus>, stock: map<int, int>)
    requires forall p :: p in stock ==> 0 <= stock[p]
    ensures Inv(Init(users, stock))
  {
  }

  /** A step that leaves the committed tables alone and moves only `r`. */
  lemma MoveKeeps(s: Shop, r: int, ph: Phase)
    requires Inv(s) && r in s.procs
    requires ProcOk(s, s.procs[r].(phase := ph))
    requires forall x :: x in s.procs && x != r ==>
      Apart(s.procs[r].(phase := ph), s.procs[x]) && Apart(s.procs[x], s.procs[r].(phase := ph))
    ensures Inv(Move(s, r, ph))
  {
  }

  lemma UpdateKeeps(s: Shop, r: int)
    requires Inv(s) && Enabled(s, Update(r))
    ensures Inv(DoUpdate(s, r))
  {
  }

  /** There is always a fresh order_id. */
  lemma NextIsFresh(s: Shop)
    requires Inv(s)
    ensures FreshOrder(s, s.orderSeq)
  {
    forall x | x in s.procs && s.procs[x].phase.Committing?
      ensures s.procs[x].phase.orderId != s.orderSeq
    {
      assert ProcOk(s, s.procs[x]);
    }
  }

  lemma BurnKeeps(s: Shop, orderId: int)
    requires Inv(s)
    ensures Inv(s.(orderSeq := Max(s.orderSeq, orderId + 1)))
  {
  }

  lemma InsertKeeps(s: Shop, r: int, orderId: int)
    requires Inv(s) && Enabled(s, Insert(r, orderId))
    ensures Inv(DoInsert(s, r, orderId))
  {
    var t := s.(orderSeq := Max(s.orderSeq, orderId + 1));
    BurnKeeps(s, orderId);
    assert ProcOk(s, s.procs[r]);
    forall x | x in s.procs && x != r && HoldsProduct(s.procs[x].phase)
      ensures s.procs[x].req.productId != s.procs[r].req.productId
      ensures s.procs[x].phase.Committing? ==> s.procs[x].phase.orderId != orderId
    {
      assert ProcOk(s, s.procs[x]) && Apart(s.procs[x], s.procs[r]);
    }
    MoveKeeps(t, r, if s.procs[r].req.key in s.keyIndex then Done(Success(Race)) else Committing(orderId));
  }

  lemma CommitTables(s: Shop, r: int)
    requires Inv(s) && Enabled(s, Commit(r))
    ensures StockOk(DoCommit(s, r)) && IndexOk(DoCommit(s, r)) && RedisOk(DoCommit(s, r))
  {
  }

  /** The row lock and the key lock kept both guards true until this moment. */
  lemma CommitKeeps(s: Shop, r: int)
    requires Inv(s) && Enabled(s, Commit(r))
    ensures Inv(DoCommit(s, r))
  {
    var me, t := s.procs[r], DoCommit(s, r);
    assert ProcOk(s, me);
    forall x | x in t.procs
      ensures ProcOk(t, t.procs[x])
    {
      if x != r {
        assert ProcOk(s, s.procs[x]) && Apart(s.procs[x], me);
      }
    }
    CommitTables(s, r);
  }

  lemma QuietKeeps(s: Shop, t: Shop)
    requires Inv(s) && RedisOk(t)
    requires t == s.(redis := t.redis, users := t.users)
    ensures Inv(t)
  {
  }

  lemma ArriveKeeps(s: Shop, r: int, q: Request)
    requires Inv(s) && Enabled(s, Arrive(r, q))
    ensures Inv(Effect(s, Arrive(r, q)))
  {
  }

  /** The phase a lock-free step leads to says the truth. */
  lemma NextPhaseOk(s: Shop, l: Label)
    requires Inv(s) && Enabled(s, l)
    requires l.ProbeHit? || l.ProbeSkip? || l.Authorise? || l.LookUp? || l.Reread? || l.CacheSet? || l.CacheSkip?
    ensures !HoldsProduct(s.procs[l.r].phase) && !HoldsProduct(NextPhase(s, l))
    ensures ProcOk(s, s.procs[l.r].(phase := NextPhase(s, l)))
  {
    var ph := s.procs[l.r].phase;
    assert ProcOk(s, s.procs[l.r]);
    if ph.Caching? {
      assert OrderOk(s, ph.orderId, s.orders[ph.orderId]);
    } else if l.ProbeHit? {
      var k := s.procs[l.r].req.key;
      assert OrderOk(s, s.redis[k], s.orders[s.redis[k]]);
    }
  }

  lemma PhaseKeeps(s: Shop, l: Label)
    requires Inv(s) && Enabled(s, l)
    requires l.ProbeHit? || l.ProbeSkip? || l.Authorise? || l.LookUp? || l.Reread? || l.CacheSkip?
    ensures Inv(Move(s, l.r, NextPhase(s, l)))
  {
    NextPhaseOk(s, l);
    MoveKeeps(s, l.r, NextPhase(s, l));
  }

  lemma CacheSetKeeps(s: Shop, r: int)
    requires Inv(s) && Enabled(s, CacheSet(r))
    ensures Inv(Effect(s, CacheSet(r)))
  {
    NextPhaseOk(s, CacheSet(r));
    assert ProcOk(s, s.procs[r]);
    var u := s.(redis := s.redis[s.procs[r].req.key := s.procs[r].phase.orderId]);
    QuietKeeps(s, u);
    MoveKeeps(u, r, NextPhase(s, CacheSet(r)));
  }

  lemma CrashKeeps(s: Shop, r: int)
    requires Inv(s) && Enabled(s, Crash(r))
    ensures Inv(DoCrash(s, r))
  {
  }

  /** Every step of every interleaving keeps the invariant. */
  lemma InvStep(s: Shop, l: Label)
    requires Inv(s)
    ensures Inv(Step(s, l))
  {
    if Enabled(s, l) {
      match l
      case Arrive(r, q) => ArriveKeeps(s, r, q);
      case Update(r) => UpdateKeeps(s, r);
      case Insert(r, orderId) => InsertKeeps(s, r, orderId);
      case Commit(r) => CommitKeeps(s, r);
      case Crash(r) => CrashKeeps(s, r);
      case Evict(k) => QuietKeeps(s, Effect(s, l));
      case SetUser(_, _) => QuietKeeps(s, Effect(s, l));
      case Burn(orderId) => BurnKeeps(s, orderId);
      case CacheSet(r) => CacheSetKeeps(s, r);
      case _ => PhaseKeeps(s, l);
    }
  }

  lemma {:induction false} InvExec(s: Shop, ls: seq<Label>)
    requires Inv(s)
    ensures Inv(Exec(s, ls))
  {
    if ls != [] {
      InvExec(s, ls[..|ls| - 1]);
      InvStep(Exec(s, ls[..|ls| - 1]), ls[|ls| - 1]);
    }
  }
}
