/** `process_purchase` as a state machine: any number of calls, each cut into the atomic
    steps that PostgreSQL (Read Committed) and Redis give it. A schedule is a sequence of
    labels; a label that is not enabled leaves the state alone, so every schedule is a run
    and every statement about schedules is about all interleavings. */
module Purchase {
  import opened Schema

  /** How a successful call learned that its order exists. */
  datatype Via = RedisHit | DbHit | OwnCommit | Race

  datatype Outcome =
    | Success(via: Via)
    | Forbidden
    | NotFound
    | Conflict(available: int, requested: int)

  /** The next thing a call does. */
  datatype Phase =
    | Probing                             // ask Redis for the key
    | Authorising                         // begin, read the user
    | LookingUp                           // read a committed order with this key
    | Updating                            // guarded UPDATE: waits for the product row lock
    | Rereading                           // UPDATE matched nothing: read the product again
    | Inserting                           // stock taken privately; flush waits for the key
    | Committing(orderId: int)            // order inserted privately
    | Caching(orderId: int, hit: Via)     // transaction over; tell Redis
    | Done(outcome: Outcome)
    | RolledBack                          // crashed or cancelled before commit
    | Lost                                // crashed after the transaction, before the reply

  datatype Proc = Proc(req: Request, phase: Phase)

  /** Committed tables, the unique index on orders.idempotency_key, a bound on the order_ids drawn
      so far, Redis, and the calls in flight. Ids are fresh, in no particular order. Locks are not
      stored: a call holds the row lock of its product from its UPDATE, and the lock on its key
      from its flush, to the end of its transaction, which its phase tells. */
  datatype Shop = Shop(
    users: map<int, UserStatus>,
    products: map<int, int>,
    orders: map<int, Order>,
    keyIndex: map<Key, int>,
    orderSeq: int,
    redis: map<Key, int>,
    procs: map<int, Proc>)

  datatype Label =
    | Arrive(r: int, q: Request)
    | ProbeHit(r: int)
    | ProbeSkip(r: int)                   // Redis misses or fails
    | Authorise(r: int)
    | LookUp(r: int)
    | Update(r: int)
    | Reread(r: int)
    | Insert(r: int, orderId: int)
    | Commit(r: int)
    | CacheSet(r: int)
    | CacheSkip(r: int)                   // Redis fails
    | Crash(r: int)                       // crash or cancellation at any point
    | Evict(k: Key)                       // Redis loses an entry (TTL, memory, restart)
    | SetUser(u: int, status: UserStatus)
    | Burn(orderId: int)                  // sequences skip values

  function Init(users: map<int, UserStatus>, stock: map<int, int>): Shop {
    Shop(users, stock, map[], map[], 1, map[], map[])
  }

  predicate Final(ph: Phase) {
    ph.Done? || ph.RolledBack? || ph.Lost?
  }

  predicate At(s: Shop, r: int, ph: Phase) {
    r in s.procs && s.procs[r].phase == ph
  }

  /** The WHERE clause of the guarded UPDATE on the committed row. */
  predicate Qualifies(s: Shop, q: Request) {
    q.productId in s.products && q.count <= s.products[q.productId]
  }

  function Move(s: Shop, r: int, ph: Phase): Shop
    requires r in s.procs
  {
    s.(procs := s.procs[r := s.procs[r].(phase := ph)])
  }

  predicate HoldsProduct(ph: Phase) {
    ph.Inserting? || ph.Committing?
  }

  predicate ProductFree(s: Shop, p: int) {
    forall x :: x in s.procs && HoldsProduct(s.procs[x].phase) ==> s.procs[x].req.productId != p
  }

  predicate KeyFree(s: Shop, k: Key) {
    forall x :: x in s.procs && s.procs[x].phase.Committing? ==> s.procs[x].req.key != k
  }

  /** Nobody has this order_id, committed or not. */
  predicate FreshOrder(s: Shop, orderId: int) {
    && orderId !in s.orders
    && forall x :: x in s.procs && s.procs[x].phase.Committing? ==> s.procs[x].phase.orderId != orderId
  }

  predicate Enabled(s: Shop, l: Label) {
    match l
    case Arrive(r, q) => r !in s.procs && 0 < q.count
    case ProbeHit(r) => At(s, r, Probing) && s.procs[r].req.key in s.redis
    case ProbeSkip(r) => At(s, r, Probing)
    case Authorise(r) => At(s, r, Authorising)
    case LookUp(r) => At(s, r, LookingUp)
    case Update(r) =>
      && At(s, r, Updating)
      && (Qualifies(s, s.procs[r].req) ==> ProductFree(s, s.procs[r].req.productId))
    case Reread(r) => At(s, r, Rereading)
    case Insert(r, orderId) =>
      && At(s, r, Inserting)
      && KeyFree(s, s.procs[r].req.key)
      && FreshOrder(s, orderId)
    case Commit(r) =>
      && r in s.procs
      && s.procs[r].phase.Committing?
      && s.procs[r].req.productId in s.products
    case CacheSet(r) => r in s.procs && s.procs[r].phase.Caching?
    case CacheSkip(r) => r in s.procs && s.procs[r].phase.Caching?
    case Crash(r) => r in s.procs && !Final(s.procs[r].phase)
    case Evict(k) => k in s.redis
    case SetUser(_, _) => true
    case Burn(_) => true
  }

  /** The guarded UPDATE: take the row lock and the stock, or match nothing. */
  function DoUpdate(s: Shop, r: int): Shop
    requires r in s.procs
  {
    var q := s.procs[r].req;
    Move(s, r, if Qualifies(s, q) then Inserting else Rereading)
  }

  /** The flush of the new order: a committed key is a unique violation, which rolls back. */
  function DoInsert(s: Shop, r: int, orderId: int): Shop
    requires r in s.procs
  {
    var k := s.procs[r].req.key;
    var t := s.(orderSeq := Max(s.orderSeq, orderId + 1));
    Move(t, r, if k in s.keyIndex then Done(Success(Race)) else Committing(orderId))
  }

  /** Commit publishes the private decrement and the private order at once. */
  function DoCommit(s: Shop, r: int): Shop
    requires r in s.procs && s.procs[r].phase.Committing? && s.procs[r].req.productId in s.products
  {
    var q, orderId := s.procs[r].req, s.procs[r].phase.orderId;
    var t := s.(
      products := s.products[q.productId := s.products[q.productId] - q.count],
      orders := s.orders[orderId := OrderOf(q)],
      keyIndex := s.keyIndex[q.key := orderId]);
    Move(t, r, Caching(orderId, OwnCommit))
  }

  function DoCrash(s: Shop, r: int): Shop
    requires r in s.procs
  {
    Move(s, r, if s.procs[r].phase.Caching? then Lost else RolledBack)
  }

  /** Steps that only change the phase of the call go to this phase. */
  function NextPhase(s: Shop, l: Label): Phase
    requires Enabled(s, l)
    requires l.ProbeHit? || l.ProbeSkip? || l.Authorise? || l.LookUp? || l.Reread? || l.CacheSet? || l.CacheSkip?
  {
    var q, ph := s.procs[l.r].req, s.procs[l.r].phase;
    match l
    case ProbeHit(_) => Done(Success(RedisHit))
    case ProbeSkip(_) => Authorising
    case Authorise(_) => if q.userId in s.users && s.users[q.userId] == Active then LookingUp else Done(Forbidden)
    case LookUp(_) => if q.key in s.keyIndex then Caching(s.keyIndex[q.key], DbHit) else Updating
    case Reread(_) =>
      Done(if q.productId in s.products then Conflict(s.products[q.productId], q.count) else NotFound)
    case CacheSet(_) => Done(Success(ph.hit))
    case CacheSkip(_) => Done(Success(ph.hit))
  }

  function Effect(s: Shop, l: Label): Shop
    requires Enabled(s, l)
  {
    match l
    case Arrive(r, q) => s.(procs := s.procs[r := Proc(q, Probing)])
    case Update(r) => DoUpdate(s, r)
    case Insert(r, orderId) => DoInsert(s, r, orderId)
    case Commit(r) => DoCommit(s, r)
    case Crash(r) => DoCrash(s, r)
    case Evict(k) => s.(redis := s.redis - {k})
    case SetUser(u, status) => s.(users := s.users[u := status])
    case Burn(orderId) => s.(orderSeq := Max(s.orderSeq, orderId + 1))
    case CacheSet(r) =>
      Move(s.(redis := s.redis[s.procs[r].req.key := s.procs[r].phase.orderId]), r, NextPhase(s, l))
    case _ => Move(s, l.r, NextPhase(s, l))
  }

  function Step(s: Shop, l: Label): Shop {
    if Enabled(s, l) then Effect(s, l) else s
  }

  /** The state after a schedule. */
  function Exec(s: Shop, ls: seq<Label>): Shop {
    if ls == [] then s else Step(Exec(s, ls[..|ls| - 1]), ls[|ls| - 1])
  }

  lemma ExecAppend(s: Shop, ls: seq<Label>, l: Label)
    ensures Exec(s, ls + [l]) == Step(Exec(s, ls), l)
  {
  }

  lemma {:induction false} ExecConcat(s: Shop, ls: seq<Label>, more: seq<Label>)
    ensures Exec(s, ls + more) == Exec(Exec(s, ls), more)
  {
    if more == [] {
      assert ls + more == ls;
    } else {
      var n := |more| - 1;
      ExecConcat(s, ls, more[..n]);
      assert (ls + more)[..|ls| + n] == ls + more[..n];
    }
  }

  lemma ExecTake(s: Shop, ls: seq<Label>, i: nat)
    requires i < |ls|
    ensures Exec(s, ls[..i + 1]) == Step(Exec(s, ls[..i]), ls[i])
  {
    assert ls[..i + 1][..i] == ls[..i];
  }

  /** The calls whose own step this is. */
  predicate Moves(l: Label, r: int) {
    match l
    case Arrive(x, _) => x == r
    case ProbeHit(x) => x == r
    case ProbeSkip(x) => x == r
    case Authorise(x) => x == r
    case LookUp(x) => x == r
    case Update(x) => x == r
    case Reread(x) => x == r
    case Insert(x, _) => x == r
    case Commit(x) => x == r
    case CacheSet(x) => x == r
    case CacheSkip(x) => x == r
    case Crash(x) => x == r
    case _ => false
  }

  /** A step of another call, or of the environment, leaves a call where it is. */
  lemma OthersLeave(s: Shop, l: Label, r: int)
    requires !Moves(l, r) && Enabled(s, l)
    ensures (r in Effect(s, l).procs) == (r in s.procs)
    ensures r in s.procs ==> Effect(s, l).procs[r] == s.procs[r]
  {
  }
}
