/** `process_purchase` as it is written: one call that reads and updates the database in
    place, while any number of other calls, workers, crashes and Redis failures act between
    its steps. The database remembers the run it has gone through, so that everything proved
    of runs holds for the state the call returns in. */
module PurchaseService {
  import opened Schema
  import opened ShopSystem
  import P = Purchase
  import PI = PurchaseInvariant
  import PA = PurchaseAnswers
  import O = Outbox
  import E = Erasure
  import OP = OutboxProgress

  /** A call answers, or is cancelled (crash, lost connection, timeout while waiting). */
  datatype Reply = Answer(outcome: P.Outcome) | Cancelled

  predicate Blocks(s: P.Shop, r: int, q: Request, x: int) {
    && x in s.procs && x != r
    && ((P.HoldsProduct(s.procs[x].phase) && s.procs[x].req.productId == q.productId)
        || (s.procs[x].phase.Committing? && s.procs[x].req.key == q.key))
  }

  /** Another call holds the product row or the key. */
  ghost predicate Blocked(s: P.Shop, r: int, q: Request) {
    exists x :: Blocks(s, r, q, x)
  }

  /** What the reply of call `r` for `q` tells about the database it returns in. */
  ghost predicate Truthful(s: System, r: int, q: Request, reply: Reply) {
    && r in s.shop.procs && s.shop.procs[r].req == q && P.Final(s.shop.procs[r].phase)
    && (reply.Answer? ==> s.shop.procs[r].phase == P.Done(reply.outcome))
    && match reply
       case Answer(Success(via)) =>
         && q.key in s.shop.keyIndex
         && var o := s.shop.keyIndex[q.key];
            o in s.shop.orders && s.shop.orders[o].key == q.key && HasEvent(s.box.rows, o)
            && (via == P.OwnCommit ==> s.shop.orders[o] == OrderOf(q))
            && (via == P.Race || via == P.RedisHit ==> E.Traceless(s.shop, r))
            && (forall x :: x in s.shop.orders && s.shop.orders[x].key == q.key ==> x == o)
       case Answer(Conflict(available, requested)) =>
         && requested == q.count && available < requested
         && q.productId in s.shop.products && s.shop.products[q.productId] == available
         && E.Traceless(s.shop, r)
       case Answer(NotFound) => q.productId !in s.shop.products && E.Traceless(s.shop, r)
       case Answer(Forbidden) => !PA.IsActive(s.shop, q.userId) && E.Traceless(s.shop, r)
       case Cancelled => Blocked(s.shop, r, q) && E.Traceless(s.shop, r)
  }

  /** Redis knows the order of this key. */
  predicate Remembered(s: System, k: Key) {
    k in s.shop.redis && k in s.shop.keyIndex && s.shop.redis[k] == s.shop.keyIndex[k]
  }

  /** Success that the database gave, not Redis and not a lost race. */
  predicate FromDatabase(reply: Reply) {
    reply == Answer(P.Success(P.OwnCommit)) || reply == Answer(P.Success(P.DbHit))
  }

  /** Events are never removed, and keep their payload and creation time. */
  predicate EventsKept(before: map<int, Row>, after: map<int, Row>) {
    forall e :: e in before ==>
      e in after && after[e].payload == before[e].payload && after[e].createdAt == before[e].createdAt
  }

  lemma StepKeepsEvents(s: System, l: Label)
    ensures EventsKept(s.box.rows, Step(s, l).box.rows)
  {
    if Enabled(s, l) && l.Work? {
      PayloadsStay(s.box, l.o);
      forall e | e in s.box.rows
        ensures e in O.Step(s.box, l.o).rows && O.Step(s.box, l.o).rows[e].createdAt == s.box.rows[e].createdAt
      {
        OP.RowsGrow(s.box, l.o, e);
      }
    }
  }

  /** An event with the order of `q` was created at `at`. */
  ghost predicate Announced(rows: map<int, Row>, q: Request, at: int) {
    exists e, o :: e in rows && rows[e].payload == PayloadOf(o, OrderOf(q)) && rows[e].createdAt == at
  }

  lemma StillAnnounced(before: map<int, Row>, after: map<int, Row>, q: Request, at: int)
    requires EventsKept(before, after) && Announced(before, q, at)
    ensures Announced(after, q, at)
  {
    var e, o :| e in before && before[e].payload == PayloadOf(o, OrderOf(q)) && before[e].createdAt == at;
    assert after[e].payload == PayloadOf(o, OrderOf(q));
  }

  /** The last commit is that of `q`, and its event was created at `startedAt`. */
  predicate LastCommit(s: System, q: Request, startedAt: int) {
    && s.log != [] && s.log[|s.log| - 1].req == q
    && s.log[|s.log| - 1].eventId in s.box.rows
    && s.box.rows[s.log[|s.log| - 1].eventId].createdAt == startedAt
    && s.box.rows[s.log[|s.log| - 1].eventId].payload == PayloadOf(s.log[|s.log| - 1].orderId, OrderOf(q))
  }

  lemma SuccessIsTruthful(s: System, r: int, q: Request, via: P.Via)
    requires Inv(s) && r in s.shop.procs && s.shop.procs[r] == P.Proc(q, P.Done(P.Success(via)))
    requires via == P.OwnCommit ==>
      && q.key in s.shop.keyIndex && s.shop.keyIndex[q.key] in s.shop.orders
      && s.shop.orders[s.shop.keyIndex[q.key]] == OrderOf(q)
    ensures Truthful(s, r, q, Answer(P.Success(via)))
  {
    assert PI.ProcOk(s.shop, s.shop.procs[r]);
    var o := s.shop.keyIndex[q.key];
    forall x | x in s.shop.orders && s.shop.orders[x].key == q.key
      ensures x == o
    {
      assert PI.OrderOk(s.shop, x, s.shop.orders[x]);
    }
  }

  lemma ConflictIsTruthful(s: System, r: int, q: Request, available: int)
    requires Inv(s) && r in s.shop.procs && s.shop.procs[r] == P.Proc(q, P.Done(P.Conflict(available, q.count)))
    requires q.productId in s.shop.products && s.shop.products[q.productId] == available
    ensures Truthful(s, r, q, Answer(P.Conflict(available, q.count)))
  {
    assert PI.ProcOk(s.shop, s.shop.procs[r]);
  }

  /** Everything a COMMIT changes, table by table. */
  function AfterCommit(s: System, r: int, eventId: int, at: int): System
    requires r in s.shop.procs && s.shop.procs[r].phase.Committing?
    requires s.shop.procs[r].req.productId in s.shop.products
  {
    var q, orderId := s.shop.procs[r].req, s.shop.procs[r].phase.orderId;
    System(
      P.Shop(
        s.shop.users,
        s.shop.products[q.productId := s.shop.products[q.productId] - q.count],
        s.shop.orders[orderId := OrderOf(q)],
        s.shop.keyIndex[q.key := orderId],
        s.shop.orderSeq,
        s.shop.redis,
        s.shop.procs[r := P.Proc(q, P.Caching(orderId, P.OwnCommit))]),
      O.DoInsert(s.box, eventId, PayloadOf(orderId, OrderOf(q)), at),
      s.log + [Entry(orderId, eventId, q)])
  }

  /** The commit of an open transaction is always possible, and does just that. */
  lemma CommitStep(s: System, r: int, at: int)
    requires Inv(s) && r in s.shop.procs && s.shop.procs[r].phase.Committing? && at <= s.box.clock
    ensures s.shop.procs[r].req.productId in s.shop.products
    ensures Step(s, Commit(r, s.box.eventSeq, at)) == AfterCommit(s, r, s.box.eventSeq, at)
  {
    assert PI.ProcOk(s.shop, s.shop.procs[r]);
  }

  lemma ClockAdvances(b: O.Box, l: O.Label)
    ensures b.clock <= O.Step(b, l).clock
  {
  }

  /** The steps of others leave a call where it is. */
  lemma OthersStay(s: System, l: Label, r: int)
    requires !MovesCall(l, r)
    ensures (r in Step(s, l).shop.procs) == (r in s.shop.procs)
    ensures r in s.shop.procs ==> Step(s, l).shop.procs[r] == s.shop.procs[r]
    ensures s.box.clock <= Step(s, l).box.clock
  {
    if Enabled(s, l) {
      match l
      case Call(p) => P.OthersLeave(s.shop, p, r);
      case Commit(x, _, _) => P.OthersLeave(s.shop, P.Commit(x), r);
      case Work(o) => ClockAdvances(s.box, o);
    }
  }

  /** The write to Redis after the transaction, or its failure. */
  lemma CacheStep(s: System, r: int, written: bool)
    requires r in s.shop.procs && s.shop.procs[r].phase.Caching?
    ensures
      var pr := s.shop.procs[r];
      Step(s, Call(if written then P.CacheSet(r) else P.CacheSkip(r))) ==
      s.(shop := s.shop.(
        redis := if written then s.shop.redis[pr.req.key := pr.phase.orderId] else s.shop.redis,
        procs := s.shop.procs[r := P.Proc(pr.req, P.Done(P.Success(pr.phase.hit)))]))
  {
  }

  lemma MoveStep(s: System, r: int, ph: P.Phase, l: P.Label)
    requires !l.Commit? && P.Enabled(s.shop, l) && r in s.shop.procs && P.Effect(s.shop, l) == P.Move(s.shop, r, ph)
    ensures Step(s, Call(l)) ==
      s.(shop := s.shop.(procs := s.shop.procs[r := P.Proc(s.shop.procs[r].req, ph)]))
  {
  }

  /** The flush, when nobody holds the key. */
  lemma InsertStep(s: System, r: int)
    requires r in s.shop.procs && s.shop.procs[r].phase.Inserting? && P.KeyFree(s.shop, s.shop.procs[r].req.key)
    requires P.FreshOrder(s.shop, s.shop.orderSeq)
    ensures
      var q := s.shop.procs[r].req;
      Step(s, Call(P.Insert(r, s.shop.orderSeq))) ==
      s.(shop := s.shop.(
        orderSeq := s.shop.orderSeq + 1,
        procs := s.shop.procs[r := P.Proc(q,
          if q.key in s.shop.keyIndex then P.Done(P.Success(P.Race)) else P.Committing(s.shop.orderSeq))]))
  {
  }

  class Database {
    var users: map<int, UserStatus>
    var products: map<int, int>
    var orders: map<int, Order>
    var keyIndex: map<Key, int>
    var orderSeq: int
    var cache: map<Key, int>           // Redis
    var calls: map<int, P.Proc>        // calls in flight; their phases tell who holds which lock
    var box: O.Box                     // the outbox table, its workers and the broker
    var log: seq<Entry>                // commits so far, in commit order
    ghost var run: seq<Label>
    ghost const origin: System

    function View(): System
      reads this
    {
      System(P.Shop(users, products, orders, keyIndex, orderSeq, cache, calls), box, log)
    }

    /** The state is the one some run from a good state leads to. */
    ghost predicate Valid()
      reads this
    {
      Inv(origin) && View() == Exec(origin, run)
    }

    constructor (users: map<int, UserStatus>, stock: map<int, int>, c: O.Config)
      requires StockOk(stock) && O.ConfigOk(c)
      ensures Valid() && View() == Init(users, stock, c) && run == []
    {
      this.users, products, orders, keyIndex, orderSeq, cache, calls := users, stock, map[], map[], 1, map[], map[];
      box, log, run := O.Init(c), [], [];
      origin := Init(users, stock, c);
      new;
      InvInit(users, stock, c);
    }

    /** A valid database satisfies every invariant of the protocol. */
    lemma Sound()
      requires Valid()
      ensures Inv(View())
    {
      InvExec(origin, run);
    }

    /** The next value of the order_id sequence is fresh. */
    lemma NextIsFresh()
      requires Valid()
      ensures P.FreshOrder(View().shop, orderSeq)
    {
      Sound();
      PI.NextIsFresh(View().shop);
    }

    /** Replace every table. */
    method Become(t: System)
      modifies this`users, this`products, this`orders, this`keyIndex, this`orderSeq, this`cache, this`calls
      modifies this`box, this`log
      ensures View() == t
    {
      users, products, orders, keyIndex := t.shop.users, t.shop.products, t.shop.orders, t.shop.keyIndex;
      orderSeq, cache, calls := t.shop.orderSeq, t.shop.redis, t.shop.procs;
      box, log := t.box, t.log;
    }

    /** Any number of arbitrary steps of other calls, of workers and of the environment. */
    method Interfere(r: int)
      requires Valid()
      modifies this
      ensures Valid() && old(run) <= run
      ensures (r in calls) == old(r in calls)
      ensures r in calls ==> calls[r] == old(calls[r])
      ensures old(box.clock) <= box.clock && EventsKept(old(box.rows), box.rows)
    {
      var n: int :| 0 <= n;
      for i := 0 to n
        invariant Valid() && old(run) <= run
        invariant (r in calls) == old(r in calls)
        invariant r in calls ==> calls[r] == old(calls[r])
        invariant old(box.clock) <= box.clock && EventsKept(old(box.rows), box.rows)
      {
        var l: Label := *;
        if !MovesCall(l, r) {
          ExecAppend(origin, run, l);
          OthersStay(View(), l, r);
          StepKeepsEvents(View(), l);
          Become(Step(View(), l));
          run := run + [l];
        }
      }
    }

    /** A request comes in. */
    method Receive(r: int, q: Request)
      requires Valid() && r !in calls && 0 < q.count
      modifies this`calls, this`run
      ensures Valid() && old(run) <= run
      ensures calls == old(calls)[r := P.Proc(q, P.Probing)]
    {
      ghost var l := Call(P.Arrive(r, q));
      ExecAppend(origin, run, l);
      calls := calls[r := P.Proc(q, P.Probing)];
      run := run + [l];
    }

    method WritePhase(r: int, ph: P.Phase)
      requires r in calls
      modifies this`calls
      ensures View() == old(View()).(shop := old(View()).shop.(procs := old(calls)[r := P.Proc(old(calls[r].req), ph)]))
    {
      calls := calls[r := calls[r].(phase := ph)];
    }

    /** A step of call `r` that changes nothing but its own phase. */
    method Advance(r: int, ph: P.Phase, ghost l: P.Label)
      requires Valid() && !l.Commit? && P.Enabled(View().shop, l) && r in calls
      requires P.Effect(View().shop, l) == P.Move(View().shop, r, ph)
      modifies this`calls, this`run
      ensures Valid() && run == old(run) + [Call(l)]
      ensures calls == old(calls)[r := P.Proc(old(calls[r].req), ph)]
    {
      ExecAppend(origin, run, Call(l));
      MoveStep(View(), r, ph, l);
      WritePhase(r, ph);
      run := run + [Call(l)];
    }

    method WriteOrder(r: int) returns (duplicate: bool)
      requires r in calls && calls[r].phase.Inserting? && P.KeyFree(View().shop, calls[r].req.key)
      requires P.FreshOrder(View().shop, orderSeq)
      modifies this`calls, this`orderSeq
      ensures View() == Step(old(View()), Call(P.Insert(r, old(orderSeq))))
      ensures duplicate == old(calls[r].req.key in keyIndex)
      ensures calls == old(calls)[r := P.Proc(old(calls[r].req),
        if duplicate then P.Done(P.Success(P.Race)) else P.Committing(old(orderSeq)))]
    {
      InsertStep(View(), r);
      duplicate := calls[r].req.key in keyIndex;
      calls := calls[r := calls[r].(phase := if duplicate then P.Done(P.Success(P.Race)) else P.Committing(orderSeq))];
      orderSeq := orderSeq + 1;
    }

    /** The flush: a fresh order_id is drawn, then the unique index decides. */
    method InsertOrder(r: int) returns (duplicate: bool)
      requires Valid() && P.At(View().shop, r, P.Inserting) && P.KeyFree(View().shop, calls[r].req.key)
      modifies this`calls, this`orderSeq, this`run
      ensures Valid() && old(run) <= run
      ensures duplicate == old(calls[r].req.key in keyIndex)
      ensures calls == old(calls)[r := P.Proc(old(calls[r].req),
        if duplicate then P.Done(P.Success(P.Race)) else P.Committing(old(orderSeq)))]
    {
      ghost var l := Call(P.Insert(r, orderSeq));
      NextIsFresh();
      ExecAppend(origin, run, l);
      duplicate := WriteOrder(r);
      run := run + [l];
    }

    /** COMMIT: stock, order, index entry and outbox event become visible together. */
    method WriteTables(r: int, startedAt: int)
      requires r in calls && calls[r].phase.Committing? && calls[r].req.productId in products
      modifies this`products, this`orders, this`keyIndex, this`box, this`calls, this`log
      ensures View() == AfterCommit(old(View()), r, old(box.eventSeq), startedAt)
    {
      var q, orderId := calls[r].req, calls[r].phase.orderId;
      log := log + [Entry(orderId, box.eventSeq, q)];
      products := products[q.productId := products[q.productId] - q.count];
      orders := orders[orderId := OrderOf(q)];
      keyIndex := keyIndex[q.key := orderId];
      box := O.DoInsert(box, box.eventSeq, PayloadOf(orderId, OrderOf(q)), startedAt);
      calls := calls[r := P.Proc(q, P.Caching(orderId, P.OwnCommit))];
    }

    method CommitOrder(r: int, startedAt: int)
      requires Valid() && r in calls && calls[r].phase.Committing? && startedAt <= box.clock
      modifies this
      ensures Valid() && old(run) <= run
      ensures old(calls[r].req.productId in products)
      ensures View() == AfterCommit(old(View()), r, old(box.eventSeq), startedAt)
      ensures calls[r] == P.Proc(old(calls[r].req), P.Caching(old(calls[r].phase.orderId), P.OwnCommit))
      ensures LastCommit(View(), old(calls[r].req), startedAt)
    {
      ghost var before, l := View(), Commit(r, box.eventSeq, startedAt);
      Sound();
      CommitStep(before, r, startedAt);
      ExecAppend(origin, run, l);
      WriteTables(r, startedAt);
      run := run + [l];
    }

    /** After the transaction: remember the order in Redis, if Redis takes it. */
    method CacheAnswer(r: int, redisWrites: bool)
      requires Valid() && r in calls && calls[r].phase.Caching?
      modifies this`calls, this`cache, this`run
      ensures Valid() && old(run) <= run
      ensures calls == old(calls)[r := P.Proc(old(calls[r].req), P.Done(P.Success(old(calls[r].phase.hit))))]
      ensures cache == if redisWrites then old(cache[calls[r].req.key := calls[r].phase.orderId]) else old(cache)
    {
      ghost var l := Call(if redisWrites then P.CacheSet(r) else P.CacheSkip(r));
      ExecAppend(origin, run, l);
      CacheStep(View(), r, redisWrites);
      var pr := calls[r];
      if redisWrites {
        cache := cache[pr.req.key := pr.phase.orderId];
      }
      calls := calls[r := pr.(phase := P.Done(P.Success(pr.phase.hit)))];
      run := run + [l];
    }

    /** GET of the key; a failing Redis counts as a miss. */
    method AskRedis(r: int, q: Request, redisReads: bool) returns (hit: bool)
      requires Valid() && r in calls && calls[r] == P.Proc(q, P.Probing)
      modifies this`calls, this`run
      ensures Valid() && run == old(run) + [Call(if hit then P.ProbeHit(r) else P.ProbeSkip(r))]
      ensures hit <==> redisReads && q.key in cache
      ensures r in calls && calls[r] == P.Proc(q, if hit then P.Done(P.Success(P.RedisHit)) else P.Authorising)
    {
      hit := redisReads && q.key in cache;
      if hit {
        Advance(r, P.Done(P.Success(P.RedisHit)), P.ProbeHit(r));
      } else {
        Advance(r, P.Authorising, P.ProbeSkip(r));
      }
    }

    /** Redis fast path. `asked` is the run up to the question. */
    method Probe(r: int, q: Request, redisReads: bool) returns (hit: bool, ghost asked: seq<Label>)
      requires Valid() && r in calls && calls[r] == P.Proc(q, P.Probing)
      modifies this
      ensures Valid() && r in calls
      ensures old(run) <= asked && run == asked + [Call(if hit then P.ProbeHit(r) else P.ProbeSkip(r))]
      ensures hit <==> redisReads && q.key in Exec(origin, asked).shop.redis
      ensures Exec(origin, asked).box.clock == box.clock
      ensures
        if hit then Truthful(View(), r, q, Answer(P.Success(P.RedisHit)))
        else calls[r] == P.Proc(q, P.Authorising)
    {
      Interfere(r);
      asked := run;
      assert Exec(origin, asked).shop.redis == cache && Exec(origin, asked).box == box;
      hit := AskRedis(r, q, redisReads);
      if hit {
        Sound();
        SuccessIsTruthful(View(), r, q, P.RedisHit);
      }
    }

    /** Begin the transaction and check the user. */
    method CheckUser(r: int, q: Request) returns (active: bool, startedAt: int)
      requires Valid() && r in calls && calls[r] == P.Proc(q, P.Authorising)
      modifies this
      ensures Valid() && old(run) <= run && r in calls && old(box.clock) <= startedAt == box.clock
      ensures active <==> PA.IsActive(View().shop, q.userId)
      ensures if active then calls[r] == P.Proc(q, P.LookingUp) else Truthful(View(), r, q, Answer(P.Forbidden))
    {
      Interfere(r);
      startedAt := box.clock;
      active := q.userId in users && users[q.userId] == Active;
      Advance(r, if active then P.LookingUp else P.Done(P.Forbidden), P.Authorise(r));
    }

    /** Slow path: a committed order with this key. */
    method FindOrder(r: int, q: Request) returns (found: bool)
      requires Valid() && r in calls && calls[r] == P.Proc(q, P.LookingUp)
      modifies this
      ensures Valid() && old(run) <= run && r in calls && calls[r].req == q && old(box.clock) <= box.clock
      ensures found <==> q.key in keyIndex
      ensures if found then calls[r].phase == P.Caching(keyIndex[q.key], P.DbHit) else calls[r].phase.Updating?
    {
      Interfere(r);
      found := q.key in keyIndex;
      Advance(r, if found then P.Caching(keyIndex[q.key], P.DbHit) else P.Updating, P.LookUp(r));
    }

    /** The guarded UPDATE. It matches nothing at once if the committed stock is too small;
        otherwise it needs the row lock. */
    method GuardedUpdate(r: int, q: Request) returns (matched: bool, blocked: bool)
      requires Valid() && r in calls && calls[r] == P.Proc(q, P.Updating)
      modifies this
      ensures Valid() && old(run) <= run && r in calls && old(box.clock) <= box.clock
      ensures matched <==> P.Qualifies(View().shop, q)
      ensures matched && blocked ==> Blocked(View().shop, r, q)
      ensures calls[r] == P.Proc(q, if !matched then P.Rereading else if blocked then P.Updating else P.Inserting)
    {
      Interfere(r);
      matched := q.productId in products && q.count <= products[q.productId];
      blocked := exists x :: x in calls && P.HoldsProduct(calls[x].phase) && calls[x].req.productId == q.productId;
      assert blocked ==> exists x :: Blocks(View().shop, r, q, x) by {
        if blocked {
          var x :| x in calls && P.HoldsProduct(calls[x].phase) && calls[x].req.productId == q.productId;
          assert Blocks(View().shop, r, q, x);
        }
      }
      if !matched || !blocked {
        Advance(r, if matched then P.Inserting else P.Rereading, P.Update(r));
      }
    }

    /** The flush of the new order. It needs the lock on the key. */
    method Flush(r: int, q: Request) returns (duplicate: bool, blocked: bool)
      requires Valid() && r in calls && calls[r] == P.Proc(q, P.Inserting)
      modifies this
      ensures Valid() && old(run) <= run && r in calls && calls[r].req == q && old(box.clock) <= box.clock
      ensures blocked ==> calls[r].phase.Inserting? && Blocked(View().shop, r, q)
      ensures !blocked ==> (duplicate <==> q.key in keyIndex)
      ensures !blocked && duplicate ==> Truthful(View(), r, q, Answer(P.Success(P.Race)))
      ensures !blocked && !duplicate ==> calls[r].phase.Committing?
    {
      Interfere(r);
      duplicate := false;
      blocked := exists x :: x in calls && calls[x].phase.Committing? && calls[x].req.key == q.key;
      if blocked {
        ghost var x :| x in calls && calls[x].phase.Committing? && calls[x].req.key == q.key;
        assert Blocks(View().shop, r, q, x);
      } else {
        duplicate := InsertOrder(r);
        if duplicate {
          Sound();
          SuccessIsTruthful(View(), r, q, P.Race);
        }
      }
    }

    /** 404 or 409, by a second read of the product. */
    method Refuse(r: int, q: Request) returns (reply: Reply)
      requires Valid() && r in calls && calls[r] == P.Proc(q, P.Rereading)
      modifies this
      ensures Valid() && old(run) <= run
      ensures Truthful(View(), r, q, reply) && reply.Answer? && !reply.outcome.Success?
    {
      Interfere(r);
      if q.productId in products {
        var available := products[q.productId];
        Advance(r, P.Done(P.Conflict(available, q.count)), P.Reread(r));
        Sound();
        ConflictIsTruthful(View(), r, q, available);
        reply := Answer(P.Conflict(available, q.count));
      } else {
        Advance(r, P.Done(P.NotFound), P.Reread(r));
        reply := Answer(P.NotFound);
      }
    }

    /** A call that is cut off inside its transaction: rolled back, its locks released. */
    method Cancel(r: int, q: Request) returns (reply: Reply)
      requires Valid() && r in calls && calls[r].req == q
      requires !P.Final(calls[r].phase) && !calls[r].phase.Caching? && Blocked(View().shop, r, q)
      modifies this`calls, this`run
      ensures Valid() && old(run) <= run
      ensures reply == Cancelled && Truthful(View(), r, q, reply)
    {
      ghost var x :| Blocks(View().shop, r, q, x);
      Advance(r, P.RolledBack, P.Crash(r));
      assert Blocks(View().shop, r, q, x);
      reply := Cancelled;
    }

    /** The order a call is about to remember is the one of its key. */
    lemma OrderInHand(r: int)
      requires Valid() && r in calls && calls[r].phase.Caching?
      ensures calls[r].req.key in keyIndex && keyIndex[calls[r].req.key] == calls[r].phase.orderId
      ensures calls[r].phase.orderId in orders
      ensures calls[r].phase.hit == P.OwnCommit ==> orders[calls[r].phase.orderId] == OrderOf(calls[r].req)
    {
      Sound();
      assert PI.ProcOk(View().shop, calls[r]);
      assert PI.OrderOk(View().shop, calls[r].phase.orderId, orders[calls[r].phase.orderId]);
    }

    lemma SuccessHolds(r: int, q: Request, via: P.Via)
      requires Valid() && r in calls && calls[r] == P.Proc(q, P.Done(P.Success(via)))
      requires via == P.OwnCommit ==>
        q.key in keyIndex && keyIndex[q.key] in orders && orders[keyIndex[q.key]] == OrderOf(q)
      ensures Truthful(View(), r, q, Answer(P.Success(via)))
    {
      Sound();
      SuccessIsTruthful(View(), r, q, via);
    }

    /** After the transaction: cache the answer, then give it. */
    method Respond(r: int, q: Request, redisWrites: bool) returns (reply: Reply)
      requires Valid() && r in calls && calls[r].req == q && calls[r].phase.Caching?
      modifies this
      ensures Valid() && old(run) <= run
      ensures Truthful(View(), r, q, reply) && reply == Answer(P.Success(old(calls[r].phase.hit)))
      ensures redisWrites ==> Remembered(View(), q.key)
      ensures EventsKept(old(box.rows), box.rows)
    {
      Interfere(r);
      var via := calls[r].phase.hit;
      OrderInHand(r);
      CacheAnswer(r, redisWrites);
      SuccessHolds(r, q, via);
      reply := Answer(P.Success(via));
    }

    /** With the stock in hand: the flush and the commit. */
    method PlaceOrder(r: int, q: Request, startedAt: int) returns (ended: Option<Reply>)
      requires Valid() && r in calls && calls[r] == P.Proc(q, P.Inserting) && startedAt <= box.clock
      modifies this
      ensures Valid() && old(run) <= run
      ensures ended.None? ==>
        r in calls && calls[r].req == q && calls[r].phase.Caching? && calls[r].phase.hit == P.OwnCommit
      ensures ended.None? ==> LastCommit(View(), q, startedAt)
      ensures ended.Some? ==> Truthful(View(), r, q, ended.value) && !FromDatabase(ended.value)
    {
      var duplicate, keyBlocked := Flush(r, q);
      if keyBlocked {
        var reply := Cancel(r, q);
        return Some(reply);
      }
      if duplicate {
        return Some(Answer(P.Success(P.Race)));
      }
      Interfere(r);
      CommitOrder(r, startedAt);
      return None;
    }

    /** The part of the transaction after the order lookup found nothing. None means that it
        committed; otherwise the reply is known and everything is rolled back. */
    method Buy(r: int, q: Request, startedAt: int) returns (ended: Option<Reply>)
      requires Valid() && r in calls && calls[r] == P.Proc(q, P.Updating) && startedAt <= box.clock
      modifies this
      ensures Valid() && old(run) <= run
      ensures ended.None? ==>
        r in calls && calls[r].req == q && calls[r].phase.Caching? && calls[r].phase.hit == P.OwnCommit
      ensures ended.None? ==> LastCommit(View(), q, startedAt)
      ensures ended.Some? ==> Truthful(View(), r, q, ended.value) && !FromDatabase(ended.value)
    {
      var matched, rowBlocked := GuardedUpdate(r, q);
      if !matched {
        var reply := Refuse(r, q);
        return Some(reply);
      }
      if rowBlocked {
        var reply := Cancel(r, q);
        return Some(reply);
      }
      ended := PlaceOrder(r, q, startedAt);
    }

    /** The transaction and what follows it, for a call that Redis did not answer. */
    method Transact(r: int, q: Request, redisWrites: bool) returns (reply: Reply, ghost begun: int)
      requires Valid() && r in calls && calls[r] == P.Proc(q, P.Authorising)
      modifies this
      ensures Valid() && old(run) <= run
      ensures Truthful(View(), r, q, reply)
      ensures redisWrites && FromDatabase(reply) ==> Remembered(View(), q.key)
      ensures old(box.clock) <= begun
      ensures reply == Answer(P.Success(P.OwnCommit)) ==> Announced(box.rows, q, begun)
    {
      var active, startedAt := CheckUser(r, q);
      begun := startedAt;
      if !active {
        reply := Answer(P.Forbidden);
        return;
      }
      var found := FindOrder(r, q);
      if !found {
        var ended := Buy(r, q, startedAt);
        if ended.Some? {
          reply := ended.value;
          return;
        }
        assert Announced(box.rows, q, begun);
      }
      ghost var before := box.rows;
      reply := Respond(r, q, redisWrites);
      if !found {
        StillAnnounced(before, box.rows, q, begun);
      }
    }

    /** The whole call, with the environment free between any two steps. Redis may be down for
        the probe or for the final write; a call that still waits for a lock when the others
        have done all they will do is cancelled. */
    method ProcessPurchase(r: int, q: Request, redisReads: bool, redisWrites: bool)
      returns (reply: Reply, ghost asked: seq<Label>, ghost begun: int)
      requires Valid() && r !in calls && 0 < q.count
      modifies this
      ensures Valid() && old(run) <= asked < run
      ensures run[|asked|] == Call(P.ProbeHit(r)) || run[|asked|] == Call(P.ProbeSkip(r))
      ensures run[|asked|] == Call(P.ProbeHit(r)) <==> redisReads && q.key in Exec(origin, asked).shop.redis
      ensures Truthful(View(), r, q, reply)
      ensures redisWrites && FromDatabase(reply) ==> Remembered(View(), q.key)
      ensures reply == Answer(P.Success(P.OwnCommit)) ==> Announced(box.rows, q, begun)
      ensures Exec(origin, asked).box.clock <= begun
    {
      Receive(r, q);
      var hit;
      hit, asked := Probe(r, q, redisReads);
      if hit {
        reply, begun := Answer(P.Success(P.RedisHit)), box.clock;
        return;
      }
      reply, begun := Transact(r, q, redisWrites);
    }
  }
}
