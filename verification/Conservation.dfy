/** The laws that span purchases and outbox: units are conserved, a consumer that drops
    duplicates can rebuild the stock, and the committed tables are those of a serial run. */
module Conservation {
  import opened Schema
  import opened Totals
  import opened ShopSystem
  import P = Purchase
  import PI = PurchaseInvariant
  import O = Outbox
  import OI = OutboxInvariant

  function Units(orders: map<int, Order>, p: int): map<int, int> {
    map o | o in orders :: if orders[o].productId == p then orders[o].count else 0
  }

  /** SUM(purchased_count) over the orders of product `p`. */
  ghost function Sold(orders: map<int, Order>, p: int): int {
    Total(Units(orders, p))
  }

  lemma SoldInsert(orders: map<int, Order>, o: int, order: Order, p: int)
    requires o !in orders
    ensures Sold(orders[o := order], p) == Sold(orders, p) + (if order.productId == p then order.count else 0)
  {
    var v := if order.productId == p then order.count else 0;
    TotalInsert(Units(orders, p), o, v);
    assert Units(orders[o := order], p) == Units(orders, p)[o := v];
  }

  ghost predicate Conserved(initial: map<int, int>, s: P.Shop) {
    && s.products.Keys == initial.Keys
    && forall p :: p in initial ==> initial[p] == s.products[p] + Sold(s.orders, p)
  }

  lemma ConservedStep(initial: map<int, int>, s: P.Shop, l: P.Label)
    requires PI.Inv(s) && Conserved(initial, s)
    ensures Conserved(initial, P.Step(s, l))
  {
    if l.Commit? && P.Enabled(s, l) {
      assert PI.ProcOk(s, s.procs[l.r]);
      forall p | p in initial
        ensures initial[p] == P.Step(s, l).products[p] + Sold(P.Step(s, l).orders, p)
      {
        SoldInsert(s.orders, s.procs[l.r].phase.orderId, OrderOf(s.procs[l.r].req), p);
      }
    } else if !l.Commit? {
      OrdersStay(s, l);
    }
  }

  /** The units of product `p` in a stretch of the commit log. */
  function Logged(log: seq<Entry>, p: int): int {
    if log == [] then 0
    else
      var n := |log| - 1;
      Logged(log[..n], p) + (if log[n].req.productId == p then log[n].req.count else 0)
  }

  predicate Positive(log: seq<Entry>) {
    forall i :: 0 <= i < |log| ==> 0 < log[i].req.count
  }

  lemma {:induction false} LoggedZero(log: seq<Entry>, p: int)
    requires Positive(log)
    ensures 0 <= Logged(log, p)
    ensures Logged(log, p) == 0 <==> forall i :: 0 <= i < |log| ==> log[i].req.productId != p
  {
    if log != [] {
      LoggedZero(log[..|log| - 1], p);
    }
  }

  /** A step adds to the orders what it adds to the log. */
  lemma LogStep(s: System, l: Label, p: int)
    requires Inv(s)
    ensures s.log <= Step(s, l).log && |Step(s, l).log| <= |s.log| + 1
    ensures Step(s, l).log == s.log ==> Sold(Step(s, l).shop.orders, p) == Sold(s.shop.orders, p)
    ensures Step(s, l).log != s.log ==>
      var q := Step(s, l).log[|s.log|].req;
      && 0 < q.count
      && Sold(Step(s, l).shop.orders, p) == Sold(s.shop.orders, p) + (if q.productId == p then q.count else 0)
  {
    if Enabled(s, l) {
      match l
      case Call(c) => OrdersStay(s.shop, c);
      case Commit(r, _, _) =>
        assert PI.ProcOk(s.shop, s.shop.procs[r]);
        SoldInsert(s.shop.orders, s.shop.procs[r].phase.orderId, OrderOf(s.shop.procs[r].req), p);
      case Work(_) =>
    }
  }

  lemma LogGrows(start: seq<Entry>, log: seq<Entry>, longer: seq<Entry>, p: int)
    requires start <= log <= longer && |longer| <= |log| + 1 && Positive(log[|start|..])
    requires longer != log ==> 0 < longer[|log|].req.count
    ensures Positive(longer[|start|..])
    ensures Logged(longer[|start|..], p) == Logged(log[|start|..], p) +
      if longer != log && longer[|log|].req.productId == p then longer[|log|].req.count else 0
  {
    if longer != log {
      assert longer[|start|..][..|log| - |start|] == log[|start|..];
    } else {
      assert longer == log;
    }
  }

  /** What was sold between two states of a run is what was committed between them. */
  lemma {:induction false} SoldSince(s: System, more: seq<Label>, p: int)
    requires Inv(s)
    ensures
      var t := Exec(s, more);
      && s.log <= t.log && Positive(t.log[|s.log|..])
      && Sold(t.shop.orders, p) == Sold(s.shop.orders, p) + Logged(t.log[|s.log|..], p)
  {
    if more != [] {
      var n := |more| - 1;
      var t := Exec(s, more[..n]);
      SoldSince(s, more[..n], p);
      InvExec(s, more[..n]);
      LogStep(t, more[n], p);
      LogGrows(s.log, t.log, Step(t, more[n]).log, p);
    }
  }

  /** What a consumer of the queue knows that keeps the first message of each order_id. */
  function Consume(broker: seq<O.Msg>): map<int, Order> {
    if broker == [] then map[]
    else
      var seen, m := Consume(broker[..|broker| - 1]), broker[|broker| - 1].payload;
      if m.orderId in seen then seen
      else seen[m.orderId := Order(m.userId, m.productId, m.count, Key(""))]
  }

  /** An order as the messages show it: without the idempotency key. */
  function Public(o: Order): Order {
    o.(key := Key(""))
  }

  /** Every message names an order of `orders` and has its fields. */
  predicate True(orders: map<int, Order>, broker: seq<O.Msg>) {
    forall j :: 0 <= j < |broker| ==>
      broker[j].payload.orderId in orders &&
      broker[j].payload == PayloadOf(broker[j].payload.orderId, orders[broker[j].payload.orderId])
  }

  lemma {:induction false} ConsumeTrue(orders: map<int, Order>, broker: seq<O.Msg>)
    requires True(orders, broker)
    ensures forall o :: o in Consume(broker) ==> o in orders && Consume(broker)[o] == Public(orders[o])
    ensures forall j :: 0 <= j < |broker| ==> broker[j].payload.orderId in Consume(broker)
  {
    if broker != [] {
      ConsumeTrue(orders, broker[..|broker| - 1]);
    }
  }

  predicate AllSent(rows: map<int, Row>) {
    forall e :: e in rows ==> rows[e].status == Sent
  }

  /** Every message carries the fields of the committed order it names. */
  lemma MessagesAreOrders(s: System, j: nat)
    requires Inv(s) && j < |s.box.broker|
    ensures
      var m := s.box.broker[j].payload;
      m.orderId in s.shop.orders && m == PayloadOf(m.orderId, s.shop.orders[m.orderId])
  {
    assert OI.MsgOk(s.box, s.box.broker[j]) && EventOk(s.shop.orders, s.box.rows[s.box.broker[j].id]);
  }

  /** At-least-once: a sent event's payload is in the broker, whatever happened on the way. */
  lemma SentIsPublished(s: System, e: int)
    requires Inv(s) && e in s.box.rows && s.box.rows[e].status == Sent
    ensures exists j :: 0 <= j < |s.box.broker| && s.box.broker[j].payload == s.box.rows[e].payload
  {
    var j :| 0 <= j < |s.box.broker| && s.box.broker[j].id == e;
    assert OI.MsgOk(s.box, s.box.broker[j]);
  }

  lemma EventStaysStep(s: System, l: Label, e: int)
    requires Inv(s) && e in s.box.rows
    ensures e in Step(s, l).box.rows && Step(s, l).box.rows[e].payload == s.box.rows[e].payload
  {
    if Enabled(s, l) {
      match l
      case Call(_) =>
      case Commit(_, _, _) =>
      case Work(o) => PayloadsStay(s.box, o);
    }
  }

  lemma {:induction false} EventStays(s: System, more: seq<Label>, e: int)
    requires Inv(s) && e in s.box.rows
    ensures e in Exec(s, more).box.rows && Exec(s, more).box.rows[e].payload == s.box.rows[e].payload
  {
    if more != [] {
      EventStays(s, more[..|more| - 1], e);
      InvExec(s, more[..|more| - 1]);
      EventStaysStep(Exec(s, more[..|more| - 1]), more[|more| - 1], e);
    }
  }

  /** Nothing is lost: a committed order has exactly one outbox event, with its fields, which
      survives every continuation; when that event is `sent`, its message is in the broker. */
  lemma NothingIsLost(s: System, more: seq<Label>, o: int) returns (e: int)
    requires Inv(s) && o in s.shop.orders
    ensures e in s.box.rows && s.box.rows[e].payload == PayloadOf(o, s.shop.orders[o])
    ensures forall d :: d in s.box.rows && s.box.rows[d].payload.orderId == o ==> d == e
    ensures
      var t := Exec(s, more);
      && e in t.box.rows && t.box.rows[e].payload == s.box.rows[e].payload
      && (t.box.rows[e].status == Sent ==>
            exists j :: 0 <= j < |t.box.broker| && t.box.broker[j].payload == s.box.rows[e].payload)
  {
    assert HasEvent(s.box.rows, o);
    e :| e in s.box.rows && s.box.rows[e].payload.orderId == o;
    assert EventOk(s.shop.orders, s.box.rows[e]);
    EventStays(s, more, e);
    InvExec(s, more);
    if Exec(s, more).box.rows[e].status == Sent {
      SentIsPublished(Exec(s, more), e);
    }
  }

  lemma ConsumedIsTrue(s: System)
    requires Inv(s)
    ensures forall o :: o in Consume(s.box.broker) ==>
      o in s.shop.orders && Consume(s.box.broker)[o] == Public(s.shop.orders[o])
    ensures forall j :: 0 <= j < |s.box.broker| ==> s.box.broker[j].payload.orderId in Consume(s.box.broker)
  {
    forall j | 0 <= j < |s.box.broker|
      ensures
        var m := s.box.broker[j].payload;
        m.orderId in s.shop.orders && m == PayloadOf(m.orderId, s.shop.orders[m.orderId])
    {
      MessagesAreOrders(s, j);
    }
    ConsumeTrue(s.shop.orders, s.box.broker);
  }

  /** Once every event is sent, the distinct messages are exactly the committed orders. */
  lemma ConsumeAll(s: System)
    requires Inv(s) && AllSent(s.box.rows)
    ensures Consume(s.box.broker).Keys == s.shop.orders.Keys
    ensures forall o :: o in s.shop.orders ==> Consume(s.box.broker)[o] == Public(s.shop.orders[o])
  {
    ConsumedIsTrue(s);
    forall o | o in s.shop.orders
      ensures o in Consume(s.box.broker) && Consume(s.box.broker)[o] == Public(s.shop.orders[o])
    {
      assert HasEvent(s.box.rows, o);
      var e :| e in s.box.rows && s.box.rows[e].payload.orderId == o;
      SentIsPublished(s, e);
      var j :| 0 <= j < |s.box.broker| && s.box.broker[j].payload == s.box.rows[e].payload;
      assert s.box.broker[j].payload.orderId == o;
    }
    forall o | o in Consume(s.box.broker)
      ensures o in s.shop.orders
    {
      assert Consume(s.box.broker)[o] == Public(s.shop.orders[o]);
    }
  }

  ghost predicate Law(initial: map<int, int>, s: System) {
    Inv(s) && Conserved(initial, s.shop)
  }

  lemma ShopConserved(initial: map<int, int>, s: System, l: Label)
    requires PI.Inv(s.shop) && Conserved(initial, s.shop)
    ensures Conserved(initial, Step(s, l).shop)
  {
    if Enabled(s, l) {
      match l
      case Call(p) => ConservedStep(initial, s.shop, p);
      case Commit(r, _, _) => ConservedStep(initial, s.shop, P.Commit(r));
      case Work(_) =>
    }
  }

  lemma LawStep(initial: map<int, int>, s: System, l: Label)
    requires Law(initial, s)
    ensures Law(initial, Step(s, l))
  {
    InvStep(s, l);
    ShopConserved(initial, s, l);
  }

  lemma {:induction false} LawExec(initial: map<int, int>, s: System, ls: seq<Label>)
    requires Law(initial, s)
    ensures Law(initial, Exec(s, ls))
  {
    if ls != [] {
      LawExec(initial, s, ls[..|ls| - 1]);
      LawStep(initial, Exec(s, ls[..|ls| - 1]), ls[|ls| - 1]);
    }
  }

  lemma LawInit(users: map<int, UserStatus>, initial: map<int, int>, c: O.Config)
    requires StockOk(initial) && O.ConfigOk(c)
    ensures Law(initial, Init(users, initial, c))
  {
  }

  /** Part of the orders sells part of the units, all of them all. */
  lemma PartialSales(part: map<int, Order>, orders: map<int, Order>, p: int)
    requires forall o :: o in part ==> o in orders && part[o] == Public(orders[o])
    requires forall o :: o in orders ==> 0 < orders[o].count
    ensures Sold(part, p) <= Sold(orders, p)
    ensures part.Keys == orders.Keys ==> Sold(part, p) == Sold(orders, p)
  {
    var some, all := Units(part, p), Units(orders, p);
    forall o | o in some
      ensures o in all && some[o] == all[o]
    {
      assert part[o] == Public(orders[o]);
    }
    forall o | o in all
      ensures 0 <= all[o]
    {
      assert 0 < orders[o].count;
    }
    TotalMonotone(some, all);
    if part.Keys == orders.Keys {
      assert some == all;
    }
  }

  lemma ConsumerBound(initial: map<int, int>, s: System, p: int)
    requires Law(initial, s) && p in initial
    ensures s.shop.products[p] <= initial[p] - Sold(Consume(s.box.broker), p)
    ensures AllSent(s.box.rows) ==> s.shop.products[p] == initial[p] - Sold(Consume(s.box.broker), p)
  {
    ConsumedIsTrue(s);
    forall o | o in s.shop.orders
      ensures 0 < s.shop.orders[o].count
    {
      assert PI.OrderOk(s.shop, o, s.shop.orders[o]);
    }
    PartialSales(Consume(s.box.broker), s.shop.orders, p);
    if AllSent(s.box.rows) {
      ConsumeAll(s);
    }
  }

  /** End-to-end conservation. In every reachable state of the combined system the initial
      stock of each product is what is left plus the sum of its committed orders, stock is
      never negative, and the units a de-duplicating consumer has seen account for no more
      than what was sold; once every event is sent they account for exactly that. */
  lemma UnitsAreConserved(users: map<int, UserStatus>, initial: map<int, int>, c: O.Config, ls: seq<Label>, p: int)
    requires StockOk(initial) && O.ConfigOk(c) && p in initial
    ensures
      var s := Exec(Init(users, initial, c), ls);
      && p in s.shop.products
      && 0 <= s.shop.products[p]
      && initial[p] == s.shop.products[p] + Sold(s.shop.orders, p)
      && s.shop.products[p] <= initial[p] - Sold(Consume(s.box.broker), p)
      && (AllSent(s.box.rows) ==> s.shop.products[p] == initial[p] - Sold(Consume(s.box.broker), p))
  {
    LawInit(users, initial, c);
    LawExec(initial, Init(users, initial, c), ls);
    ConsumerBound(initial, Exec(Init(users, initial, c), ls), p);
  }
}
