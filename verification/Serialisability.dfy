/** Every interleaving of purchases leaves the committed tables of a serial run: atomic
    purchases, one after the other, in commit order. */
module Serialisability {
  import opened Schema
  import opened ShopSystem
  import P = Purchase
  import PI = PurchaseInvariant
  import O = Outbox

  /** What is committed: stock, orders, and the events with their payloads. */
  datatype Ledger = Ledger(products: map<int, int>, orders: map<int, Order>, events: map<int, Payload>)

  predicate KeyUsed(orders: map<int, Order>, k: Key) {
    exists o :: o in orders && orders[o].key == k
  }

  predicate Accepts(g: Ledger, e: Entry) {
    && !KeyUsed(g.orders, e.req.key)
    && e.req.productId in g.products && e.req.count <= g.products[e.req.productId]
    && e.orderId !in g.orders && e.eventId !in g.events
  }

  /** A purchase as one indivisible action: if the key is unused and the stock suffices, take
      the stock, add the order and add its event, under fresh ids; otherwise do nothing. */
  function AtomicPurchase(g: Ledger, e: Entry): Ledger {
    if Accepts(g, e) then
      Ledger(
        g.products[e.req.productId := g.products[e.req.productId] - e.req.count],
        g.orders[e.orderId := OrderOf(e.req)],
        g.events[e.eventId := PayloadOf(e.orderId, OrderOf(e.req))])
    else g
  }

  function Replay(g: Ledger, log: seq<Entry>): Ledger {
    if log == [] then g else AtomicPurchase(Replay(g, log[..|log| - 1]), log[|log| - 1])
  }

  function Events(rows: map<int, Row>): map<int, Payload> {
    map e | e in rows :: rows[e].payload
  }

  function LedgerOf(s: System): Ledger {
    Ledger(s.shop.products, s.shop.orders, Events(s.box.rows))
  }

  lemma UnusedKey(s: P.Shop, k: Key)
    requires PI.Inv(s) && k !in s.keyIndex
    ensures !KeyUsed(s.orders, k)
  {
    forall o | o in s.orders
      ensures s.orders[o].key != k
    {
      assert PI.OrderOk(s, o, s.orders[o]);
    }
  }

  lemma CommitIsAccepted(s: System, r: int, eventId: int, at: int)
    requires Inv(s) && Enabled(s, Commit(r, eventId, at))
    ensures Accepts(LedgerOf(s), Entry(s.shop.procs[r].phase.orderId, eventId, s.shop.procs[r].req))
  {
    assert PI.ProcOk(s.shop, s.shop.procs[r]);
    UnusedKey(s.shop, s.shop.procs[r].req.key);
  }

  lemma EventsInsert(b: O.Box, eventId: int, payload: Payload, at: int)
    ensures Events(O.DoInsert(b, eventId, payload, at).rows) == Events(b.rows)[eventId := payload]
  {
  }

  /** The row lock and the key lock make both guards of the atomic purchase true at commit,
      however long ago the call checked them. */
  lemma CommitIsAtomicPurchase(s: System, r: int, eventId: int, at: int)
    requires Inv(s) && Enabled(s, Commit(r, eventId, at))
    ensures
      var e := Entry(s.shop.procs[r].phase.orderId, eventId, s.shop.procs[r].req);
      && Accepts(LedgerOf(s), e)
      && LedgerOf(DoCommit(s, r, eventId, at)) == AtomicPurchase(LedgerOf(s), e)
  {
    var me := s.shop.procs[r];
    CommitIsAccepted(s, r, eventId, at);
    EventsInsert(s.box, eventId, PayloadOf(me.phase.orderId, OrderOf(me.req)), at);
  }

  lemma EventsSame(rows: map<int, Row>, later: map<int, Row>)
    requires later.Keys == rows.Keys
    requires forall e :: e in rows ==> later[e].payload == rows[e].payload
    ensures Events(later) == Events(rows)
  {
    forall e | e in rows
      ensures e in later && Events(later)[e] == Events(rows)[e]
    {
      assert e in later.Keys && later[e].payload == rows[e].payload;
    }
    assert forall e :: e in later ==> e in later.Keys && e in rows;
  }

  lemma OthersLeaveLedger(s: System, l: Label)
    requires !l.Commit?
    ensures LedgerOf(Step(s, l)) == LedgerOf(s) && Step(s, l).log == s.log
  {
    if Enabled(s, l) {
      match l
      case Call(p) => OrdersStay(s.shop, p);
      case Work(o) =>
        PayloadsStay(s.box, o);
        EventsSame(s.box.rows, O.Step(s.box, o).rows);
    }
  }

  /** Every entry of the log took effect when it was replayed. */
  ghost predicate AllAccepted(g: Ledger, log: seq<Entry>) {
    log == [] || (AllAccepted(g, log[..|log| - 1]) && Accepts(Replay(g, log[..|log| - 1]), log[|log| - 1]))
  }

  lemma ReplayAppend(g: Ledger, log: seq<Entry>, e: Entry, now: Ledger)
    requires AllAccepted(g, log) && now == Replay(g, log) && Accepts(now, e)
    ensures Replay(g, log + [e]) == AtomicPurchase(now, e)
    ensures AllAccepted(g, log + [e])
  {
    assert (log + [e])[..|log|] == log;
  }

  lemma SerialCommit(g: Ledger, s: System, r: int, eventId: int, at: int)
    requires Inv(s) && LedgerOf(s) == Replay(g, s.log) && AllAccepted(g, s.log)
    requires Enabled(s, Commit(r, eventId, at))
    ensures
      var t := DoCommit(s, r, eventId, at);
      LedgerOf(t) == Replay(g, t.log) && AllAccepted(g, t.log)
  {
    CommitIsAtomicPurchase(s, r, eventId, at);
    ReplayAppend(g, s.log, Entry(s.shop.procs[r].phase.orderId, eventId, s.shop.procs[r].req), LedgerOf(s));
  }

  lemma SerialStep(g: Ledger, s: System, l: Label)
    requires Inv(s) && LedgerOf(s) == Replay(g, s.log) && AllAccepted(g, s.log)
    ensures LedgerOf(Step(s, l)) == Replay(g, Step(s, l).log) && AllAccepted(g, Step(s, l).log)
  {
    if l.Commit? && Enabled(s, l) {
      SerialCommit(g, s, l.r, l.eventId, l.at);
    } else if !l.Commit? {
      OthersLeaveLedger(s, l);
    }
  }

  lemma {:induction false} SerialExec(s: System, ls: seq<Label>)
    requires Inv(s) && s.log == []
    ensures LedgerOf(Exec(s, ls)) == Replay(LedgerOf(s), Exec(s, ls).log)
    ensures AllAccepted(LedgerOf(s), Exec(s, ls).log)
  {
    if ls != [] {
      var n := |ls| - 1;
      SerialExec(s, ls[..n]);
      InvExec(s, ls[..n]);
      SerialStep(LedgerOf(s), Exec(s, ls[..n]), ls[n]);
    }
  }

  /** Commit-order serialisability: whatever the interleaving, the crashes, the workers and
      Redis do, the committed tables are the result of replaying the commits as atomic
      purchases in commit order, each of which takes effect. */
  lemma Serialisable(users: map<int, UserStatus>, stock: map<int, int>, c: O.Config, ls: seq<Label>)
    requires StockOk(stock) && O.ConfigOk(c)
    ensures
      var s := Exec(Init(users, stock, c), ls);
      && LedgerOf(s) == Replay(Ledger(stock, map[], map[]), s.log)
      && AllAccepted(Ledger(stock, map[], map[]), s.log)
  {
    InvInit(users, stock, c);
    SerialExec(Init(users, stock, c), ls);
    assert LedgerOf(Init(users, stock, c)) == Ledger(stock, map[], map[]);
  }
}
