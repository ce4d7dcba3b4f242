/** Purchases and outbox workers on one database: a purchase commits its order and its
    outbox event together, everything else moves one side only. */
module ShopSystem {
  import opened Schema
  import P = Purchase
  import PI = PurchaseInvariant
  import O = Outbox
  import OI = OutboxInvariant

  /** One commit, in commit order (history only). */
  datatype Entry = Entry(orderId: int, eventId: int, req: Request)

  datatype System = System(shop: P.Shop, box: O.Box, log: seq<Entry>)

  datatype Label =
    | Call(p: P.Label)
    | Commit(r: int, eventId: int, at: int)   // `at` is the start of the transaction
    | Work(o: O.Label)

  function Init(users: map<int, UserStatus>, stock: map<int, int>, c: O.Config): System {
    System(P.Init(users, stock), O.Init(c), [])
  }

  predicate StockOk(stock: map<int, int>) {
    forall p :: p in stock ==> 0 <= stock[p]
  }

  predicate Enabled(s: System, l: Label) {
    match l
    case Call(p) => !p.Commit? && P.Enabled(s.shop, p)
    case Commit(r, eventId, at) =>
      P.Enabled(s.shop, P.Commit(r)) && eventId !in s.box.rows && at <= s.box.clock
    case Work(o) => !o.Insert? && O.Enabled(s.box, o)
  }

  function DoCommit(s: System, r: int, eventId: int, at: int): System
    requires Enabled(s, Commit(r, eventId, at))
  {
    var q, orderId := s.shop.procs[r].req, s.shop.procs[r].phase.orderId;
    System(
      P.DoCommit(s.shop, r),
      O.DoInsert(s.box, eventId, PayloadOf(orderId, OrderOf(q)), at),
      s.log + [Entry(orderId, eventId, q)])
  }

  function Effect(s: System, l: Label): System
    requires Enabled(s, l)
  {
    match l
    case Call(p) => s.(shop := P.Effect(s.shop, p))
    case Commit(r, eventId, at) => DoCommit(s, r, eventId, at)
    case Work(o) => s.(box := O.Effect(s.box, o))
  }

  /** The steps of call `r`. */
  predicate MovesCall(l: Label, r: int) {
    match l
    case Call(p) => P.Moves(p, r)
    case Commit(x, _, _) => x == r
    case Work(_) => false
  }

  function Step(s: System, l: Label): System {
    if Enabled(s, l) then Effect(s, l) else s
  }

  function Exec(s: System, ls: seq<Label>): System {
    if ls == [] then s else Step(Exec(s, ls[..|ls| - 1]), ls[|ls| - 1])
  }

  lemma ExecAppend(s: System, ls: seq<Label>, l: Label)
    ensures Exec(s, ls + [l]) == Step(Exec(s, ls), l)
  {
  }

  lemma {:induction false} ExecConcat(s: System, ls: seq<Label>, more: seq<Label>)
    ensures Exec(s, ls + more) == Exec(Exec(s, ls), more)
  {
    if more == [] {
      assert ls + more == ls;
    } else {
      var n := |more| - 1;
      ExecConcat(s, ls, more[..n]);
      assert (ls + more)[..|ls| + n] == ls + more[..n];
    }
  }

  predicate EventOk(orders: map<int, Order>, row: Row) {
    row.payload.orderId in orders && row.payload == PayloadOf(row.payload.orderId, orders[row.payload.orderId])
  }

  predicate HasEvent(rows: map<int, Row>, orderId: int) {
    exists e :: e in rows && rows[e].payload.orderId == orderId
  }

  /** Every committed order has exactly one outbox event, with equal fields, and every event
      belongs to a committed order. */
  predicate Linked(orders: map<int, Order>, rows: map<int, Row>) {
    && (forall e :: e in rows ==> EventOk(orders, rows[e]))
    && (forall d, e :: d in rows && e in rows && d != e ==> rows[d].payload.orderId != rows[e].payload.orderId)
    && (forall o :: o in orders ==> HasEvent(rows, o))
  }

  predicate Inv(s: System) {
    PI.Inv(s.shop) && OI.Inv(s.box) && Linked(s.shop.orders, s.box.rows)
  }

  lemma InvInit(users: map<int, UserStatus>, stock: map<int, int>, c: O.Config)
    requires StockOk(stock) && O.ConfigOk(c)
    ensures Inv(Init(users, stock, c))
  {
  }

  /** No worker adds, removes or rewrites an event's payload. */
  lemma PayloadsStay(b: O.Box, l: O.Label)
    requires !l.Insert?
    ensures O.Step(b, l).rows.Keys == b.rows.Keys
    ensures forall e :: e in b.rows ==> O.Step(b, l).rows[e].payload == b.rows[e].payload
  {
  }

  lemma LinkedStays(orders: map<int, Order>, rows: map<int, Row>, later: map<int, Row>)
    requires Linked(orders, rows) && later.Keys == rows.Keys
    requires forall e :: e in rows ==> later[e].payload == rows[e].payload
    ensures Linked(orders, later)
  {
  }

  lemma LinkedInsert(orders: map<int, Order>, rows: map<int, Row>, orderId: int, order: Order, eventId: int, row: Row)
    requires Linked(orders, rows) && orderId !in orders && eventId !in rows
    requires row.payload == PayloadOf(orderId, order)
    ensures Linked(orders[orderId := order], rows[eventId := row])
  {
    var orders', rows' := orders[orderId := order], rows[eventId := row];
    forall e | e in rows
      ensures EventOk(orders', rows[e]) && rows[e].payload.orderId != orderId
    {
      assert EventOk(orders, rows[e]);
    }
    forall o | o in orders'
      ensures HasEvent(rows', o)
    {
      if o == orderId {
        assert rows'[eventId].payload.orderId == o;
      } else {
        assert HasEvent(rows, o);
        var e :| e in rows && rows[e].payload.orderId == o;
        assert rows'[e].payload.orderId == o;
      }
    }
  }

  lemma LinkedCommit(s: System, r: int, eventId: int, at: int)
    requires Inv(s) && Enabled(s, Commit(r, eventId, at))
    ensures Linked(DoCommit(s, r, eventId, at).shop.orders, DoCommit(s, r, eventId, at).box.rows)
  {
    var q, orderId := s.shop.procs[r].req, s.shop.procs[r].phase.orderId;
    assert PI.ProcOk(s.shop, s.shop.procs[r]);
    LinkedInsert(s.shop.orders, s.box.rows, orderId, OrderOf(q), eventId, O.NewRow(PayloadOf(orderId, OrderOf(q)), at));
  }

  lemma OrdersStay(s: P.Shop, l: P.Label)
    requires !l.Commit?
    ensures P.Step(s, l).orders == s.orders && P.Step(s, l).products == s.products
  {
  }

  lemma InvStep(s: System, l: Label)
    requires Inv(s)
    ensures Inv(Step(s, l))
  {
    if Enabled(s, l) {
      match l
      case Call(p) =>
        PI.InvStep(s.shop, p);
        OrdersStay(s.shop, p);
      case Commit(r, eventId, at) =>
        PI.CommitKeeps(s.shop, r);
        OI.InsertKeeps(s.box, eventId, DoCommit(s, r, eventId, at).box.rows[eventId].payload, at);
        LinkedCommit(s, r, eventId, at);
      case Work(o) =>
        OI.InvStep(s.box, o);
        PayloadsStay(s.box, o);
        LinkedStays(s.shop.orders, s.box.rows, O.Effect(s.box, o).rows);
    }
  }

  lemma {:induction false} InvExec(s: System, ls: seq<Label>)
    requires Inv(s)
    ensures Inv(Exec(s, ls))
  {
    if ls != [] {
      InvExec(s, ls[..|ls| - 1]);
      InvStep(Exec(s, ls[..|ls| - 1]), ls[|ls| - 1]);
    }
  }
}
