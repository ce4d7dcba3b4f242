/** The stock checker: a grouped sum over the orders, a loop over the listed products, and a
    list of the products whose initial stock is not what is left plus what was sold. */
module VerifyStock {
  import opened Schema
  import opened Totals
  import opened Conservation
  import S = ShopSystem
  import P = Purchase
  import PI = PurchaseInvariant
  import PA = PurchaseAnswers
  import O = Outbox

  const INITIAL_STOCK := 10_000_000
  const PRODUCT_NAMES := [(1, "laptop"), (2, "desktop")]

  datatype Mismatch = Mismatch(name: string, final: int, sold: int, difference: int)

  function StockOf(products: map<int, int>, p: int): int {
    if p in products then products[p] else 0
  }

  /** One total for each listed product that has orders; the others have sold nothing. */
  ghost predicate Grouped(totals: map<int, int>, orders: map<int, Order>, listed: set<int>) {
    && (forall p :: p in totals ==> p in listed && totals[p] == Sold(orders, p))
    && (forall p :: p in listed && p !in totals ==> Sold(orders, p) == 0)
  }

  function AddOrder(totals: map<int, int>, order: Order, listed: set<int>): map<int, int> {
    var p := order.productId;
    if p in listed then totals[p := (if p in totals then totals[p] else 0) + order.count] else totals
  }

  lemma GroupedAdd(totals: map<int, int>, done: map<int, Order>, listed: set<int>, o: int, order: Order)
    requires Grouped(totals, done, listed) && o !in done
    ensures Grouped(AddOrder(totals, order, listed), done[o := order], listed)
  {
    forall p
      ensures Sold(done[o := order], p) == Sold(done, p) + (if order.productId == p then order.count else 0)
    {
      SoldInsert(done, o, order, p);
    }
  }

  lemma NothingSold()
    ensures forall p :: Sold(map[], p) == 0
  {
  }

  /** SELECT product_id, SUM(purchased_count) ... GROUP BY product_id, over the listed products. */
  method GroupedTotals(orders: map<int, Order>, listed: set<int>) returns (totals: map<int, int>)
    ensures Grouped(totals, orders, listed)
  {
    totals := map[];
    ghost var done: map<int, Order> := map[];
    var left := orders.Keys;
    NothingSold();
    while left != {}
      invariant left <= orders.Keys && done == orders - left
      invariant Grouped(totals, done, listed)
      decreases |left|
    {
      ghost var some := Member(left);
      var o :| o in left;
      GroupedAdd(totals, done, listed, o, orders[o]);
      totals := AddOrder(totals, orders[o], listed);
      done := done[o := orders[o]];
      left := left - {o};
    }
    assert orders - {} == orders;
  }

  /** The mismatches of the listed products, in the order of the list. */
  ghost function Mismatches(names: seq<(int, string)>, initial: int, products: map<int, int>, orders: map<int, Order>)
    : (r: seq<Mismatch>)
  {
    if names == [] then []
    else
      var (p, name) := names[|names| - 1];
      var final, sold := StockOf(products, p), Sold(orders, p);
      Mismatches(names[..|names| - 1], initial, products, orders) +
      if initial == final + sold then [] else [Mismatch(name, final, sold, initial - final - sold)]
  }

  lemma MismatchesNext(names: seq<(int, string)>, i: nat, initial: int,
                       products: map<int, int>, orders: map<int, Order>)
    requires i < |names|
    ensures
      var (p, name) := names[i];
      var final, sold := StockOf(products, p), Sold(orders, p);
      Mismatches(names[..i + 1], initial, products, orders) ==
      Mismatches(names[..i], initial, products, orders) +
      if initial == final + sold then [] else [Mismatch(name, final, sold, initial - final - sold)]
  {
    assert names[..i + 1][..i] == names[..i];
  }

  /** The script's loop. */
  method Verify(names: seq<(int, string)>, initial: int, products: map<int, int>, orders: map<int, Order>)
    returns (errors: seq<Mismatch>)
    ensures errors == Mismatches(names, initial, products, orders)
  {
    var listed := set i | 0 <= i < |names| :: names[i].0;
    var purchased := GroupedTotals(orders, listed);
    errors := [];
    var i := 0;
    while i < |names|
      invariant i <= |names|
      invariant errors == Mismatches(names[..i], initial, products, orders)
    {
      var (p, name) := names[i];
      assert p in listed;
      var final := if p in products then products[p] else 0;
      var sold := if p in purchased then purchased[p] else 0;
      if initial != final + sold {
        errors := errors + [Mismatch(name, final, sold, initial - final - sold)];
      }
      MismatchesNext(names, i, initial, products, orders);
      i := i + 1;
    }
    assert names[..|names|] == names;
  }

  /** An error is listed for exactly the listed products that do not balance, with the size of
      the gap, and for nothing else. */
  lemma {:induction false} MismatchesAreExact(names: seq<(int, string)>, initial: int,
                                              products: map<int, int>, orders: map<int, Order>)
    ensures forall m :: m in Mismatches(names, initial, products, orders) <==>
      exists i :: 0 <= i < |names| && m.name == names[i].1
        && m.final == StockOf(products, names[i].0) && m.sold == Sold(orders, names[i].0)
        && m.difference == initial - m.final - m.sold && m.difference != 0
  {
    if names != [] {
      var n := |names| - 1;
      MismatchesAreExact(names[..n], initial, products, orders);
      assert forall i :: 0 <= i < n ==> names[..n][i] == names[i];
    }
  }

  lemma {:induction false} NoMismatch(names: seq<(int, string)>, initial: int,
                                      products: map<int, int>, orders: map<int, Order>)
    ensures Mismatches(names, initial, products, orders) == [] <==>
      forall i :: 0 <= i < |names| ==> initial == StockOf(products, names[i].0) + Sold(orders, names[i].0)
  {
    if names != [] {
      var n := |names| - 1;
      NoMismatch(names[..n], initial, products, orders);
      assert forall i :: 0 <= i < n ==> names[..n][i] == names[i];
    }
  }

  function Gap(name: string, initial: int, final: int, sold: int): seq<Mismatch> {
    if initial == final + sold then [] else [Mismatch(name, final, sold, initial - final - sold)]
  }

  /** The script's own list. */
  lemma ScriptProducts(products: map<int, int>, orders: map<int, Order>)
    ensures Mismatches(PRODUCT_NAMES, INITIAL_STOCK, products, orders) ==
      Gap("laptop", 10_000_000, StockOf(products, 1), Sold(orders, 1)) +
      Gap("desktop", 10_000_000, StockOf(products, 2), Sold(orders, 2))
  {
    MismatchesNext(PRODUCT_NAMES, 0, INITIAL_STOCK, products, orders);
    MismatchesNext(PRODUCT_NAMES, 1, INITIAL_STOCK, products, orders);
    assert PRODUCT_NAMES[..0] == [] && PRODUCT_NAMES[..2] == PRODUCT_NAMES;
  }

  /** The seeded ten million units of a product are in stock, if it has a row, or sold. */
  ghost predicate Balances(products: map<int, int>, orders: map<int, Order>, p: int) {
    if p in products then products[p] + Sold(orders, p) == 10_000_000 else Sold(orders, p) == 10_000_000
  }

  /** The script for the load test: it fails unless both products balance. */
  method VerifyScenario(products: map<int, int>, orders: map<int, Order>) returns (errors: seq<Mismatch>)
    ensures errors == [] <==> Balances(products, orders, 1) && Balances(products, orders, 2)
    ensures (exists m :: m in errors && m.name == "laptop") <==> !Balances(products, orders, 1)
    ensures (exists m :: m in errors && m.name == "desktop") <==> !Balances(products, orders, 2)
    ensures |errors| <= 2 && (|errors| == 2 ==> errors[0].name == "laptop" && errors[1].name == "desktop")
  {
    errors := Verify(PRODUCT_NAMES, INITIAL_STOCK, products, orders);
    ScriptProducts(products, orders);
  }

  /** The script's two queries see two states of the run, the second one later. For each seeded
      product the check passes exactly when no purchase of it committed in between. */
  lemma CheckIsExact(initial: map<int, int>, s: S.System, more: seq<S.Label>, p: int)
    requires Law(initial, s) && p in initial
    ensures
      var t := S.Exec(s, more);
      && |s.log| <= |t.log|
      && (initial[p] == StockOf(s.shop.products, p) + Sold(t.shop.orders, p) <==>
          forall i :: |s.log| <= i < |t.log| ==> t.log[i].req.productId != p)
  {
    var t := S.Exec(s, more);
    SoldSince(s, more, p);
    var between := t.log[|s.log|..];
    LoggedZero(between, p);
    assert forall i :: |s.log| <= i < |t.log| ==> t.log[i] == between[i - |s.log|];
    assert forall i :: 0 <= i < |between| ==> between[i] == t.log[i + |s.log|];
  }

  /** Steps of calls in the combined system. */
  function Calls(ls: seq<P.Label>): seq<S.Label> {
    seq(|ls|, i requires 0 <= i < |ls| => S.Call(ls[i]))
  }

  lemma {:induction false} CallsRun(s: S.System, ls: seq<P.Label>)
    requires forall l :: l in ls ==> !l.Commit?
    ensures S.Exec(s, Calls(ls)) == s.(shop := P.Exec(s.shop, ls))
  {
    if ls != [] {
      var n := |ls| - 1;
      assert Calls(ls)[..n] == Calls(ls[..n]);
      CallsRun(s, ls[..n]);
    }
  }

  /** A new call with an unused key, for a product in stock that nobody else is buying, can run
      to its commit while nothing else happens. */
  lemma SaleIsPossible(s: S.System, r: int, q: Request) returns (more: seq<S.Label>)
    requires S.Inv(s) && r !in s.shop.procs && 0 < q.count
    requires q.userId in s.shop.users && s.shop.users[q.userId] == Active && q.key !in s.shop.keyIndex
    requires P.Qualifies(s.shop, q) && P.ProductFree(s.shop, q.productId) && P.KeyFree(s.shop, q.key)
    ensures |S.Exec(s, more).log| == |s.log| + 1 && S.Exec(s, more).log[|s.log|].req == q
  {
    var orderId := s.shop.orderSeq;
    PI.NextIsFresh(s.shop);
    var toUpdate := PA.ReachesUpdate(s.shop, r, q);
    var toCommit := PA.ReachesKeyLock(s.shop, r, q, orderId);
    P.ExecConcat(s.shop, toUpdate, toCommit);
    CallsRun(s, toUpdate + toCommit);
    more := Calls(toUpdate + toCommit) + [S.Commit(r, s.box.eventSeq, s.box.clock)];
    S.ExecAppend(s, Calls(toUpdate + toCommit), S.Commit(r, s.box.eventSeq, s.box.clock));
  }

  const ONE_LAPTOP := Request(1, 1, 1, Key("order-1"))

  /** A false alarm: on the seeded database one purchase commits between the two queries, every
      unit is accounted for, and the script reports an error. */
  lemma FalseAlarm(c: O.Config) returns (more: seq<S.Label>)
    requires O.ConfigOk(c)
    ensures
      var seeded := map[1 := INITIAL_STOCK, 2 := INITIAL_STOCK];
      var s := S.Init(map[1 := Active], seeded, c);
      var t := S.Exec(s, more);
      && Law(seeded, s) && Law(seeded, t)
      && Mismatches(PRODUCT_NAMES, INITIAL_STOCK, s.shop.products, t.shop.orders) != []
  {
    var seeded := map[1 := INITIAL_STOCK, 2 := INITIAL_STOCK];
    var s := S.Init(map[1 := Active], seeded, c);
    LawInit(map[1 := Active], seeded, c);
    more := SaleIsPossible(s, 1, ONE_LAPTOP);
    LawExec(seeded, s, more);
    CheckIsExact(seeded, s, more, 1);
    NoMismatch(PRODUCT_NAMES, INITIAL_STOCK, s.shop.products, S.Exec(s, more).shop.orders);
    assert PRODUCT_NAMES[0].0 == 1;
  }

  /** On every reachable state of the combined system seeded with the initial stock, a quiet
      checker reports nothing. */
  lemma CheckerAccepts(users: map<int, UserStatus>, seeded: map<int, int>, c: O.Config, ls: seq<S.Label>,
                       names: seq<(int, string)>, initial: int)
    requires 0 <= initial && S.StockOk(seeded) && O.ConfigOk(c)
    requires forall i :: 0 <= i < |names| ==> names[i].0 in seeded && seeded[names[i].0] == initial
    ensures
      var s := S.Exec(S.Init(users, seeded, c), ls);
      Mismatches(names, initial, s.shop.products, s.shop.orders) == []
  {
    var s := S.Exec(S.Init(users, seeded, c), ls);
    LawInit(users, seeded, c);
    LawExec(seeded, S.Init(users, seeded, c), ls);
    NoMismatch(names, initial, s.shop.products, s.shop.orders);
  }
}
