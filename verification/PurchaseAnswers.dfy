/** What the answers of purchase calls promise, over every interleaving, crash and
    Redis failure. */
module PurchaseAnswers {
  import opened Schema
  import opened Purchase
  import opened PurchaseInvariant

  /** Committed data only grows: orders are never changed or removed, stock never rises. */
  predicate Grows(s: Shop, t: Shop) {
    && (forall o :: o in s.orders ==> o in t.orders && t.orders[o] == s.orders[o])
    && (forall k :: k in s.keyIndex ==> k in t.keyIndex && t.keyIndex[k] == s.keyIndex[k])
    && s.products.Keys == t.products.Keys
    && (forall p :: p in s.products ==> t.products[p] <= s.products[p])
  }

  lemma StepGrows(s: Shop, l: Label)
    requires Inv(s)
    ensures Grows(s, Step(s, l))
  {
    if l.Commit? && Enabled(s, l) {
      assert ProcOk(s, s.procs[l.r]);
    }
  }

  lemma {:induction false} ExecGrows(s: Shop, ls: seq<Label>)
    requires Inv(s)
    ensures Grows(s, Exec(s, ls))
  {
    if ls != [] {
      ExecGrows(s, ls[..|ls| - 1]);
      InvExec(s, ls[..|ls| - 1]);
      StepGrows(Exec(s, ls[..|ls| - 1]), ls[|ls| - 1]);
    }
  }

  /** `o` is the one order committed under key `k`. */
  ghost predicate OnlyOrder(s: Shop, k: Key, o: int) {
    && o in s.orders
    && forall x :: x in s.orders && s.orders[x].key == k <==> x == o
  }

  /** Whatever way a call came to answer success (Redis hit, order found, lost race, own
      commit), exactly one order carries its key when it answers, and the same order is
      the only one with that key after every continuation. */
  lemma SuccessIsDurable(users: map<int, UserStatus>, stock: map<int, int>, ls: seq<Label>, more: seq<Label>, r: int)
    requires forall p :: p in stock ==> 0 <= stock[p]
    requires r in Exec(Init(users, stock), ls).procs
    requires Exec(Init(users, stock), ls).procs[r].phase.Done?
    requires Exec(Init(users, stock), ls).procs[r].phase.outcome.Success?
    ensures
      var s, t := Exec(Init(users, stock), ls), Exec(Init(users, stock), ls + more);
      var k := s.procs[r].req.key;
      && k in s.keyIndex
      && OnlyOrder(s, k, s.keyIndex[k])
      && OnlyOrder(t, k, s.keyIndex[k])
      && t.orders[s.keyIndex[k]] == s.orders[s.keyIndex[k]]
  {
    var s0 := Init(users, stock);
    var s := Exec(s0, ls);
    InvInit(users, stock);
    InvExec(s0, ls);
    InvExec(s0, ls + more);
    ExecConcat(s0, ls, more);
    ExecGrows(s, more);
    assert ProcOk(s, s.procs[r]);
  }

  /** A 409 names a stock that was too small and non-negative, and stays too small for ever;
      a 404 names a product that never exists. */
  lemma FailuresAreTrue(users: map<int, UserStatus>, stock: map<int, int>, ls: seq<Label>, more: seq<Label>, r: int)
    requires forall p :: p in stock ==> 0 <= stock[p]
    requires r in Exec(Init(users, stock), ls).procs
    requires Exec(Init(users, stock), ls).procs[r].phase.Done?
    ensures
      var q := Exec(Init(users, stock), ls).procs[r].req;
      var t := Exec(Init(users, stock), ls + more);
      match Exec(Init(users, stock), ls).procs[r].phase.outcome
      case Conflict(available, requested) =>
        && requested == q.count
        && q.productId in t.products
        && 0 <= t.products[q.productId] <= available < requested
      case NotFound => q.productId !in t.products
      case _ => true
  {
    var s0 := Init(users, stock);
    var s := Exec(s0, ls);
    InvInit(users, stock);
    InvExec(s0, ls);
    InvExec(s0, ls + more);
    ExecConcat(s0, ls, more);
    ExecGrows(s, more);
    assert ProcOk(s, s.procs[r]);
  }

  predicate IsActive(s: Shop, user: int) {
    user in s.users && s.users[user] == Active
  }

  /** Between the user check and the end of the transaction. */
  predicate Admitted(ph: Phase) {
    ph.LookingUp? || ph.Updating? || HoldsProduct(ph)
  }

  /** Everything that happened in the name of a user happened for an active one. */
  predicate Authorised(s: Shop) {
    && (forall r :: r in s.procs && Admitted(s.procs[r].phase) ==> IsActive(s, s.procs[r].req.userId))
    && (forall o :: o in s.orders ==> IsActive(s, s.orders[o].userId))
  }

  lemma SameUsers(s: Shop, l: Label)
    requires !l.SetUser?
    ensures Step(s, l).users == s.users
  {
  }

  lemma AuthorisedStep(s: Shop, l: Label)
    requires Authorised(s) && !l.SetUser?
    ensures Authorised(Step(s, l))
  {
    var t := Step(s, l);
    SameUsers(s, l);
    forall r | r in t.procs && Admitted(t.procs[r].phase)
      ensures IsActive(t, t.procs[r].req.userId)
    {
      if Enabled(s, l) && !Moves(l, r) {
        OthersLeave(s, l, r);
      }
    }
  }

  /** While user statuses do not change, only active users get orders. */
  lemma {:induction false} OnlyActiveUsersBuy(users: map<int, UserStatus>, stock: map<int, int>, ls: seq<Label>)
    requires forall i :: 0 <= i < |ls| ==> !ls[i].SetUser?
    ensures Authorised(Exec(Init(users, stock), ls))
  {
    if ls != [] {
      OnlyActiveUsersBuy(users, stock, ls[..|ls| - 1]);
      AuthorisedStep(Exec(Init(users, stock), ls[..|ls| - 1]), ls[|ls| - 1]);
    }
  }

  /** Where a call can be whose key had a committed order before it looked for one. */
  predicate Repeating(s: Shop, r: int, k: Key) {
    && r in s.procs && s.procs[r].req.key == k && k in s.keyIndex
    && match s.procs[r].phase
       case Probing => true
       case Authorising => true
       case LookingUp => true
       case Caching(orderId, via) => orderId == s.keyIndex[k] && via == DbHit
       case Done(outcome) => outcome == Success(RedisHit) || outcome == Success(DbHit) || outcome == Forbidden
       case RolledBack => true
       case Lost => true
       case _ => false
  }

  /** The steps a repeating call can take itself. */
  lemma RepeatOwn(s: Shop, l: Label, r: int, k: Key)
    requires Inv(s) && Repeating(s, r, k) && Enabled(s, l) && Moves(l, r)
    ensures Repeating(Effect(s, l), r, k)
    ensures Effect(s, l).procs[r].req == s.procs[r].req && Effect(s, l).users == s.users
    ensures Effect(s, l).procs[r].phase == Done(Forbidden) ==> !IsActive(s, s.procs[r].req.userId)
  {
    assert l.ProbeHit? || l.ProbeSkip? || l.Authorise? || l.LookUp? || l.CacheSet? || l.CacheSkip? || l.Crash?;
  }

  lemma RepeatStep(s: Shop, l: Label, r: int, k: Key)
    requires Inv(s) && Repeating(s, r, k)
    ensures Repeating(Step(s, l), r, k) && Step(s, l).procs[r].req == s.procs[r].req
    ensures Step(s, l).procs[r].phase == Done(Forbidden) ==>
      s.procs[r].phase == Done(Forbidden) || !IsActive(s, s.procs[r].req.userId)
  {
    if Enabled(s, l) {
      if Moves(l, r) {
        RepeatOwn(s, l, r, k);
      } else {
        OthersLeave(s, l, r);
        StepGrows(s, l);
      }
    }
  }

  /** Idempotency as the documentation means it: a call that has not yet looked for its key when
      an order with that key is committed never buys again and never answers 404 or 409; with
      Redis or without, after any crashes, whatever the stock. */
  lemma {:induction false} RepeatNeverBuys(s: Shop, more: seq<Label>, r: int)
    requires Inv(s) && r in s.procs && s.procs[r].req.key in s.keyIndex
    requires s.procs[r].phase.Probing? || s.procs[r].phase.Authorising? || s.procs[r].phase.LookingUp?
    ensures Repeating(Exec(s, more), r, s.procs[r].req.key)
  {
    if more != [] {
      RepeatNeverBuys(s, more[..|more| - 1], r);
      InvExec(s, more[..|more| - 1]);
      RepeatStep(Exec(s, more[..|more| - 1]), more[|more| - 1], r, s.procs[r].req.key);
    }
  }

  /** While user statuses do not change, its answer is success, unless its user is not active. */
  lemma {:induction false} RepeatSucceeds(s: Shop, more: seq<Label>, r: int)
    requires Inv(s) && r in s.procs && s.procs[r].req.key in s.keyIndex
    requires s.procs[r].phase.Probing? || s.procs[r].phase.Authorising? || s.procs[r].phase.LookingUp?
    requires forall i :: 0 <= i < |more| ==> !more[i].SetUser?
    ensures r in Exec(s, more).procs && Exec(s, more).procs[r].req == s.procs[r].req && Exec(s, more).users == s.users
    ensures Exec(s, more).procs[r].phase.Done? && IsActive(s, s.procs[r].req.userId) ==>
      Exec(s, more).procs[r].phase.outcome.Success?
    ensures Exec(s, more).procs[r].phase == Done(Forbidden) ==> !IsActive(s, s.procs[r].req.userId)
  {
    RepeatNeverBuys(s, more, r);
    if more != [] {
      var n := |more| - 1;
      var t := Exec(s, more[..n]);
      RepeatSucceeds(s, more[..n], r);
      RepeatNeverBuys(s, more[..n], r);
      InvExec(s, more[..n]);
      RepeatStep(t, more[n], r, s.procs[r].req.key);
      SameUsers(t, more[n]);
    }
  }

  /** Where a call for `q` can be before its user check, if it needs none, or gives up. */
  predicate Unchecked(s: Shop, r: int, q: Request) {
    && r in s.procs && s.procs[r].req == q && q.key in s.keyIndex
    && match s.procs[r].phase
       case Probing => true
       case Authorising => true
       case Done(Success(via)) => via == RedisHit
       case RolledBack => true
       case _ => false
  }

  /** Where it can be after its user check, which found the user active or not. */
  predicate Checked(s: Shop, r: int, q: Request, active: bool) {
    && r in s.procs && s.procs[r].req == q && q.key in s.keyIndex
    && match s.procs[r].phase
       case LookingUp => active
       case Caching(_, via) => active && via == DbHit
       case Done(Success(via)) => active && via == DbHit
       case Lost => active
       case Done(Forbidden) => !active
       case RolledBack => true
       case _ => false
  }

  lemma CheckedStep(s: Shop, l: Label, r: int, q: Request, active: bool)
    requires Inv(s) && Checked(s, r, q, active)
    ensures Checked(Step(s, l), r, q, active)
  {
    StepGrows(s, l);
    if Enabled(s, l) && !Moves(l, r) {
      OthersLeave(s, l, r);
    }
  }

  lemma UncheckedStep(s: Shop, l: Label, r: int, q: Request)
    requires Inv(s) && Unchecked(s, r, q)
    ensures
      if l == Authorise(r) && Enabled(s, l) then Checked(Step(s, l), r, q, IsActive(s, q.userId))
      else Unchecked(Step(s, l), r, q)
  {
    StepGrows(s, l);
    if Enabled(s, l) && !Moves(l, r) {
      OthersLeave(s, l, r);
    }
  }

  /** The moment that decides about a repeated key is the user check: `i` is that moment in any
      continuation, or its end if there is none in it. */
  lemma {:induction false} CheckDecides(s: Shop, more: seq<Label>, r: int, q: Request) returns (i: nat)
    requires Inv(s) && Unchecked(s, r, q)
    ensures i <= |more|
    ensures i < |more| ==>
      && more[i] == Authorise(r) && At(Exec(s, more[..i]), r, Authorising)
      && Checked(Exec(s, more), r, q, IsActive(Exec(s, more[..i]), q.userId))
    ensures i == |more| ==> Unchecked(Exec(s, more), r, q)
  {
    if more == [] {
      i := 0;
    } else {
      var n := |more| - 1;
      var t := Exec(s, more[..n]);
      i := CheckDecides(s, more[..n], r, q);
      InvExec(s, more[..n]);
      if i < n {
        assert more[..n][..i] == more[..i];
        CheckedStep(t, more[n], r, q, IsActive(Exec(s, more[..i]), q.userId));
      } else {
        UncheckedStep(t, more[n], r, q);
        if !(more[n] == Authorise(r) && Enabled(t, more[n])) {
          i := n + 1;
        }
      }
    }
  }

  /** Exactly when a repeated key is answered as documented: a call whose key has a committed order
      before its user check never buys and, unless Redis answers it, is answered with success iff
      its user is active when that check runs, and with 403 iff not, although the order exists;
      whatever statuses, stock and the other calls do before and after. */
  lemma RepeatIsAnswered(s: Shop, more: seq<Label>, r: int) returns (i: nat)
    requires Inv(s) && r in s.procs && s.procs[r].req.key in s.keyIndex
    requires s.procs[r].phase.Probing? || s.procs[r].phase.Authorising?
    ensures r in Exec(s, more).procs
    ensures
      var ph := Exec(s, more).procs[r].phase;
      ph.Done? && ph.outcome != Success(RedisHit) ==>
        && i < |more| && more[i] == Authorise(r) && At(Exec(s, more[..i]), r, Authorising)
        && (ph.outcome.Success? <==> IsActive(Exec(s, more[..i]), s.procs[r].req.userId))
        && (ph.outcome == Forbidden <==> !IsActive(Exec(s, more[..i]), s.procs[r].req.userId))
  {
    i := CheckDecides(s, more, r, s.procs[r].req);
  }

  /** Where a call for `q` can be after its UPDATE, which matched the product or did not. */
  predicate Decided(s: Shop, r: int, q: Request, matched: bool) {
    && r in s.procs && s.procs[r].req == q
    && match s.procs[r].phase
       case Inserting => matched
       case Committing(_) => matched
       case Caching(_, via) => matched && via == OwnCommit
       case Done(Success(via)) => matched && (via == OwnCommit || via == Race)
       case Lost => matched
       case Rereading => !matched
       case Done(Conflict(_, _)) => !matched
       case Done(NotFound) => !matched
       case RolledBack => true
       case _ => false
  }

  lemma DecidedStep(s: Shop, l: Label, r: int, q: Request, matched: bool)
    requires Decided(s, r, q, matched)
    ensures Decided(Step(s, l), r, q, matched)
  {
    if Enabled(s, l) && !Moves(l, r) {
      OthersLeave(s, l, r);
    }
  }

  /** A call before its UPDATE stays there, gives up, or runs it. */
  lemma UpdatingStep(s: Shop, l: Label, r: int, q: Request)
    requires r in s.procs && s.procs[r].req == q && (s.procs[r].phase.Updating? || s.procs[r].phase.RolledBack?)
    ensures
      if l == Update(r) && Enabled(s, l) then Decided(Step(s, l), r, q, Qualifies(s, q))
      else r in Step(s, l).procs && Step(s, l).procs[r].req == q
           && (Step(s, l).procs[r].phase.Updating? || Step(s, l).procs[r].phase.RolledBack?)
  {
    if Enabled(s, l) && !Moves(l, r) {
      OthersLeave(s, l, r);
    }
  }

  /** The one moment that decides about a call past its lookup is when its UPDATE runs. Here
      `i` is that moment in any continuation, or its end if the UPDATE never runs in it. */
  lemma {:induction false} UpdateDecides(s: Shop, more: seq<Label>, r: int) returns (i: nat)
    requires At(s, r, Updating)
    ensures i <= |more|
    ensures i < |more| ==>
      && more[i] == Update(r) && At(Exec(s, more[..i]), r, Updating) && Enabled(Exec(s, more[..i]), Update(r))
      && Decided(Exec(s, more), r, s.procs[r].req, Qualifies(Exec(s, more[..i]), s.procs[r].req))
    ensures i == |more| ==>
      var t := Exec(s, more);
      r in t.procs && t.procs[r].req == s.procs[r].req && (t.procs[r].phase.Updating? || t.procs[r].phase.RolledBack?)
  {
    if more == [] {
      i := 0;
    } else {
      var n, q := |more| - 1, s.procs[r].req;
      var t := Exec(s, more[..n]);
      i := UpdateDecides(s, more[..n], r);
      if i < n {
        assert more[..n][..i] == more[..i];
        DecidedStep(t, more[n], r, q, Qualifies(Exec(s, more[..i]), q));
      } else {
        assert more[..n] == more[..i];
        UpdatingStep(t, more[n], r, q);
        if !(more[n] == Update(r) && Enabled(t, more[n])) {
          i := n + 1;
        }
      }
    }
  }

  /** A call past its lookup whose key is committed by then never buys: what it can still be. */
  predicate Duplicate(s: Shop, r: int, k: Key) {
    && r in s.procs && s.procs[r].req.key == k && k in s.keyIndex
    && match s.procs[r].phase
       case Updating => true
       case Inserting => true
       case Rereading => true
       case Done(Success(via)) => via == Race
       case Done(Conflict(_, _)) => true
       case Done(NotFound) => true
       case RolledBack => true
       case _ => false
  }

  lemma DuplicateStep(s: Shop, l: Label, r: int, k: Key)
    requires Inv(s) && Duplicate(s, r, k)
    ensures Duplicate(Step(s, l), r, k)
  {
    StepGrows(s, l);
    if Enabled(s, l) && !Moves(l, r) {
      OthersLeave(s, l, r);
    }
  }

  lemma {:induction false} DuplicateStays(s: Shop, more: seq<Label>, r: int)
    requires Inv(s) && r in s.procs && Duplicate(s, r, s.procs[r].req.key)
    ensures Duplicate(Exec(s, more), r, s.procs[r].req.key)
  {
    if more != [] {
      DuplicateStays(s, more[..|more| - 1], r);
      InvExec(s, more[..|more| - 1]);
      DuplicateStep(Exec(s, more[..|more| - 1]), more[|more| - 1], r, s.procs[r].req.key);
    }
  }

  lemma SameProducts(s: Shop, ls: seq<Label>)
    requires Inv(s)
    ensures Exec(s, ls).products.Keys == s.products.Keys
  {
    ExecGrows(s, ls);
  }

  /** The documented promise that a repeated key always answers success is not what the code
      gives. A duplicate that passed the order lookup before the winner committed never buys,
      and whatever happens around it, its answer is decided by the stock that is committed when
      its UPDATE runs: success exactly when that covers its own count, otherwise 409 (404 if
      there is no such product). */
  lemma LateDuplicate(s: Shop, more: seq<Label>, r: int) returns (i: nat)
    requires Inv(s) && At(s, r, Updating)
    requires s.procs[r].req.key in s.keyIndex                // the winner has committed
    ensures Duplicate(Exec(s, more), r, s.procs[r].req.key)
    ensures Exec(s, more).procs[r].phase.Done? ==>
      && i < |more| && more[i] == Update(r)
      && At(Exec(s, more[..i]), r, Updating) && Enabled(Exec(s, more[..i]), Update(r))
      && var u, q, answer := Exec(s, more[..i]), s.procs[r].req, Exec(s, more).procs[r].phase.outcome;
         && (answer == Success(Race) <==> q.productId in u.products && q.count <= u.products[q.productId])
         && (answer.Conflict? <==> q.productId in u.products && u.products[q.productId] < q.count)
         && (answer.NotFound? <==> q.productId !in u.products)
  {
    DuplicateStays(s, more, r);
    i := UpdateDecides(s, more, r);
    InvExec(s, more);
    assert ProcOk(Exec(s, more), Exec(s, more).procs[r]);
    if i < |more| {
      SameProducts(s, more[..i]);
      SameProducts(s, more);
    }
  }

  /** Whether the promise will be broken can be seen before: if the stock is too small for the
      duplicate once the winner has committed, it is never answered with success; stock does not
      come back. */
  lemma ShortStockRefuses(s: Shop, more: seq<Label>, r: int)
    requires Inv(s) && At(s, r, Updating)
    requires s.procs[r].req.productId in s.products && s.products[s.procs[r].req.productId] < s.procs[r].req.count
    ensures r in Exec(s, more).procs
    ensures
      var ph := Exec(s, more).procs[r].phase;
      ph.Updating? || ph.Rereading? || ph.RolledBack? || (ph.Done? && ph.outcome.Conflict?)
  {
    var i := UpdateDecides(s, more, r);
    if i < |more| {
      ExecGrows(s, more[..i]);
      InvExec(s, more);
      SameProducts(s, more);
      assert ProcOk(Exec(s, more), Exec(s, more).procs[r]);
    }
  }

  /** The call `r` for `q` in phase `ph`, everything else as in `s`. */
  function With(s: Shop, r: int, q: Request, ph: Phase): Shop {
    s.(procs := s.procs[r := Proc(q, ph)])
  }

  lemma OneStep(s: Shop, l: Label)
    ensures Exec(s, [l]) == Step(s, l)
  {
    assert [l][..0] == [];
  }

  lemma Authorises(s: Shop, r: int, q: Request)
    requires q.userId in s.users && s.users[q.userId] == Active
    ensures Step(With(s, r, q, Authorising), Authorise(r)) == With(s, r, q, LookingUp)
  {
  }

  lemma FindsNoOrder(s: Shop, r: int, q: Request)
    requires q.key !in s.keyIndex
    ensures Step(With(s, r, q, LookingUp), LookUp(r)) == With(s, r, q, Updating)
  {
  }

  lemma PassesProbe(s: Shop, r: int, q: Request) returns (ls: seq<Label>)
    requires r !in s.procs && 0 < q.count
    ensures Exec(s, ls) == With(s, r, q, Authorising)
    ensures forall l :: l in ls ==> !l.Commit?
  {
    ls := [Arrive(r, q)];
    ExecTake(s, ls, 0);
    assert ls[..0] == [] && ls[..1] == ls;
    ExecAppend(s, ls, ProbeSkip(r));
    ls := ls + [ProbeSkip(r)];
  }

  lemma PassesLookUp(s: Shop, r: int, q: Request) returns (ls: seq<Label>)
    requires q.userId in s.users && s.users[q.userId] == Active
    requires q.key !in s.keyIndex
    ensures Exec(With(s, r, q, Authorising), ls) == With(s, r, q, Updating)
    ensures forall l :: l in ls ==> !l.Commit?
  {
    ls := [Authorise(r)];
    OneStep(With(s, r, q, Authorising), Authorise(r));
    Authorises(s, r, q);
    ExecAppend(With(s, r, q, Authorising), ls, LookUp(r));
    FindsNoOrder(s, r, q);
    ls := ls + [LookUp(r)];
  }

  /** A new call of an active user with an unused key gets as far as its UPDATE. */
  lemma ReachesUpdate(s: Shop, r: int, q: Request) returns (ls: seq<Label>)
    requires r !in s.procs && 0 < q.count
    requires q.userId in s.users && s.users[q.userId] == Active
    requires q.key !in s.keyIndex
    ensures Exec(s, ls) == With(s, r, q, Updating)
    ensures forall l :: l in ls ==> !l.Commit?
  {
    var probe := PassesProbe(s, r, q);
    var look := PassesLookUp(s, r, q);
    ExecConcat(s, probe, look);
    ls := probe + look;
  }

  lemma ReachesRowLock(s: Shop, r: int, q: Request) returns (ls: seq<Label>)
    requires Qualifies(s, q) && ProductFree(s, q.productId) && r !in s.procs
    ensures Exec(With(s, r, q, Updating), ls) == With(s, r, q, Inserting)
    ensures forall l :: l in ls ==> !l.Commit?
  {
    ls := [Update(r)];
    ExecTake(With(s, r, q, Updating), ls, 0);
    assert ls[..0] == [] && ls[..1] == ls;
  }

  lemma ReachesKeyLock(s: Shop, r: int, q: Request, orderId: int) returns (ls: seq<Label>)
    requires Qualifies(s, q) && ProductFree(s, q.productId) && r !in s.procs
    requires KeyFree(s, q.key) && q.key !in s.keyIndex && FreshOrder(s, orderId)
    ensures Exec(With(s, r, q, Updating), ls) ==
      With(s, r, q, Committing(orderId)).(orderSeq := Max(s.orderSeq, orderId + 1))
    ensures forall l :: l in ls ==> !l.Commit?
  {
    ls := ReachesRowLock(s, r, q);
    ExecAppend(With(s, r, q, Updating), ls, Insert(r, orderId));
    ls := ls + [Insert(r, orderId)];
  }

  /** A call at its UPDATE that nobody gets in the way of commits, with exactly its effect. */
  lemma ReachesCommit(s: Shop, r: int, q: Request, orderId: int) returns (ls: seq<Label>)
    requires Qualifies(s, q) && ProductFree(s, q.productId) && r !in s.procs
    requires KeyFree(s, q.key) && q.key !in s.keyIndex && FreshOrder(s, orderId)
    ensures
      Exec(With(s, r, q, Updating), ls) ==
      With(s, r, q, Caching(orderId, OwnCommit)).(
        products := s.products[q.productId := s.products[q.productId] - q.count],
        orders := s.orders[orderId := OrderOf(q)],
        keyIndex := s.keyIndex[q.key := orderId],
        orderSeq := Max(s.orderSeq, orderId + 1))
  {
    ls := ReachesKeyLock(s, r, q, orderId);
    ExecAppend(With(s, r, q, Updating), ls, Commit(r));
    ls := ls + [Commit(r)];
  }

  const LAST_ITEM := Request(1, 42, 1, Key("retry-me"))

  /** Both calls pass the order lookup before call 1 commits the last item. */
  lemma RaceIsWon() returns (ls: seq<Label>)
    ensures
      var s := Exec(Init(map[1 := Active], map[42 := 1]), ls);
      && Inv(s)
      && s.procs == map[1 := Proc(LAST_ITEM, Caching(1, OwnCommit)), 2 := Proc(LAST_ITEM, Updating)]
      && s.products == map[42 := 0]
      && s.orders == map[1 := OrderOf(LAST_ITEM)]
  {
    var q, s0 := LAST_ITEM, Init(map[1 := Active], map[42 := 1]);
    var second := ReachesUpdate(s0, 2, q);
    var s1 := With(s0, 2, q, Updating);
    var first := ReachesUpdate(s1, 1, q);
    var win := ReachesCommit(s1, 1, q, 1);
    ExecConcat(s0, second, first);
    ExecConcat(s0, second + first, win);
    InvInit(s0.users, s0.products);
    ls := second + first + win;
    InvExec(s0, ls);
  }

  /** The concrete run in which a repeated key is answered 409 although its order exists. */
  lemma DuplicateCanConflict() returns (race: seq<Label>)
    ensures
      var s := Exec(Init(map[1 := Active], map[42 := 1]), race);
      && s.orders == map[1 := OrderOf(LAST_ITEM)]
      && 2 in s.procs && s.procs[2] == Proc(LAST_ITEM, Done(Conflict(0, 1)))
  {
    var s0 := Init(map[1 := Active], map[42 := 1]);
    var ls := RaceIsWon();
    var won := Exec(s0, ls);
    ExecAppend(s0, ls, Update(2));
    ExecAppend(s0, ls + [Update(2)], Reread(2));
    race := ls + [Update(2)] + [Reread(2)];
    assert Step(won, Update(2)) == Move(won, 2, Rereading);
  }

  lemma Refuses(s: Shop, r: int, q: Request)
    requires !IsActive(s, q.userId)
    ensures Step(With(s, r, q, Authorising), Authorise(r)) == With(s, r, q, Done(Forbidden))
  {
  }

  /** A call of an inactive user that Redis does not answer is refused, whatever its key. */
  lemma ReachesRefusal(s: Shop, r: int, q: Request) returns (ls: seq<Label>)
    requires r !in s.procs && 0 < q.count && !IsActive(s, q.userId)
    ensures Exec(s, ls) == With(s, r, q, Done(Forbidden))
  {
    ls := PassesProbe(s, r, q);
    ExecAppend(s, ls, Authorise(r));
    Refuses(s, r, q);
    ls := ls + [Authorise(r)];
  }

  /** A call that nobody gets in the way of buys, from its arrival to its commit. */
  lemma BuysAlone(s: Shop, r: int, q: Request, orderId: int) returns (ls: seq<Label>)
    requires r !in s.procs && 0 < q.count && IsActive(s, q.userId) && q.key !in s.keyIndex
    requires Qualifies(s, q) && ProductFree(s, q.productId) && KeyFree(s, q.key) && FreshOrder(s, orderId)
    ensures
      Exec(s, ls) ==
      With(s, r, q, Caching(orderId, OwnCommit)).(
        products := s.products[q.productId := s.products[q.productId] - q.count],
        orders := s.orders[orderId := OrderOf(q)],
        keyIndex := s.keyIndex[q.key := orderId],
        orderSeq := Max(s.orderSeq, orderId + 1))
  {
    var update := ReachesUpdate(s, r, q);
    var commit := ReachesCommit(s, r, q, orderId);
    ExecConcat(s, update, commit);
    ls := update + commit;
  }

  /** The concrete run in which a repeated key is answered 403 although its order exists: the user
      was banned after buying, and Redis did not keep the key. */
  lemma DuplicateCanBeForbidden() returns (ls: seq<Label>)
    ensures
      var s := Exec(Init(map[1 := Active], map[42 := 1]), ls);
      && s.orders == map[1 := OrderOf(LAST_ITEM)] && s.keyIndex == map[LAST_ITEM.key := 1]
      && 2 in s.procs && s.procs[2] == Proc(LAST_ITEM, Done(Forbidden))
  {
    var s0 := Init(map[1 := Active], map[42 := 1]);
    ls := BuysAlone(s0, 1, LAST_ITEM, 1);
    ExecAppend(s0, ls, SetUser(1, Banned));
    ls := ls + [SetUser(1, Banned)];
    var repeat := ReachesRefusal(Exec(s0, ls), 2, LAST_ITEM);
    ExecConcat(s0, ls, repeat);
    ls := ls + repeat;
  }
}
