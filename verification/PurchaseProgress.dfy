/** Purchases never deadlock, and a batch of calls always comes to an end. */
module PurchaseProgress {
  import opened Totals
  import opened Purchase
  import opened PurchaseInvariant

  /** `a` cannot take its next step before the transaction of `b` ends. */
  predicate WaitsFor(s: Shop, a: int, b: int) {
    && a in s.procs && b in s.procs && a != b
    && var x, y := s.procs[a], s.procs[b];
       || (x.phase.Updating? && Qualifies(s, x.req) && HoldsProduct(y.phase) && x.req.productId == y.req.productId)
       || (x.phase.Inserting? && y.phase.Committing? && x.req.key == y.req.key)
  }

  ghost predicate WaitChain(s: Shop, chain: seq<int>) {
    forall i :: 0 <= i < |chain| - 1 ==> WaitsFor(s, chain[i], chain[i + 1])
  }

  function LocksHeld(s: Shop, r: int): nat {
    if r !in s.procs then 0
    else if s.procs[r].phase.Committing? then 2
    else if s.procs[r].phase.Inserting? then 1
    else 0
  }

  /** Along a chain of waits the number of locks held strictly rises. */
  lemma {:induction false} ChainAscends(s: Shop, chain: seq<int>, i: nat, j: nat)
    requires WaitChain(s, chain) && i < j < |chain|
    ensures LocksHeld(s, chain[i]) + (j - i) <= LocksHeld(s, chain[j])
    decreases j
  {
    assert WaitsFor(s, chain[j - 1], chain[j]);
    if i < j - 1 {
      ChainAscends(s, chain, i, j - 1);
    }
  }

  /** The waits-for graph has no cycle: one row lock is always taken before one key lock. */
  lemma {:induction false} NoDeadlock(s: Shop, chain: seq<int>)
    requires WaitChain(s, chain)
    ensures |chain| <= 3
    ensures forall i, j :: 0 <= i < j < |chain| ==> chain[i] != chain[j]
  {
    forall i, j | 0 <= i < j < |chain|
      ensures chain[i] != chain[j]
    {
      ChainAscends(s, chain, i, j);
    }
    if 3 < |chain| {
      ChainAscends(s, chain, 0, 3);
    }
  }

  /** A step of a call's own program, as opposed to a crash or the environment. */
  predicate OwnStep(l: Label, r: int) {
    Moves(l, r) && !l.Arrive? && !l.Crash?
  }

  lemma KeyHolderOrSelf(s: Shop, r: int) returns (x: int, l: Label)
    requires Inv(s) && r in s.procs && HoldsProduct(s.procs[r].phase)
    ensures x in s.procs && OwnStep(l, x) && Enabled(s, l)
  {
    assert ProcOk(s, s.procs[r]);
    if s.procs[r].phase.Committing? {
      x, l := r, Commit(r);
    } else if KeyFree(s, s.procs[r].req.key) {
      x, l := r, Insert(r, s.orderSeq);
      NextIsFresh(s);
    } else {
      x :| x in s.procs && s.procs[x].phase.Committing? && s.procs[x].req.key == s.procs[r].req.key;
      assert ProcOk(s, s.procs[x]);
      l := Commit(x);
    }
  }

  /** While any call is unfinished, some call can take a step of its own. */
  lemma SomeoneCanStep(s: Shop, r: int) returns (x: int, l: Label)
    requires Inv(s) && r in s.procs && !Final(s.procs[r].phase)
    ensures x in s.procs && OwnStep(l, x) && Enabled(s, l)
  {
    x := r;
    match s.procs[r].phase
    case Probing => l := ProbeSkip(r);
    case Authorising => l := Authorise(r);
    case LookingUp => l := LookUp(r);
    case Rereading => l := Reread(r);
    case Caching(_, _) => l := CacheSkip(r);
    case Updating =>
      l := Update(r);
      if !Enabled(s, l) {
        var y :| y in s.procs && HoldsProduct(s.procs[y].phase) && s.procs[y].req.productId == s.procs[r].req.productId;
        x, l := KeyHolderOrSelf(s, y);
      }
    case _ => x, l := KeyHolderOrSelf(s, r);
  }

  /** The most steps a call can still take. */
  function Remaining(ph: Phase): nat {
    match ph
    case Probing => 7
    case Authorising => 6
    case LookingUp => 5
    case Updating => 4
    case Inserting => 3
    case Committing(_) => 2
    case Rereading => 1
    case Caching(_, _) => 1
    case _ => 0
  }

  ghost function Fuel(s: Shop): int {
    Total(map r | r in s.procs :: Remaining(s.procs[r].phase))
  }

  ghost predicate CallStep(s: Shop, l: Label) {
    Enabled(s, l) && !l.Arrive? && exists r :: Moves(l, r)
  }

  lemma FuelMove(s: Shop, t: Shop, r: int)
    requires r in s.procs && r in t.procs && t.procs == s.procs[r := t.procs[r]]
    ensures Fuel(t) == Fuel(s) - Remaining(s.procs[r].phase) + Remaining(t.procs[r].phase)
  {
    var m := map x | x in s.procs :: Remaining(s.procs[x].phase);
    TotalUpdate(m, r, Remaining(t.procs[r].phase));
    assert (map x | x in t.procs :: Remaining(t.procs[x].phase)) == m[r := Remaining(t.procs[r].phase)];
  }

  lemma MoverSpends(s: Shop, l: Label, r: int)
    requires Enabled(s, l) && Moves(l, r) && !l.Arrive?
    ensures r in s.procs && r in Effect(s, l).procs
    ensures Effect(s, l).procs == s.procs[r := Effect(s, l).procs[r]]
    ensures Remaining(Effect(s, l).procs[r].phase) < Remaining(s.procs[r].phase)
  {
  }

  lemma StepSpends(s: Shop, l: Label)
    requires !l.Arrive?
    ensures Fuel(Step(s, l)) + (if CallStep(s, l) then 1 else 0) <= Fuel(s)
  {
    if CallStep(s, l) {
      var r :| Moves(l, r);
      MoverSpends(s, l, r);
      FuelMove(s, Effect(s, l), r);
    } else {
      assert forall r :: Moves(l, r) ==> !Enabled(s, l);
      assert l.Evict? || l.SetUser? || l.Burn? || (Moves(l, l.r) && !Enabled(s, l));
      assert Step(s, l).procs == s.procs;
    }
  }

  /** How many labels of a schedule are steps (or crashes) of calls that really happen. */
  ghost function CallSteps(s: Shop, ls: seq<Label>): nat {
    if ls == [] then 0
    else
      var n := |ls| - 1;
      CallSteps(s, ls[..n]) + (if CallStep(Exec(s, ls[..n]), ls[n]) then 1 else 0)
  }

  lemma {:induction false} SpendBound(s: Shop, ls: seq<Label>)
    requires forall i :: 0 <= i < |ls| ==> !ls[i].Arrive?
    ensures CallSteps(s, ls) + Fuel(Exec(s, ls)) <= Fuel(s)
  {
    if ls != [] {
      SpendBound(s, ls[..|ls| - 1]);
      StepSpends(Exec(s, ls[..|ls| - 1]), ls[|ls| - 1]);
    }
  }

  /** A state is stuck, crashes aside, exactly when every call is finished. */
  lemma StuckIffFinished(s: Shop)
    requires Inv(s)
    ensures (forall l, r :: OwnStep(l, r) ==> !Enabled(s, l)) <==>
            (forall r :: r in s.procs ==> Final(s.procs[r].phase))
  {
    if r :| r in s.procs && !Final(s.procs[r].phase) {
      var x, l := SomeoneCanStep(s, r);
      assert OwnStep(l, x) && Enabled(s, l);
    } else {
      forall l, r | OwnStep(l, r)
        ensures !Enabled(s, l)
      {
        if Enabled(s, l) {
          MoverSpends(s, l, r);
        }
      }
    }
  }

  /** With no new arrivals, calls take at most `Fuel` steps in all, whatever the schedule and
      the environment do, and no call waits for ever: where no call can take a step of its own,
      none is unfinished. */
  lemma CallsTerminate(s: Shop, ls: seq<Label>)
    requires Inv(s)
    requires forall i :: 0 <= i < |ls| ==> !ls[i].Arrive?
    ensures CallSteps(s, ls) + Fuel(Exec(s, ls)) <= Fuel(s)
    ensures (forall l, r :: OwnStep(l, r) ==> !Enabled(Exec(s, ls), l)) <==>
            (forall r :: r in Exec(s, ls).procs ==> Final(Exec(s, ls).procs[r].phase))
  {
    SpendBound(s, ls);
    InvExec(s, ls);
    StuckIffFinished(Exec(s, ls));
  }
}
