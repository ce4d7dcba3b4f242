/** What taking one call out of a state means, and why no other step can tell. */
module Erasure {
  import opened Schema
  import opened Purchase
  import opened PurchaseInvariant

  function Erase(s: Shop, r: int): Shop {
    s.(procs := s.procs - {r})
  }

  /** Phases of a call that has not committed and will not write to Redis any more than it
      has: everything before the commit, the failures, a lost race, a Redis hit. */
  predicate NoTrace(ph: Phase) {
    !ph.Caching? && !ph.Lost? && ph != Done(Success(OwnCommit)) && ph != Done(Success(DbHit))
  }

  predicate Traceless(s: Shop, r: int) {
    r in s.procs ==> NoTrace(s.procs[r].phase)
  }

  /** A call that has left a trace keeps it. */
  lemma TraceStays(s: Shop, l: Label, r: int)
    requires Inv(s) && Traceless(Step(s, l), r)
    ensures Traceless(s, r)
  {
    assert r in s.procs ==> ProcOk(s, s.procs[r]);
    if Enabled(s, l) && !Moves(l, r) {
      OthersLeave(s, l, r);
    }
  }

  /** A step of `r` itself is nothing without `r`, or one skipped order_id. */
  lemma EraseOwn(s: Shop, l: Label, r: int)
    requires Inv(s) && Enabled(s, l) && Moves(l, r) && Traceless(Effect(s, l), r)
    ensures Erase(Effect(s, l), r) ==
      if l.Insert? then Step(Erase(s, r), Burn(l.orderId)) else Erase(s, r)
  {
    assert r in s.procs ==> ProcOk(s, s.procs[r]);
    assert Effect(s, l).procs - {r} == s.procs - {r};
  }

  lemma EraseEnabled(s: Shop, l: Label, r: int)
    requires Enabled(s, l) && !Moves(l, r)
    ensures Enabled(Erase(s, r), l)
  {
  }

  lemma EraseMove(s: Shop, x: int, ph: Phase, r: int)
    requires x in s.procs && x != r
    ensures Move(Erase(s, r), x, ph) == Erase(Move(s, x, ph), r)
  {
    assert Move(Erase(s, r), x, ph).procs == Erase(Move(s, x, ph), r).procs;
  }

  lemma EraseQuiet(s: Shop, l: Label, r: int)
    requires Enabled(s, l) && Enabled(Erase(s, r), l) && !Moves(l, r)
    requires l.ProbeHit? || l.ProbeSkip? || l.Authorise? || l.LookUp? || l.Reread? || l.CacheSet? || l.CacheSkip?
    ensures Effect(Erase(s, r), l) == Erase(Effect(s, l), r)
  {
    var t := if l.CacheSet? then s.(redis := s.redis[s.procs[l.r].req.key := s.procs[l.r].phase.orderId]) else s;
    EraseMove(t, l.r, NextPhase(s, l), r);
  }

  lemma EraseOutside(s: Shop, l: Label, r: int)
    requires Enabled(s, l) && Enabled(Erase(s, r), l) && !Moves(l, r)
    requires l.Arrive? || l.Evict? || l.SetUser? || l.Burn?
    ensures Effect(Erase(s, r), l) == Erase(Effect(s, l), r)
  {
    assert Effect(Erase(s, r), l).procs == Erase(Effect(s, l), r).procs;
  }

  lemma EraseCommit(s: Shop, x: int, r: int)
    requires Enabled(s, Commit(x)) && Enabled(Erase(s, r), Commit(x)) && x != r
    ensures DoCommit(Erase(s, r), x) == Erase(DoCommit(s, x), r)
  {
  }

  lemma EraseUpdate(s: Shop, x: int, r: int)
    requires x in s.procs && x != r
    ensures DoUpdate(Erase(s, r), x) == Erase(DoUpdate(s, x), r)
  {
    EraseMove(s, x, DoUpdate(s, x).procs[x].phase, r);
  }

  lemma EraseInsert(s: Shop, x: int, orderId: int, r: int)
    requires x in s.procs && x != r
    ensures DoInsert(Erase(s, r), x, orderId) == Erase(DoInsert(s, x, orderId), r)
  {
    EraseMove(s.(orderSeq := Max(s.orderSeq, orderId + 1)), x, DoInsert(s, x, orderId).procs[x].phase, r);
  }

  lemma EraseCrash(s: Shop, x: int, r: int)
    requires x in s.procs && x != r
    ensures DoCrash(Erase(s, r), x) == Erase(DoCrash(s, x), r)
  {
    EraseMove(s, x, DoCrash(s, x).procs[x].phase, r);
  }

  /** A step of another call is the same step without `r`, whose locks are gone. */
  lemma EraseOther(s: Shop, l: Label, r: int)
    requires Enabled(s, l) && !Moves(l, r)
    ensures Enabled(Erase(s, r), l)
    ensures Effect(Erase(s, r), l) == Erase(Effect(s, l), r)
  {
    EraseEnabled(s, l, r);
    match l
    case Arrive(_, _) => EraseOutside(s, l, r);
    case Update(x) => EraseUpdate(s, x, r);
    case Insert(x, orderId) => EraseInsert(s, x, orderId, r);
    case Commit(x) => EraseCommit(s, x, r);
    case Crash(x) => EraseCrash(s, x, r);
    case Evict(_) => EraseOutside(s, l, r);
    case SetUser(_, _) => EraseOutside(s, l, r);
    case Burn(_) => EraseOutside(s, l, r);
    case _ => EraseQuiet(s, l, r);
  }
}
