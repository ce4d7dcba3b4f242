/** Runs of the combined system seen from either side, and with a failed call erased. */
module SystemRuns {
  import opened ShopSystem
  import P = Purchase
  import O = Outbox
  import E = Erasure

  function ShopPart(s: System, l: Label): seq<P.Label> {
    if !Enabled(s, l) then []
    else match l
      case Call(p) => [p]
      case Commit(r, _, _) => [P.Commit(r)]
      case Work(_) => []
  }

  function BoxPart(s: System, l: Label): seq<O.Label> {
    if !Enabled(s, l) then []
    else match l
      case Call(_) => []
      case Commit(r, eventId, at) => [O.Insert(eventId, DoCommit(s, r, eventId, at).box.rows[eventId].payload, at)]
      case Work(o) => [o]
  }

  function ShopRun(s: System, ls: seq<Label>): seq<P.Label> {
    if ls == [] then []
    else ShopRun(s, ls[..|ls| - 1]) + ShopPart(Exec(s, ls[..|ls| - 1]), ls[|ls| - 1])
  }

  function BoxRun(s: System, ls: seq<Label>): seq<O.Label> {
    if ls == [] then []
    else BoxRun(s, ls[..|ls| - 1]) + BoxPart(Exec(s, ls[..|ls| - 1]), ls[|ls| - 1])
  }

  lemma ShopStep(s: System, l: Label)
    ensures P.Exec(s.shop, ShopPart(s, l)) == Step(s, l).shop
  {
  }

  /** The purchases of a system run are a run of the purchase protocol, so everything proved
      of all its schedules holds in the system. */
  lemma {:induction false} ShopRuns(s: System, ls: seq<Label>)
    ensures Exec(s, ls).shop == P.Exec(s.shop, ShopRun(s, ls))
  {
    if ls != [] {
      var n := |ls| - 1;
      var t := Exec(s, ls[..n]);
      ShopRuns(s, ls[..n]);
      ShopStep(t, ls[n]);
      P.ExecConcat(s.shop, ShopRun(s, ls[..n]), ShopPart(t, ls[n]));
    }
  }

  lemma BoxStep(s: System, l: Label)
    ensures O.Exec(s.box, BoxPart(s, l)) == Step(s, l).box
  {
    if BoxPart(s, l) != [] {
      O.ExecAppend(s.box, [], BoxPart(s, l)[0]);
      assert BoxPart(s, l) == [] + [BoxPart(s, l)[0]];
    }
  }

  /** The workers of a system run, with the commits of purchases as inserts, are a run of the
      outbox protocol. */
  lemma {:induction false} BoxRuns(s: System, ls: seq<Label>)
    ensures Exec(s, ls).box == O.Exec(s.box, BoxRun(s, ls))
  {
    if ls != [] {
      var n := |ls| - 1;
      var t := Exec(s, ls[..n]);
      BoxRuns(s, ls[..n]);
      BoxStep(t, ls[n]);
      O.ExecConcat(s.box, BoxRun(s, ls[..n]), BoxPart(t, ls[n]));
    }
  }

  function Erase(s: System, r: int): System {
    s.(shop := E.Erase(s.shop, r))
  }

  /** What the run without call `r` does where the run with it tries `l`. */
  function Kept(s: System, l: Label, r: int): seq<Label> {
    if !Enabled(s, l) then []
    else match l
      case Call(p) =>
        if !P.Moves(p, r) then [l] else if p.Insert? then [Call(P.Burn(p.orderId))] else []
      case _ => [l]
  }

  function Without(s: System, ls: seq<Label>, r: int): seq<Label> {
    if ls == [] then []
    else Without(s, ls[..|ls| - 1], r) + Kept(Exec(s, ls[..|ls| - 1]), ls[|ls| - 1], r)
  }

  lemma EraseCall(s: System, l: Label, r: int)
    requires Inv(s) && l.Call? && Enabled(s, l) && E.Traceless(Effect(s, l).shop, r)
    ensures Exec(Erase(s, r), Kept(s, l, r)) == Erase(Effect(s, l), r)
  {
    if P.Moves(l.p, r) {
      E.EraseOwn(s.shop, l.p, r);
      if l.p.Insert? {
        ExecAppend(Erase(s, r), [], Call(P.Burn(l.p.orderId)));
      }
    } else {
      E.EraseOther(s.shop, l.p, r);
      ExecAppend(Erase(s, r), [], l);
    }
  }

  lemma EraseStep(s: System, l: Label, r: int)
    requires Inv(s) && E.Traceless(Step(s, l).shop, r)
    ensures Exec(Erase(s, r), Kept(s, l, r)) == Erase(Step(s, l), r)
    ensures forall x :: x in Kept(s, l, r) ==> !MovesCall(x, r)
  {
    if Enabled(s, l) {
      match l
      case Call(_) => EraseCall(s, l, r);
      case Commit(x, eventId, at) =>
        E.EraseOther(s.shop, P.Commit(x), r);
        ExecAppend(Erase(s, r), [], l);
      case Work(_) => ExecAppend(Erase(s, r), [], l);
    }
  }

  lemma TracelessBefore(s: System, l: Label, r: int)
    requires Inv(s) && E.Traceless(Step(s, l).shop, r)
    ensures E.Traceless(s.shop, r)
  {
    if Enabled(s, l) {
      match l
      case Call(p) => E.TraceStays(s.shop, p, r);
      case Commit(x, _, _) => E.TraceStays(s.shop, P.Commit(x), r);
      case Work(_) =>
    }
  }

  /** A call that ends in 403, 404, 409, a lost key race or a crash before its commit leaves
      committed stock, orders, outbox, broker and everything else as a run in which it takes no
      step at all does. */
  lemma {:induction false} FailureLeavesNoTrace(s: System, ls: seq<Label>, r: int)
    requires Inv(s) && r !in s.shop.procs
    requires E.Traceless(Exec(s, ls).shop, r)
    ensures Exec(s, Without(s, ls, r)) == Erase(Exec(s, ls), r)
    ensures forall x :: x in Without(s, ls, r) ==> !MovesCall(x, r)
  {
    if ls == [] {
      assert s.shop.procs - {r} == s.shop.procs;
    } else {
      var n := |ls| - 1;
      var t := Exec(s, ls[..n]);
      InvExec(s, ls[..n]);
      TracelessBefore(t, ls[n], r);
      FailureLeavesNoTrace(s, ls[..n], r);
      EraseStep(t, ls[n], r);
      ExecConcat(s, Without(s, ls[..n], r), Kept(t, ls[n], r));
    }
  }
}
