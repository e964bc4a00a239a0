/**
 What `Placement` takes a region to do, one atomic allocation that an id already
 held is refused and one atomic compensating delete, is what the pool manager of
 `Allocation` does step by step, the kills that undo its allocations included.
 */
module RegionRefinement {
  import opened Prelude
  import A = Allocation
  import P = Placement

  /** Call `c` has been told that the region allocated `id`, and no kill has deleted the session since. */
  predicate Granted(w: A.World, c: A.CallId, id: A.SessionId) {
    c in w.calls && w.calls[c].id == id && w.calls[c].pc == A.Done(true) && !A.Killed(w, c)
  }

  /** Region `r` holds the id in the placement world exactly for the call the pool manager granted it to. */
  ghost predicate Corresponds(w: A.World, id: A.SessionId, pw: P.World, r: P.Region) {
    forall c :: Granted(w, c, id) <==> r in pw.held && pw.held[r] == c
  }

  lemma GrantIsUnique(w: A.World, id: A.SessionId, c: A.CallId, d: A.CallId)
    requires A.Provenance(w) && A.Ownership(w) && Granted(w, c, id) && Granted(w, d, id)
    ensures c == d
  {
    assert A.OwnsRecord(w, c) && A.OwnsRecord(w, d);
    assert A.CallOk(w, c) && A.CallOk(w, d);
  }

  /** The step that ends call `c` for the id with success. */
  predicate Grants(w: A.World, e: A.Event, id: A.SessionId) {
    && !e.Outside? && e.c in w.calls && w.calls[e.c].id == id && !w.calls[e.c].pc.Done?
    && e.c in A.Step(w, e).calls && A.Step(w, e).calls[e.c].pc == A.Done(true)
  }

  /** The step by which a kill deletes the session of call `k`. */
  predicate Deletes(w: A.World, e: A.Event, id: A.SessionId) {
    && e.Outside? && e.o.KillDelete? && e.o.k in w.kills && w.kills[e.o.k].id == id
    && w.kills[e.o.k].shutDown && !w.kills[e.o.k].finished
  }

  /** A call's step grants at most to that call, and withdraws nothing. */
  lemma CallGrants(w: A.World, e: A.Event, d: A.CallId, id: A.SessionId)
    requires A.KillsUndo(w) && !e.Outside?
    ensures Granted(A.Step(w, e), d, id) <==> Granted(w, d, id) || (d == e.c && Grants(w, e, id))
  {
    assert d in w.kills ==> A.KillOk(w, d);
    if !e.Request? && e.c in w.calls {
      A.CallStepIsLocal(w, e, e.c);
    }
  }

  /** A step from outside grants nothing, and withdraws only what a delete withdraws. */
  lemma OutsideGrants(w: A.World, e: A.Event, d: A.CallId, id: A.SessionId)
    requires A.KillsUndo(w) && e.Outside? && A.Undoing(w, e)
    ensures Granted(A.Step(w, e), d, id) <==> Granted(w, d, id) && !(Deletes(w, e, id) && d == e.o.k)
  {
    assert d in w.kills ==> A.KillOk(w, d);
  }

  /** A step that neither grants nor deletes the id changes nothing in the placement world. */
  lemma OtherStepsCorrespond(w: A.World, e: A.Event, id: A.SessionId, pw: P.World, r: P.Region)
    requires A.KillsUndo(w) && A.Undoing(w, e) && Corresponds(w, id, pw, r)
    requires !Grants(w, e, id) && !Deletes(w, e, id)
    ensures Corresponds(A.Step(w, e), id, pw, r)
  {
    forall d ensures Granted(A.Step(w, e), d, id) <==> r in pw.held && pw.held[r] == d {
      assert Granted(w, d, id) <==> r in pw.held && pw.held[r] == d;
      if e.Outside? {
        OutsideGrants(w, e, d, id);
      } else {
        CallGrants(w, e, d, id);
      }
    }
  }

  lemma RefusalKeepsHeld(t: A.World, id: A.SessionId, pw: P.World, r: P.Region, c: P.CallId, k: nat)
    requires Corresponds(t, id, pw, r) && c in pw.calls && k < |pw.calls[c].regions|
    ensures Corresponds(t, id, P.AllocateStep(pw, c, k, P.Refused), r)
  {
    assert P.AllocateStep(pw, c, k, P.Refused).held == pw.held;
  }

  /** The id was free in the region, or it would now be granted twice. */
  lemma GrantFindsRegionFree(w: A.World, e: A.Event, id: A.SessionId, pw: P.World, r: P.Region)
    requires A.KillsUndo(w) && Corresponds(w, id, pw, r) && Grants(w, e, id)
    requires A.Provenance(A.Step(w, e)) && A.Ownership(A.Step(w, e))
    ensures r !in pw.held
  {
    if r in pw.held {
      var d := pw.held[r];
      assert Granted(w, d, id);
      CallGrants(w, e, d, id);
      CallGrants(w, e, e.c, id);
      GrantIsUnique(A.Step(w, e), id, e.c, d);
    }
  }

  lemma GrantCorresponds(w: A.World, e: A.Event, id: A.SessionId, pw: P.World, r: P.Region, k: nat,
                         outcome: P.AllocateOutcome)
    requires A.KillsUndo(w) && Corresponds(w, id, pw, r) && Grants(w, e, id) && outcome != P.Refused
    requires r !in pw.held && e.c in pw.calls && k < |pw.calls[e.c].regions| && pw.calls[e.c].regions[k] == r
    ensures Corresponds(A.Step(w, e), id, P.AllocateStep(pw, e.c, k, outcome), r)
  {
    assert P.AllocateStep(pw, e.c, k, outcome).held == pw.held[r := e.c];
    forall d ensures Granted(A.Step(w, e), d, id) <==> d == e.c {
      assert !Granted(w, d, id);
      CallGrants(w, e, d, id);
    }
  }

  /**
   At any point of any run in which only undoing kills occur, the step that ends call `c`
   is one atomic placement allocation at the region: granted, or granted with its reply
   lost, when the call succeeds, and then the region did not hold the id; refused when
   the call fails.
   */
  lemma RegionRefinesAllocation(events: seq<A.Event>, e: A.Event, id: A.SessionId, pw: P.World, r: P.Region,
                                k: nat, outcome: P.AllocateOutcome)
    requires A.Compensated(A.START, events) && !e.Outside?
    requires Corresponds(A.Run(A.START, events), id, pw, r)
    requires var w := A.Run(A.START, events);
             var t := A.Step(w, e);
             && e.c in w.calls && w.calls[e.c].id == id && !w.calls[e.c].pc.Done?
             && e.c in t.calls && t.calls[e.c].pc.Done? && (outcome != P.Refused <==> t.calls[e.c].pc == A.Done(true))
    requires e.c in pw.calls && k < |pw.calls[e.c].regions| && pw.calls[e.c].regions[k] == r
    ensures outcome != P.Refused ==> r !in pw.held
    ensures Corresponds(A.Step(A.Run(A.START, events), e), id, P.AllocateStep(pw, e.c, k, outcome), r)
  {
    A.RunKeepsOwnership(A.START, events);
    var w := A.Run(A.START, events);
    if outcome == P.Refused {
      OtherStepsCorrespond(w, e, id, pw, r);
      RefusalKeepsHeld(A.Step(w, e), id, pw, r, e.c, k);
    } else {
      A.StepKeepsProvenance(w, e);
      A.StepKeepsOwnership(w, e);
      GrantFindsRegionFree(w, e, id, pw, r);
      GrantCorresponds(w, e, id, pw, r, k, outcome);
    }
  }

  /**
   The delete of a kill that undoes call `c`, three awaits after the control plane asked for it,
   is one successful placement compensation: the region still holds the id for `c` itself,
   and afterwards for nobody.
   */
  lemma RegionRefinesCompensation(events: seq<A.Event>, c: A.CallId, id: A.SessionId, pw: P.World, r: P.Region, k: nat)
    requires A.Compensated(A.START, events)
    requires Corresponds(A.Run(A.START, events), id, pw, r)
    requires Deletes(A.Run(A.START, events), A.Outside(A.KillDelete(c)), id)
    requires c in pw.calls && k < |pw.calls[c].regions| && pw.calls[c].regions[k] == r
    ensures r in pw.held && pw.held[r] == c
    ensures Corresponds(A.Step(A.Run(A.START, events), A.Outside(A.KillDelete(c))), id,
                        P.CompensateStep(pw, c, k, true), r)
  {
    A.RunKeepsOwnership(A.START, events);
    DeleteCorresponds(A.Run(A.START, events), c, id, pw, r, k);
  }

  lemma DeleteCorresponds(w: A.World, c: A.CallId, id: A.SessionId, pw: P.World, r: P.Region, k: nat)
    requires A.KillsUndo(w) && Corresponds(w, id, pw, r) && Deletes(w, A.Outside(A.KillDelete(c)), id)
    requires c in pw.calls && k < |pw.calls[c].regions| && pw.calls[c].regions[k] == r
    ensures r in pw.held && pw.held[r] == c
    ensures Corresponds(A.Step(w, A.Outside(A.KillDelete(c))), id, P.CompensateStep(pw, c, k, true), r)
  {
    assert A.KillOk(w, c) && Granted(w, c, id);
    assert P.CompensateStep(pw, c, k, true).held == pw.held - {r};
    forall d ensures !Granted(A.Step(w, A.Outside(A.KillDelete(c))), d, id) {
      assert Granted(w, d, id) <==> pw.held[r] == d;
      OutsideGrants(w, A.Outside(A.KillDelete(c)), d, id);
    }
  }
}
