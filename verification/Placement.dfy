/**
 Concurrent `routeSession` calls for one session id (services/control-plane).

 An empty region list is answered at once. Otherwise the atomic steps are the
 awaits: the duplicate check, which may throw, one regional allocation, the
 Postgres insert, and the compensating regional delete. A region refuses an id it
 already holds, and the insert is unique on the id. Three faults the code handles
 only best-effort are steps too, with what they leave behind recorded: an
 allocation whose reply is lost, an insert whose acknowledgement is lost, and a
 compensation that fails.
 Whatever else throws in the try block counts as a failed insert before the row is
 written and as a lost acknowledgement after it.
 */
module Placement {
  import opened Prelude

  type Region = nat
  type CallId = nat

  datatype Pc = Checking | Trying(k: nat) | Allocated(k: nat) | Compensating(k: nat) | Done(status: nat)

  datatype Call = Call(regions: seq<Region>, pc: Pc)

  /**
   `row` is the region named by the Postgres row; `held` says which regions hold
   the id and for which call. `leaked` and `rowLost` are history.
   */
  datatype World = World(
    row: Option<Region>,
    held: map<Region, CallId>,
    calls: map<CallId, Call>,
    leaked: set<Region>,
    rowLost: bool)

  datatype AllocateOutcome = Granted | Refused | ReplyLost

  datatype InsertOutcome = Committed | Failed | AckLost

  datatype Event =
    | Request(c: CallId, regions: seq<Region>)
    | Check(c: CallId, answered: bool)
    | Allocate(c: CallId, allocation: AllocateOutcome)
    | Insert(c: CallId, insertion: InsertOutcome)
    | Compensate(c: CallId, succeeds: bool)

  function Next(regions: seq<Region>, k: nat): Pc {
    if k < |regions| then Trying(k) else Done(503)
  }

  function MoveTo(w: World, c: CallId, pc: Pc): World
    requires c in w.calls
  {
    w.(calls := w.calls[c := w.calls[c].(pc := pc)])
  }

  /** The duplicate check; when it throws, so does the call. */
  function Checked(row: Option<Region>, regions: seq<Region>, answered: bool): Pc {
    if !answered then Done(500) else if row.Some? then Done(409) else Next(regions, 0)
  }

  function AllocateStep(w: World, c: CallId, k: nat, outcome: AllocateOutcome): World
    requires c in w.calls && k < |w.calls[c].regions|
  {
    var r := w.calls[c].regions[k];
    var onward := Next(w.calls[c].regions, k + 1);
    if r in w.held || outcome == Refused then MoveTo(w, c, onward)
    else if outcome == Granted then MoveTo(w.(held := w.held[r := c]), c, Allocated(k))
    else MoveTo(w.(held := w.held[r := c], leaked := w.leaked + {r}), c, onward)
  }

  function InsertStep(w: World, c: CallId, k: nat, outcome: InsertOutcome): World
    requires c in w.calls && k < |w.calls[c].regions|
  {
    var r := w.calls[c].regions[k];
    if w.row.Some? || outcome == Failed then MoveTo(w, c, Compensating(k))
    else if outcome == Committed then MoveTo(w.(row := Some(r)), c, Done(200))
    else MoveTo(w.(row := Some(r), rowLost := true), c, Compensating(k))
  }

  /** The regional delete removes whatever the region holds for the id. */
  function CompensateStep(w: World, c: CallId, k: nat, succeeds: bool): World
    requires c in w.calls && k < |w.calls[c].regions|
  {
    var r := w.calls[c].regions[k];
    if succeeds then MoveTo(w.(held := w.held - {r}), c, Done(500))
    else MoveTo(w.(leaked := w.leaked + {r}), c, Done(500))
  }

  /** A step whose call is not at the matching await changes nothing. */
  function Step(w: World, e: Event): World {
    if e.Request? then
      if e.c in w.calls then w
      else w.(calls := w.calls[e.c := Call(e.regions, if e.regions == [] then Done(503) else Checking)])
    else if e.c !in w.calls then w
    else
      var call := w.calls[e.c];
      match (e, call.pc)
      case (Check(c, answered), Checking) => MoveTo(w, c, Checked(w.row, call.regions, answered))
      case (Allocate(c, outcome), Trying(k)) =>
        if k < |call.regions| then AllocateStep(w, c, k, outcome) else w
      case (Insert(c, outcome), Allocated(k)) =>
        if k < |call.regions| then InsertStep(w, c, k, outcome) else w
      case (Compensate(c, succeeds), Compensating(k)) =>
        if k < |call.regions| then CompensateStep(w, c, k, succeeds) else w
      case _ => w
  }

  function Run(w: World, events: seq<Event>): World
    decreases events
  {
    if events == [] then w else Run(Step(w, events[0]), events[1..])
  }

  const START := World(None, map[], map[], {}, false)

  // ------------------------------------------------------------------- invariant

  /** The region a call has taken and must still record or give back. */
  predicate Working(call: Call, r: Region) {
    && (call.pc.Allocated? || call.pc.Compensating?)
    && call.pc.k < |call.regions| && call.regions[call.pc.k] == r
  }

  ghost predicate EveryHolderAccountable(w: World) {
    forall r :: r in w.held ==>
      && w.held[r] in w.calls
      && (r in w.leaked || Working(w.calls[w.held[r]], r) || (w.calls[w.held[r]].pc == Done(200) && w.row == Some(r)))
  }

  ghost predicate WorkersHold(w: World) {
    forall c :: c in w.calls && (w.calls[c].pc.Allocated? || w.calls[c].pc.Compensating?) ==>
      && w.calls[c].pc.k < |w.calls[c].regions|
      && w.calls[c].regions[w.calls[c].pc.k] in w.held
      && w.held[w.calls[c].regions[w.calls[c].pc.k]] == c
  }

  ghost predicate RowHeld(w: World) {
    && (w.row.Some? && !w.rowLost ==>
          w.row.value in w.held && w.held[w.row.value] in w.calls && w.calls[w.held[w.row.value]].pc == Done(200))
    && (w.rowLost ==> w.row.Some?)
    && (forall c :: c in w.calls && w.calls[c].pc == Done(200) ==>
          !w.rowLost && w.row.Some? && w.row.value in w.held && w.held[w.row.value] == c)
  }

  /** What a fault left in a region stays there, for a call that has given up on it. */
  ghost predicate LeaksHeld(w: World) {
    forall r :: r in w.leaked ==>
      && r in w.held && w.held[r] in w.calls && !Working(w.calls[w.held[r]], r)
      && (w.calls[w.held[r]].pc == Done(200) ==> w.row != Some(r))
  }

  ghost predicate Inv(w: World) {
    EveryHolderAccountable(w) && WorkersHold(w) && RowHeld(w) && LeaksHeld(w)
  }

  /** A call that holds nothing moves to another await at which it holds nothing. */
  lemma MoveOnKeepsInv(w: World, c: CallId, pc: Pc)
    requires Inv(w) && c in w.calls && (w.calls[c].pc.Checking? || w.calls[c].pc.Trying?)
    requires pc.Trying? || (pc.Done? && pc.status != 200)
    ensures Inv(MoveTo(w, c, pc))
  {
  }

  lemma LeakKeepsInv(w: World, c: CallId, r: Region)
    requires Inv(w) && c in w.calls && r !in w.held
    ensures Inv(w.(held := w.held[r := c], leaked := w.leaked + {r}))
  {
  }

  lemma TakeKeepsInv(w: World, c: CallId, k: nat)
    requires Inv(w) && c in w.calls && w.calls[c].pc.Trying? && k < |w.calls[c].regions|
             && w.calls[c].regions[k] !in w.held
    ensures Inv(MoveTo(w.(held := w.held[w.calls[c].regions[k] := c]), c, Allocated(k)))
  {
    var r := w.calls[c].regions[k];
    var t := MoveTo(w.(held := w.held[r := c]), c, Allocated(k));
    assert Working(t.calls[c], r);
    assert EveryHolderAccountable(t);
    assert WorkersHold(t);
  }

  lemma AllocateKeepsInv(w: World, c: CallId, k: nat, outcome: AllocateOutcome)
    requires Inv(w) && c in w.calls && w.calls[c].pc == Trying(k) && k < |w.calls[c].regions|
    ensures Inv(AllocateStep(w, c, k, outcome))
  {
    var r := w.calls[c].regions[k];
    if r in w.held || outcome == Refused {
      MoveOnKeepsInv(w, c, Next(w.calls[c].regions, k + 1));
    } else if outcome == Granted {
      TakeKeepsInv(w, c, k);
    } else {
      LeakKeepsInv(w, c, r);
      MoveOnKeepsInv(w.(held := w.held[r := c], leaked := w.leaked + {r}), c, Next(w.calls[c].regions, k + 1));
    }
  }

  lemma CommitKeepsInv(w: World, c: CallId, k: nat)
    requires Inv(w) && c in w.calls && w.calls[c].pc == Allocated(k) && k < |w.calls[c].regions| && w.row.None?
    ensures Inv(MoveTo(w.(row := Some(w.calls[c].regions[k])), c, Done(200)))
  {
    assert Working(w.calls[c], w.calls[c].regions[k]);
  }

  /** A call that still works on its region goes on to compensate. */
  lemma GiveBackKeepsInv(w: World, c: CallId, k: nat)
    requires Inv(w) && c in w.calls && w.calls[c].pc == Allocated(k) && k < |w.calls[c].regions|
    ensures Inv(MoveTo(w, c, Compensating(k)))
  {
  }

  lemma LoseAckKeepsInv(w: World, r: Region)
    requires Inv(w) && w.row.None?
    ensures Inv(w.(row := Some(r), rowLost := true))
  {
  }

  lemma InsertKeepsInv(w: World, c: CallId, k: nat, outcome: InsertOutcome)
    requires Inv(w) && c in w.calls && w.calls[c].pc == Allocated(k) && k < |w.calls[c].regions|
    ensures Inv(InsertStep(w, c, k, outcome))
  {
    var r := w.calls[c].regions[k];
    if w.row.Some? || outcome == Failed {
      GiveBackKeepsInv(w, c, k);
    } else if outcome == Committed {
      CommitKeepsInv(w, c, k);
    } else {
      LoseAckKeepsInv(w, r);
      GiveBackKeepsInv(w.(row := Some(r), rowLost := true), c, k);
    }
  }

  /** No two calls work on one region. */
  lemma WorkersDiffer(w: World, c: CallId, d: CallId, r: Region)
    requires WorkersHold(w) && c in w.calls && d in w.calls && Working(w.calls[c], r) && Working(w.calls[d], r)
    ensures c == d
  {
  }

  lemma FreeKeepsInv(w: World, c: CallId, k: nat)
    requires Inv(w) && c in w.calls && w.calls[c].pc == Compensating(k) && k < |w.calls[c].regions|
    ensures Inv(MoveTo(w.(held := w.held - {w.calls[c].regions[k]}), c, Done(500)))
  {
    var r := w.calls[c].regions[k];
    var t := MoveTo(w.(held := w.held - {r}), c, Done(500));
    assert Working(w.calls[c], r);
    assert RowHeld(t);
    assert EveryHolderAccountable(t);
    assert LeaksHeld(t);
    forall d | d in t.calls && (t.calls[d].pc.Allocated? || t.calls[d].pc.Compensating?)
      ensures t.calls[d].pc.k < |t.calls[d].regions|
      ensures t.calls[d].regions[t.calls[d].pc.k] in t.held && t.held[t.calls[d].regions[t.calls[d].pc.k]] == d
    {
      assert d != c && t.calls[d] == w.calls[d];
      if w.calls[d].regions[w.calls[d].pc.k] == r {
        WorkersDiffer(w, c, d, r);
      }
    }
  }

  lemma AbandonKeepsInv(w: World, c: CallId, k: nat)
    requires Inv(w) && c in w.calls && w.calls[c].pc == Compensating(k) && k < |w.calls[c].regions|
    ensures Inv(MoveTo(w.(leaked := w.leaked + {w.calls[c].regions[k]}), c, Done(500)))
  {
    assert Working(w.calls[c], w.calls[c].regions[k]);
  }

  lemma CompensateKeepsInv(w: World, c: CallId, k: nat, succeeds: bool)
    requires Inv(w) && c in w.calls && w.calls[c].pc == Compensating(k) && k < |w.calls[c].regions|
    ensures Inv(CompensateStep(w, c, k, succeeds))
  {
    if succeeds {
      FreeKeepsInv(w, c, k);
    } else {
      AbandonKeepsInv(w, c, k);
    }
  }

  lemma RequestKeepsInv(w: World, c: CallId, regions: seq<Region>)
    requires Inv(w) && c !in w.calls
    ensures Inv(Step(w, Request(c, regions)))
  {
  }

  lemma StepKeepsInv(w: World, e: Event)
    requires Inv(w)
    ensures Inv(Step(w, e))
  {
    if e.Request? {
      if e.c !in w.calls { RequestKeepsInv(w, e.c, e.regions); }
    } else if e.c in w.calls {
      match (e, w.calls[e.c].pc)
      case (Check(c, answered), Checking) => MoveOnKeepsInv(w, c, Checked(w.row, w.calls[c].regions, answered));
      case (Allocate(c, outcome), Trying(k)) =>
        if k < |w.calls[c].regions| { AllocateKeepsInv(w, c, k, outcome); }
      case (Insert(c, outcome), Allocated(k)) =>
        if k < |w.calls[c].regions| { InsertKeepsInv(w, c, k, outcome); }
      case (Compensate(c, succeeds), Compensating(k)) =>
        if k < |w.calls[c].regions| { CompensateKeepsInv(w, c, k, succeeds); }
      case _ =>
    }
  }

  lemma {:induction false} RunKeepsInv(w: World, events: seq<Event>)
    requires Inv(w)
    ensures Inv(Run(w, events))
    decreases events
  {
    if events != [] {
      StepKeepsInv(w, events[0]);
      RunKeepsInv(Step(w, events[0]), events[1..]);
    }
  }

  // -------------------------------------------------------------------- progress

  /** Where a call stands after it has asked its first `k` regions in vain. */
  function AfterRefusals(regions: seq<Region>, k: nat): Pc {
    if k == |regions| then Done(503) else Trying(k)
  }

  /** How many more answers a call can wait for. */
  function Remaining(call: Call): nat {
    match call.pc
    case Checking => |call.regions| + 3
    case Trying(k) => if k < |call.regions| then |call.regions| - k + 2 else 0
    case Allocated(_) => 2
    case Compensating(_) => 1
    case Done(_) => 0
  }

  /** The call is at a region of its list, or done. */
  predicate InList(call: Call) {
    match call.pc
    case Trying(k) => k < |call.regions|
    case Allocated(k) => k < |call.regions|
    case Compensating(k) => k < |call.regions|
    case _ => call.pc.Checking? ==> call.regions != []
  }

  /** The event answers what its call is waiting for. */
  predicate Answers(w: World, e: Event) {
    !e.Request? && e.c in w.calls
    && match w.calls[e.c].pc
       case Checking => e.Check?
       case Trying(_) => e.Allocate?
       case Allocated(_) => e.Insert?
       case Compensating(_) => e.Compensate?
       case Done(_) => false
  }

  /**
   Each answer moves its call to the next await or to its end, by what it says and what
   the region or the row already holds; any other event leaves all calls where they are.
   */
  lemma AnswerMovesOn(w: World, e: Event)
    requires !e.Request? && e.c in w.calls && InList(w.calls[e.c])
    ensures var call, t := w.calls[e.c], Step(w, e);
            && (!Answers(w, e) ==> t == w)
            && e.c in t.calls && t.calls == w.calls[e.c := t.calls[e.c]] && t.calls[e.c].regions == call.regions
            && InList(t.calls[e.c]) && (Answers(w, e) ==> Remaining(t.calls[e.c]) < Remaining(call))
            && (Answers(w, e) ==>
                  t.calls[e.c].pc ==
                  match e
                  case Check(_, answered) =>
                    if !answered then Done(500) else if w.row.Some? then Done(409) else Trying(0)
                  case Allocate(_, allocation) =>
                    if allocation == Granted && call.regions[call.pc.k] !in w.held then Allocated(call.pc.k)
                    else AfterRefusals(call.regions, call.pc.k + 1)
                  case Insert(_, insertion) =>
                    if insertion == Committed && w.row.None? then Done(200) else Compensating(call.pc.k)
                  case Compensate(_, _) => Done(500)
                  case Request(_, _) => call.pc)
  {
    assert w.calls == w.calls[e.c := w.calls[e.c]];
  }

  /** A new call starts with its check, or ends at once if it has no region; a known one is not restarted. */
  lemma RequestBegins(w: World, c: CallId, regions: seq<Region>)
    ensures var t := Step(w, Request(c, regions));
            if c in w.calls then t == w
            else if regions == [] then t == w.(calls := w.calls[c := Call([], Done(503))])
            else t == w.(calls := w.calls[c := Call(regions, Checking)])
  {
  }

  ghost predicate AllInList(w: World) {
    forall c :: c in w.calls ==> InList(w.calls[c])
  }

  /** Every call of every run stays within its list, so the bound on its answers holds from the start. */
  lemma {:induction false} CallsStayInList(w: World, events: seq<Event>)
    requires AllInList(w)
    ensures AllInList(Run(w, events))
    decreases events
  {
    if events != [] {
      var e := events[0];
      if !e.Request? && e.c in w.calls {
        AnswerMovesOn(w, e);
      }
      CallsStayInList(Step(w, e), events[1..]);
    }
  }

  // -------------------------------------------------------------------- theorems

  ghost predicate AllDone(w: World) {
    forall c :: c in w.calls ==> w.calls[c].pc.Done?
  }

  /** The region the row names, unless the insert that wrote it was not acknowledged. */
  function RecordedRegion(w: World): set<Region> {
    if w.row.Some? && !w.rowLost then {w.row.value} else {}
  }

  /**
   For any number of overlapping calls over any region lists: once all are done,
   the regions that hold the id are exactly the acknowledged row's and those where
   a fault left something behind, and these are never the same region.
   */
  lemma SettledPlacement(events: seq<Event>)
    requires AllDone(Run(START, events))
    ensures var w := Run(START, events);
            w.held.Keys == w.leaked + RecordedRegion(w) && w.leaked !! RecordedRegion(w)
  {
    RunKeepsInv(START, events);
    var w := Run(START, events);
    assert forall r :: r in w.held ==> r in w.leaked || w.row == Some(r);
  }

  /**
   The id is held by exactly the row's region, if there is a row, if and only if
   no fault left anything behind; when the row's acknowledgement was the fault, if
   and only if the compensation that followed it failed and nothing else did.
   */
  lemma PlacementHoldsIff(events: seq<Event>)
    requires AllDone(Run(START, events))
    ensures var w := Run(START, events);
            w.held.Keys == (if w.row.Some? then {w.row.value} else {}) <==>
              if w.rowLost then w.row.Some? && w.leaked == {w.row.value} else w.leaked == {}
  {
    SettledPlacement(events);
    RunKeepsInv(START, events);
  }

  /** The region at which event `e` is a fault with a lasting effect: a reply lost or a compensation failed. */
  function LeftBehind(w: World, e: Event): set<Region> {
    if e.Request? || e.c !in w.calls then {}
    else
      var call := w.calls[e.c];
      match (e, call.pc)
      case (Allocate(_, ReplyLost), Trying(k)) =>
        if k < |call.regions| && call.regions[k] !in w.held then {call.regions[k]} else {}
      case (Compensate(_, false), Compensating(k)) => if k < |call.regions| then {call.regions[k]} else {}
      case _ => {}
  }

  function LeftBehindBy(w: World, events: seq<Event>): set<Region>
    decreases events
  {
    if events == [] then {} else LeftBehind(w, events[0]) + LeftBehindBy(Step(w, events[0]), events[1..])
  }

  lemma StepLeaks(w: World, e: Event)
    ensures Step(w, e).leaked == w.leaked + LeftBehind(w, e)
  {
  }

  /** `leaked` is the set of regions at which such a fault occurred. */
  lemma {:induction false} LeaksAreFaults(w: World, events: seq<Event>)
    ensures Run(w, events).leaked == w.leaked + LeftBehindBy(w, events)
    decreases events
  {
    if events != [] {
      StepLeaks(w, events[0]);
      LeaksAreFaults(Step(w, events[0]), events[1..]);
    }
  }

  predicate FaultFree(e: Event) {
    && (e.Allocate? ==> e.allocation != ReplyLost)
    && (e.Insert? ==> e.insertion != AckLost)
    && (e.Compensate? ==> e.succeeds)
  }

  lemma {:induction false} FaultFreeLeavesNothing(w: World, events: seq<Event>)
    requires w.leaked == {} && !w.rowLost
    requires forall i :: 0 <= i < |events| ==> FaultFree(events[i])
    ensures Run(w, events).leaked == {} && !Run(w, events).rowLost
    decreases events
  {
    if events != [] {
      FaultFreeLeavesNothing(Step(w, events[0]), events[1..]);
    }
  }

  /** Without faults the regions holding the id are exactly the region of the row, if there is a row. */
  lemma OneRegionHoldsTheSession(events: seq<Event>)
    requires forall i :: 0 <= i < |events| ==> FaultFree(events[i])
    requires AllDone(Run(START, events))
    ensures var w := Run(START, events);
            w.held.Keys == if w.row.Some? then {w.row.value} else {}
  {
    FaultFreeLeavesNothing(START, events);
    SettledPlacement(events);
  }

  /** At most one caller is told 200, and while no acknowledgement was lost some caller was iff there is a row. */
  lemma OneWinner(events: seq<Event>, c: CallId, d: CallId)
    ensures var w := Run(START, events);
            && (c in w.calls && d in w.calls && w.calls[c].pc == Done(200) && w.calls[d].pc == Done(200) ==> c == d)
            && (!w.rowLost ==> (w.row.Some? <==> exists x :: x in w.calls && w.calls[x].pc == Done(200)))
  {
    RunKeepsInv(START, events);
  }

  /** A compensating delete, run at any moment, removes the compensating call's own allocation. */
  lemma CompensationIsOwn(events: seq<Event>, c: CallId)
    requires var w := Run(START, events); c in w.calls && w.calls[c].pc.Compensating?
    ensures var w := Run(START, events);
            var k := w.calls[c].pc.k;
            && k < |w.calls[c].regions| && w.calls[c].regions[k] in w.held && w.held[w.calls[c].regions[k]] == c
            && forall r :: r in w.held && w.held[r] != c ==> r in Step(w, Compensate(c, true)).held
  {
    RunKeepsInv(START, events);
  }

  /** A world with one call in it. */
  function Alone(row: Option<Region>, held: map<Region, CallId>, regions: seq<Region>, pc: Pc, leaked: set<Region>,
                 rowLost: bool): World {
    World(row, held, map[1 := Call(regions, pc)], leaked, rowLost)
  }

  lemma AloneRequests(regions: seq<Region>)
    requires regions != []
    ensures Step(START, Request(1, regions)) == Alone(None, map[], regions, Checking, {}, false)
  {
  }

  lemma AloneChecks(regions: seq<Region>)
    requires regions != []
    ensures Step(Alone(None, map[], regions, Checking, {}, false), Check(1, true)) ==
            Alone(None, map[], regions, Trying(0), {}, false)
  {
  }

  lemma AloneAllocates(held: map<Region, CallId>, regions: seq<Region>, k: nat, leaked: set<Region>,
                       outcome: AllocateOutcome)
    requires k < |regions| && regions[k] !in held && outcome != Refused
    ensures Step(Alone(None, held, regions, Trying(k), leaked, false), Allocate(1, outcome)) ==
            if outcome == Granted then Alone(None, held[regions[k] := 1], regions, Allocated(k), leaked, false)
            else Alone(None, held[regions[k] := 1], regions, Next(regions, k + 1), leaked + {regions[k]}, false)
  {
  }

  lemma AloneInserts(held: map<Region, CallId>, regions: seq<Region>, k: nat, leaked: set<Region>,
                     outcome: InsertOutcome)
    requires k < |regions| && outcome != Failed
    ensures Step(Alone(None, held, regions, Allocated(k), leaked, false), Insert(1, outcome)) ==
            if outcome == Committed then Alone(Some(regions[k]), held, regions, Done(200), leaked, false)
            else Alone(Some(regions[k]), held, regions, Compensating(k), leaked, true)
  {
  }

  /** Each assumption is needed: one lost reply and two regions hold the id. */
  lemma LostReplyPlacesTwice()
    ensures var events :=
            [Request(1, [10, 20]), Check(1, true), Allocate(1, ReplyLost), Allocate(1, Granted), Insert(1, Committed)];
            var w := Run(START, events);
            AllDone(w) && w.row == Some(20) && w.held.Keys == {10, 20}
  {
    var rs := [10, 20];
    AloneRequests(rs);
    AloneChecks(rs);
    AloneAllocates(map[], rs, 0, {}, ReplyLost);
    AloneAllocates(map[10 := 1], rs, 1, {10}, Granted);
    AloneInserts(map[10 := 1, 20 := 1], rs, 1, {10}, Committed);
    RunFive(Alone(None, map[], rs, Checking, {}, false), Alone(None, map[], rs, Trying(0), {}, false),
            Alone(None, map[10 := 1], rs, Trying(1), {10}, false),
            Alone(None, map[10 := 1, 20 := 1], rs, Allocated(1), {10}, false),
            Alone(Some(20), map[10 := 1, 20 := 1], rs, Done(200), {10}, false),
            Request(1, rs), Check(1, true), Allocate(1, ReplyLost), Allocate(1, Granted), Insert(1, Committed));
  }

  lemma AloneCompensates(row: Option<Region>, regions: seq<Region>, k: nat)
    requires k < |regions|
    ensures Step(Alone(row, map[regions[k] := 1], regions, Compensating(k), {}, true), Compensate(1, true)) ==
            Alone(row, map[], regions, Done(500), {}, true)
  {
    assert map[regions[k] := 1] - {regions[k]} == map[];
  }

  /** A lost insert acknowledgement leaves a row for a region that holds nothing. */
  lemma LostAckOrphansTheRow()
    ensures var events :=
            [Request(1, [10]), Check(1, true), Allocate(1, Granted), Insert(1, AckLost), Compensate(1, true)];
            var w := Run(START, events);
            AllDone(w) && w.row == Some(10) && w.held.Keys == {}
  {
    var rs := [10];
    AloneRequests(rs);
    AloneChecks(rs);
    AloneAllocates(map[], rs, 0, {}, Granted);
    AloneInserts(map[10 := 1], rs, 0, {}, AckLost);
    AloneCompensates(Some(10), rs, 0);
    RunFive(Alone(None, map[], rs, Checking, {}, false), Alone(None, map[], rs, Trying(0), {}, false),
            Alone(None, map[10 := 1], rs, Allocated(0), {}, false),
            Alone(Some(10), map[10 := 1], rs, Compensating(0), {}, true),
            Alone(Some(10), map[], rs, Done(500), {}, true),
            Request(1, rs), Check(1, true), Allocate(1, Granted), Insert(1, AckLost), Compensate(1, true));
  }

  lemma RunCons(w: World, e: Event, next: World, rest: seq<Event>)
    requires Step(w, e) == next
    ensures Run(w, [e] + rest) == Run(next, rest)
  {
    assert ([e] + rest)[1..] == rest;
  }

  lemma RunFive(w1: World, w2: World, w3: World, w4: World, w5: World, a: Event, b: Event, c: Event, d: Event, e: Event)
    requires Step(START, a) == w1 && Step(w1, b) == w2 && Step(w2, c) == w3 && Step(w3, d) == w4 && Step(w4, e) == w5
    ensures Run(START, [a, b, c, d, e]) == w5
  {
    RunCons(START, a, w1, [b, c, d, e]);
    assert [a] + [b, c, d, e] == [a, b, c, d, e];
    RunCons(w1, b, w2, [c, d, e]);
    assert [b] + [c, d, e] == [b, c, d, e];
    RunCons(w2, c, w3, [d, e]);
    assert [c] + [d, e] == [c, d, e];
    RunCons(w3, d, w4, [e]);
    assert [d] + [e] == [d, e];
    RunCons(w4, e, w5, []);
    assert [e] + [] == [e];
  }

  lemma {:induction false} RunSnoc(w: World, events: seq<Event>, e: Event)
    ensures Run(w, events + [e]) == Step(Run(w, events), e)
    decreases events
  {
    if events == [] {
      assert [e][1..] == [];
    } else {
      assert (events + [e])[1..] == events[1..] + [e];
      RunSnoc(Step(w, events[0]), events[1..], e);
    }
  }

  // ------------------------------------------------------------ the code's own loop

  /** The regions that hold the id when the `i`-th one is asked: those before, and those whose reply was lost. */
  function HeldBefore(held: set<Region>, regions: seq<Region>, allocations: seq<AllocateOutcome>, i: nat): set<Region>
    requires i <= |regions| && |allocations| == |regions|
  {
    held + set j | 0 <= j < i && allocations[j] == ReplyLost :: regions[j]
  }

  /** The region grants the id: it says so, and it did not hold it yet. */
  predicate Grants(held: set<Region>, regions: seq<Region>, allocations: seq<AllocateOutcome>, i: nat)
    requires i < |regions| && |allocations| == |regions|
  {
    allocations[i] == Granted && regions[i] !in HeldBefore(held, regions, allocations, i)
  }

  /** Each attempt is a region of the list, in order, and says whether that region granted the id. */
  ghost predicate TruthfulAttempts(held: set<Region>, regions: seq<Region>, allocations: seq<AllocateOutcome>,
                                   attempts: seq<(Region, bool)>)
    requires |allocations| == |regions|
  {
    && |attempts| <= |regions|
    && forall i :: 0 <= i < |attempts| ==> attempts[i] == (regions[i], Grants(held, regions, allocations, i))
  }

  ghost predicate OnlyLastGrants(attempts: seq<(Region, bool)>) {
    forall i :: 0 <= i < |attempts| && attempts[i].1 ==> i == |attempts| - 1
  }

  lemma OneMoreAttempt(held: set<Region>, regions: seq<Region>, allocations: seq<AllocateOutcome>,
                       attempts: seq<(Region, bool)>, granted: bool)
    requires |allocations| == |regions| && |attempts| < |regions|
    requires TruthfulAttempts(held, regions, allocations, attempts)
    requires granted == Grants(held, regions, allocations, |attempts|)
    requires forall i :: 0 <= i < |attempts| ==> !attempts[i].1
    ensures var more := attempts + [(regions[|attempts|], granted)];
            TruthfulAttempts(held, regions, allocations, more) && OnlyLastGrants(more)
  {
  }

  lemma HeldStep(held: set<Region>, regions: seq<Region>, allocations: seq<AllocateOutcome>, i: nat)
    requires i < |regions| && |allocations| == |regions|
    ensures HeldBefore(held, regions, allocations, i + 1) ==
            HeldBefore(held, regions, allocations, i) + if allocations[i] == ReplyLost then {regions[i]} else {}
  {
    var before, after := HeldBefore(held, regions, allocations, i), HeldBefore(held, regions, allocations, i + 1);
    forall r ensures r in after <==> r in before || (allocations[i] == ReplyLost && r == regions[i]) {
    }
  }

  class ControlPlane {
    var row: Option<Region>
    var held: map<Region, CallId>
    var calls: map<CallId, Call>
    ghost var leaked: set<Region>
    ghost var rowLost: bool

    ghost function View(): World
      reads this
    {
      World(row, held, calls, leaked, rowLost)
    }

    // Each step below is told the run so far and extends it by one event.

    /** Takes the id for `c` in the k-th region unless the region holds or refuses it. */
    method AllocateInRegion(c: CallId, k: nat, outcome: AllocateOutcome, ghost start: World, ghost past: seq<Event>)
      returns (granted: bool)
      requires View() == Run(start, past)
      requires c in calls && calls[c].pc == Trying(k) && k < |calls[c].regions|
      modifies this
      ensures View() == Run(start, past + [Allocate(c, outcome)]) && row == old(row)
      ensures granted <==> outcome == Granted && old(calls[c].regions[k]) !in old(held)
      ensures held.Keys ==
              if outcome == Refused then old(held.Keys) else old(held.Keys) + {old(calls[c].regions[k])}
      ensures c in calls && calls[c] ==
              Call(old(calls[c].regions), if granted then Allocated(k) else Next(old(calls[c].regions), k + 1))
    {
      RunSnoc(start, past, Allocate(c, outcome));
      var region := calls[c].regions[k];
      granted := outcome == Granted && region !in held;
      if outcome != Refused && region !in held {
        held := held[region := c];
        leaked := if granted then leaked else leaked + {region};
      }
      calls := calls[c := Call(calls[c].regions, if granted then Allocated(k) else Next(calls[c].regions, k + 1))];
    }

    method CreateRow(c: CallId, k: nat, outcome: InsertOutcome, ghost start: World, ghost past: seq<Event>)
      returns (committed: bool)
      requires View() == Run(start, past)
      requires c in calls && calls[c].pc == Allocated(k) && k < |calls[c].regions|
      modifies this
      ensures View() == Run(start, past + [Insert(c, outcome)]) && held == old(held)
      ensures committed <==> outcome == Committed && old(row).None?
      ensures row == if old(row).None? && outcome != Failed then Some(old(calls[c].regions[k])) else old(row)
      ensures c in calls && calls[c] == Call(old(calls[c].regions), if committed then Done(200) else Compensating(k))
    {
      RunSnoc(start, past, Insert(c, outcome));
      committed := outcome == Committed && row.None?;
      if outcome != Failed && row.None? {
        row := Some(calls[c].regions[k]);
        rowLost := rowLost || !committed;
      }
      calls := calls[c := Call(calls[c].regions, if committed then Done(200) else Compensating(k))];
    }

    method DeleteRegional(c: CallId, k: nat, succeeds: bool, ghost start: World, ghost past: seq<Event>)
      requires View() == Run(start, past)
      requires c in calls && calls[c].pc == Compensating(k) && k < |calls[c].regions|
      modifies this
      ensures View() == Run(start, past + [Compensate(c, succeeds)]) && row == old(row)
      ensures held == if succeeds then old(held) - {old(calls[c].regions[k])} else old(held)
      ensures c in calls && calls[c].pc == Done(500)
    {
      RunSnoc(start, past, Compensate(c, succeeds));
      if succeeds {
        held := held - {calls[c].regions[k]};
      } else {
        leaked := leaked + {calls[c].regions[k]};
      }
      calls := calls[c := Call(calls[c].regions, Done(500))];
    }

    method Admit(c: CallId, regions: seq<Region>, answered: bool) returns (status: nat)
      requires c !in calls
      modifies this
      ensures View() == Run(old(View()), [Request(c, regions), Check(c, answered)])
      ensures row == old(row) && held == old(held)
      ensures status == (if regions == [] then 503 else if !answered then 500 else if row.Some? then 409 else 0)
      ensures c in calls && calls[c] == Call(regions, if status == 0 then Trying(0) else Done(status))
    {
      RunSnoc(View(), [], Request(c, regions));
      RunSnoc(View(), [Request(c, regions)], Check(c, answered));
      assert [] + [Request(c, regions)] == [Request(c, regions)];
      assert [Request(c, regions)] + [Check(c, answered)] == [Request(c, regions), Check(c, answered)];
      status := if regions == [] then 503 else if !answered then 500 else if row.Some? then 409 else 0;
      calls := calls[c := Call(regions, if status == 0 then Trying(0) else Done(status))];
    }

    /** The try block: the row is written, or the allocation is given back. */
    method RecordOrUndo(c: CallId, k: nat, insertion: InsertOutcome, compensated: bool, ghost start: World,
                        ghost past: seq<Event>)
      returns (status: nat, ghost events: seq<Event>)
      requires View() == Run(start, past)
      requires c in calls && calls[c].pc == Allocated(k) && k < |calls[c].regions|
      modifies this
      ensures View() == Run(start, events) && past <= events
      ensures c in calls && calls[c].pc == Done(status)
      ensures status == if insertion == Committed && old(row).None? then 200 else 500
      ensures row == if old(row).None? && insertion != Failed then Some(old(calls[c].regions[k])) else old(row)
      ensures held == if status == 500 && compensated then old(held) - {old(calls[c].regions[k])} else old(held)
    {
      var committed := CreateRow(c, k, insertion, start, past);
      events := past + [Insert(c, insertion)];
      if committed {
        return 200, events;
      }
      DeleteRegional(c, k, compensated, start, events);
      events := events + [Compensate(c, compensated)];
      status := 500;
    }

    /**
     The regions in order until one grants the id: the attempts are exactly the answers, and
     only the last of them can be a grant.
     */
    method TryRegions(c: CallId, regions: seq<Region>, allocations: seq<AllocateOutcome>, ghost start: World,
                      ghost past: seq<Event>)
      returns (attempts: seq<(Region, bool)>, granted: bool, ghost events: seq<Event>)
      requires View() == Run(start, past) && |allocations| == |regions|
      requires c in calls && calls[c] == Call(regions, Next(regions, 0))
      modifies this
      ensures View() == Run(start, events) && row == old(row)
      ensures TruthfulAttempts(old(held.Keys), regions, allocations, attempts) && OnlyLastGrants(attempts)
      ensures if granted then attempts != [] && attempts[|attempts| - 1].1
              else |attempts| == |regions| && (attempts != [] ==> !attempts[|attempts| - 1].1)
      ensures c in calls && calls[c] == Call(regions, if granted then Allocated(|attempts| - 1) else Done(503))
      ensures granted ==> regions[|attempts| - 1] in held
    {
      attempts, granted, events := [], false, past;
      for k := 0 to |regions|
        invariant row == old(row) && |attempts| == k
        invariant c in calls && calls[c] == Call(regions, Next(regions, k))
        invariant View() == Run(start, events)
        invariant TruthfulAttempts(old(held.Keys), regions, allocations, attempts)
        invariant forall i :: 0 <= i < k ==> !attempts[i].1
        invariant held.Keys == HeldBefore(old(held.Keys), regions, allocations, k)
      {
        HeldStep(old(held.Keys), regions, allocations, k);
        granted := AllocateInRegion(c, k, allocations[k], start, events);
        OneMoreAttempt(old(held.Keys), regions, allocations, attempts, granted);
        events := events + [Allocate(c, allocations[k])];
        attempts := attempts + [(regions[k], granted)];
        if granted {
          return;
        }
      }
      granted := false;
    }

    /**
     One uninterrupted call. Its effect is a run of the steps above, its attempts are the
     leading regions of the list with what each answered, and status, row and the granting
     region follow from them.
     */
    method RouteSession(c: CallId, regions: seq<Region>, answered: bool, allocations: seq<AllocateOutcome>,
                        insertion: InsertOutcome, compensated: bool)
      returns (status: nat, attempts: seq<(Region, bool)>, ghost events: seq<Event>)
      requires c !in calls && |allocations| == |regions|
      modifies this
      ensures View() == Run(old(View()), events)
      ensures c in calls && calls[c].pc == Done(status)
      ensures TruthfulAttempts(old(held.Keys), regions, allocations, attempts) && OnlyLastGrants(attempts)
      ensures attempts == [] <==> regions == [] || !answered || old(row).Some?
      ensures var granted := attempts != [] && attempts[|attempts| - 1].1;
              && (attempts != [] && !granted ==> |attempts| == |regions|)
              && (status == 503 <==> regions == [] || (answered && old(row).None? && !granted))
              && (status == 409 <==> regions != [] && answered && old(row).Some?)
              && (status == 200 <==> granted && insertion == Committed)
              && (status == 500 <==> (regions != [] && !answered) || (granted && insertion != Committed))
              && row == (if granted && insertion != Failed then Some(attempts[|attempts| - 1].0) else old(row))
              && (granted ==> (attempts[|attempts| - 1].0 in held <==> !(status == 500 && compensated)))
    {
      ghost var start := View();
      attempts := [];
      status := Admit(c, regions, answered);
      events := [Request(c, regions), Check(c, answered)];
      if status != 0 {
        return;
      }
      var granted;
      attempts, granted, events := TryRegions(c, regions, allocations, start, events);
      if granted {
        status, events := RecordOrUndo(c, |attempts| - 1, insertion, compensated, start, events);
      } else {
        status := 503;
      }
    }
  }
}
