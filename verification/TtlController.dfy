/** The expiry reconciler of services/ttl-controller and how often its timer can fire in vain. */
module TtlController {
  import opened Prelude

  type Time = int

  const EXPIRES_AT := "popcorn.dev/expires-at"
  const LAST_ALLOCATED := "agones.dev/last-allocated"

  datatype ExpiryError = MissingLastAllocated | InvalidExplicitExpiry | InvalidLastAllocated

  datatype Expiry = Expiry(expiry: Time, lastAllocated: Time)

  /** An explicit deadline wins over the allocation time; an empty one counts as absent. */
  function SessionExpiry(annotations: map<string, string>, parse: string -> Option<Time>, fallbackTtl: Time)
    : Result<Expiry, ExpiryError>
  {
    if EXPIRES_AT in annotations && annotations[EXPIRES_AT] != "" then
      match parse(annotations[EXPIRES_AT])
      case None => Err(InvalidExplicitExpiry)
      case Some(t) => Ok(Expiry(t, t - fallbackTtl))
    else if LAST_ALLOCATED !in annotations then Err(MissingLastAllocated)
    else
      match parse(annotations[LAST_ALLOCATED])
      case None => Err(InvalidLastAllocated)
      case Some(t) => Ok(Expiry(t + fallbackTtl, t))
  }

  /** Every parsed deadline lies one fallback period after the time reported as the allocation. */
  lemma ExpiryIsAllocationPlusTtl(annotations: map<string, string>, parse: string -> Option<Time>, fallbackTtl: Time)
    requires SessionExpiry(annotations, parse, fallbackTtl).Ok?
    ensures var e := SessionExpiry(annotations, parse, fallbackTtl).value; e.expiry == e.lastAllocated + fallbackTtl
    ensures EXPIRES_AT in annotations && annotations[EXPIRES_AT] != "" ==>
              parse(annotations[EXPIRES_AT]) == Some(SessionExpiry(annotations, parse, fallbackTtl).value.expiry)
  {
  }

  /** The annotation has a text other than the empty one. */
  predicate Says(annotations: map<string, string>, name: string) {
    name in annotations && annotations[name] != ""
  }

  /**
   `d` is the deadline the annotations give: the explicit one, or without one the
   allocation time and a fallback period.
   */
  predicate DeadlineIs(annotations: map<string, string>, parse: string -> Option<Time>, fallbackTtl: Time, d: Time) {
    if Says(annotations, EXPIRES_AT) then parse(annotations[EXPIRES_AT]) == Some(d)
    else LAST_ALLOCATED in annotations && parse(annotations[LAST_ALLOCATED]) == Some(d - fallbackTtl)
  }

  /** The expiry is the deadline of the annotations; without one, the error says which annotation is at fault. */
  lemma ExpiryIsAnnotated(annotations: map<string, string>, parse: string -> Option<Time>, fallbackTtl: Time, d: Time)
    ensures var r := SessionExpiry(annotations, parse, fallbackTtl);
            && (r.Ok? && r.value.expiry == d <==> DeadlineIs(annotations, parse, fallbackTtl, d))
            && (!Says(annotations, EXPIRES_AT) && LAST_ALLOCATED in annotations && r.Ok? ==>
                  parse(annotations[LAST_ALLOCATED]) == Some(r.value.lastAllocated))
            && (r == Err(InvalidExplicitExpiry) <==>
                  Says(annotations, EXPIRES_AT) && parse(annotations[EXPIRES_AT]).None?)
            && (r == Err(MissingLastAllocated) <==>
                  !Says(annotations, EXPIRES_AT) && LAST_ALLOCATED !in annotations)
  {
    if SessionExpiry(annotations, parse, fallbackTtl).Ok? {
      ExpiryIsAllocationPlusTtl(annotations, parse, fallbackTtl);
    }
  }

  datatype GameServer = GameServer(deleting: bool, isAllocated: bool, annotations: map<string, string>)

  datatype Outcome = Ignore | Delete | RequeueAfter(delay: Time)

  function Reconcile(gs: Option<GameServer>, parse: string -> Option<Time>, fallbackTtl: Time, now: Time): Outcome {
    if gs.None? || gs.value.deleting || !gs.value.isAllocated then Ignore
    else
      match SessionExpiry(gs.value.annotations, parse, fallbackTtl)
      case Err(_) => Ignore
      case Ok(e) => if now >= e.expiry then Delete else RequeueAfter(e.expiry - now)
  }

  /** A delete is never early, a requeue lands exactly on the deadline, and a readable live server is never ignored. */
  lemma ReconcileIsExact(gs: GameServer, parse: string -> Option<Time>, fallbackTtl: Time, now: Time)
    requires SessionExpiry(gs.annotations, parse, fallbackTtl).Ok?
    ensures var e := SessionExpiry(gs.annotations, parse, fallbackTtl).value;
            var out := Reconcile(Some(gs), parse, fallbackTtl, now);
            && (out == Delete <==> gs.isAllocated && !gs.deleting && e.expiry <= now)
            && (out.RequeueAfter? ==> out.delay > 0 && now + out.delay == e.expiry)
            && (out == Ignore <==> gs.deleting || !gs.isAllocated)
  {
  }

  predicate IsLive(gs: Option<GameServer>) {
    gs.Some? && gs.value.isAllocated && !gs.value.deleting
  }

  /**
   From the annotations alone: a pass deletes exactly an allocated live server whose
   deadline is not after now, requeues one with a later deadline for that moment, and
   ignores all others, those with missing or unreadable metadata among them.
   */
  lemma ReconcileFromAnnotations(gs: Option<GameServer>, parse: string -> Option<Time>, fallbackTtl: Time, now: Time)
    ensures var out := Reconcile(gs, parse, fallbackTtl, now);
            && (out == Delete <==>
                  IsLive(gs) && exists d :: d <= now && DeadlineIs(gs.value.annotations, parse, fallbackTtl, d))
            && (forall delay :: out == RequeueAfter(delay) <==>
                  IsLive(gs) && delay > 0 && DeadlineIs(gs.value.annotations, parse, fallbackTtl, now + delay))
            && (out == Ignore <==>
                  !IsLive(gs) || forall d :: !DeadlineIs(gs.value.annotations, parse, fallbackTtl, d))
  {
    if IsLive(gs) {
      var r := SessionExpiry(gs.value.annotations, parse, fallbackTtl);
      forall d ensures r.Ok? && r.value.expiry == d <==> DeadlineIs(gs.value.annotations, parse, fallbackTtl, d) {
        ExpiryIsAnnotated(gs.value.annotations, parse, fallbackTtl, d);
      }
      if r.Ok? {
        assert DeadlineIs(gs.value.annotations, parse, fallbackTtl, r.value.expiry);
        assert now + (r.value.expiry - now) == r.value.expiry;
      }
    }
  }

  /** The reconciler against the cluster it reads and deletes from. */
  class GameServerTTLReconciler {
    const parse: string -> Option<Time>
    const fallbackTtl: Time
    var cluster: map<string, GameServer>

    constructor (parse: string -> Option<Time>, fallbackTtl: Time)
      ensures this.parse == parse && this.fallbackTtl == fallbackTtl && cluster == map[]
    {
      this.parse := parse;
      this.fallbackTtl := fallbackTtl;
      cluster := map[];
    }

    /** One pass; it errs when the read fails for another reason than absence, or when the delete fails. */
    method ReconcileOne(name: string, now: Time, readFails: bool, deleteFails: bool)
      returns (requeueAfter: Option<Time>, failed: bool)
      modifies this
      ensures var seen := if name in old(cluster) then Some(old(cluster)[name]) else None;
              var outcome := if readFails then Ignore else Reconcile(seen, parse, fallbackTtl, now);
              && cluster == (if outcome == Delete && !deleteFails then old(cluster) - {name} else old(cluster))
              && requeueAfter == (if outcome.RequeueAfter? then Some(outcome.delay) else None)
              && (failed <==> readFails || (outcome == Delete && deleteFails))
      ensures cluster != old(cluster) ==>
              && name in old(cluster) && cluster == old(cluster) - {name} && IsLive(Some(old(cluster)[name]))
              && exists d :: d <= now && DeadlineIs(old(cluster)[name].annotations, parse, fallbackTtl, d)
    {
      ReconcileFromAnnotations(if name in cluster then Some(cluster[name]) else None, parse, fallbackTtl, now);
      requeueAfter, failed := None, readFails;
      if readFails || name !in cluster {
        return;
      }
      var gs := cluster[name];
      if gs.deleting || !gs.isAllocated {
        return;
      }
      var e := SessionExpiry(gs.annotations, parse, fallbackTtl);
      if e.Err? {
        return;
      }
      if now >= e.value.expiry {
        failed := deleteFails;
        if !deleteFails {
          cluster := cluster - {name};
        }
        return;
      }
      requeueAfter := Some(e.value.expiry - now);
    }
  }

  // ------------------------------------------------------------------ whole runs

  /**
   An allocated server with readable metadata. `due` is the earliest time a requeue
   still waits for: the work queue keeps one entry per server, the earlier of the two
   when a watch-driven pass requeues again, and takes it out when its timer fires.
   `changes` counts changes of the deadline, `idle` the timer passes that did not
   delete.
   */
  datatype Watch = Watch(gs: GameServer, due: Option<Time>, deleted: bool, changes: nat, idle: nat)

  datatype Event =
    | SetDeadline(annotations: map<string, string>)
    | TimerPass(now: Time)
    | WatchPass(now: Time, deleteFails: bool)

  ghost predicate Readable(gs: GameServer, parse: string -> Option<Time>, ttl: Time) {
    gs.isAllocated && !gs.deleting && SessionExpiry(gs.annotations, parse, ttl).Ok?
  }

  function Deadline(gs: GameServer, parse: string -> Option<Time>, ttl: Time): Time {
    var e := SessionExpiry(gs.annotations, parse, ttl);
    if e.Ok? then e.value.expiry else 0
  }

  lemma DeadlineIsAnnotated(gs: GameServer, parse: string -> Option<Time>, ttl: Time)
    requires Readable(gs, parse, ttl)
    ensures DeadlineIs(gs.annotations, parse, ttl, Deadline(gs, parse, ttl))
  {
    ExpiryIsAnnotated(gs.annotations, parse, ttl, Deadline(gs, parse, ttl));
  }

  /** What a pass does to a server whose earliest waiting requeue is `waiting`. */
  function Pass(w: Watch, waiting: Option<Time>, now: Time, parse: string -> Option<Time>, ttl: Time): Watch {
    match Reconcile(Some(w.gs), parse, ttl, now)
    case Ignore => w.(due := waiting)
    case Delete => w.(deleted := true)
    case RequeueAfter(delay) => w.(due := Some(if waiting.Some? then Min(waiting.value, now + delay) else now + delay))
  }

  function Step(w: Watch, e: Event, parse: string -> Option<Time>, ttl: Time): Watch {
    if w.deleted then w
    else
      match e
      case SetDeadline(annotations) => w.(gs := w.gs.(annotations := annotations), changes := w.changes + 1)
      case TimerPass(now) =>
        var t := Pass(w, None, now, parse, ttl);
        if t.deleted then t else t.(idle := w.idle + 1)
      case WatchPass(now, deleteFails) =>
        var t := Pass(w, w.due, now, parse, ttl);
        if t.deleted && deleteFails then w else t
  }

  function Run(w: Watch, events: seq<Event>, parse: string -> Option<Time>, ttl: Time): Watch
    decreases events
  {
    if events == [] then w else Run(Step(w, events[0], parse, ttl), events[1..], parse, ttl)
  }

  /** A due pass deletes unless the delete call fails; any other waits for the deadline, or for an earlier requeue. */
  lemma PassesAnswer(w: Watch, now: Time, deleteFails: bool, parse: string -> Option<Time>, ttl: Time)
    requires Readable(w.gs, parse, ttl) && !w.deleted
    ensures var due := Deadline(w.gs, parse, ttl);
            var timed, watched := Step(w, TimerPass(now), parse, ttl), Step(w, WatchPass(now, deleteFails), parse, ttl);
            var earlier := if w.due.Some? && w.due.value < due then w.due.value else due;
            && timed == (if due <= now then w.(deleted := true) else w.(due := Some(due), idle := w.idle + 1))
            && watched == (if now < due then w.(due := Some(earlier))
                           else if deleteFails then w else w.(deleted := true))
    ensures forall e :: Step(w.(deleted := true), e, parse, ttl) == w.(deleted := true)
  {
    ReconcileIsExact(w.gs, parse, ttl, now);
  }

  /** A timer fires no earlier than the earliest waiting requeue, and every annotation written is readable. */
  ghost predicate Honoured(w: Watch, e: Event, parse: string -> Option<Time>, ttl: Time) {
    && (e.TimerPass? ==> w.due.Some? ==> w.due.value <= e.now)
    && (e.SetDeadline? ==> SessionExpiry(e.annotations, parse, ttl).Ok?)
  }

  ghost predicate HonouredRun(w: Watch, events: seq<Event>, parse: string -> Option<Time>, ttl: Time)
    decreases events
  {
    events != [] ==>
      && Honoured(w, events[0], parse, ttl)
      && HonouredRun(Step(w, events[0], parse, ttl), events[1..], parse, ttl)
  }

  /** As long as no change has come since the last requeue, the timer is due at the deadline. */
  ghost predicate Inv(w: Watch, parse: string -> Option<Time>, ttl: Time) {
    && Readable(w.gs, parse, ttl)
    && w.idle <= w.changes + 1
    && (w.idle == w.changes + 1 ==> w.due == Some(Deadline(w.gs, parse, ttl)))
  }

  lemma StepKeepsInv(w: Watch, e: Event, parse: string -> Option<Time>, ttl: Time)
    requires Inv(w, parse, ttl) && Honoured(w, e, parse, ttl)
    ensures Inv(Step(w, e, parse, ttl), parse, ttl)
  {
    ReconcileIsExact(w.gs, parse, ttl, if e.SetDeadline? then 0 else e.now);
  }

  lemma {:induction false} RunKeepsInv(w: Watch, events: seq<Event>, parse: string -> Option<Time>, ttl: Time)
    requires Inv(w, parse, ttl) && HonouredRun(w, events, parse, ttl)
    ensures Inv(Run(w, events, parse, ttl), parse, ttl)
    decreases events
  {
    if events != [] {
      StepKeepsInv(w, events[0], parse, ttl);
      RunKeepsInv(Step(w, events[0], parse, ttl), events[1..], parse, ttl);
    }
  }

  /**
   However deadline changes, watch-driven passes and timer passes interleave, k
   changes allow at most k + 1 timer passes that do not delete.
   */
  lemma IdlePassesBounded(gs: GameServer, events: seq<Event>, parse: string -> Option<Time>, ttl: Time)
    requires Readable(gs, parse, ttl) && HonouredRun(Watch(gs, None, false, 0, 0), events, parse, ttl)
    ensures var t := Run(Watch(gs, None, false, 0, 0), events, parse, ttl); t.idle <= t.changes + 1
  {
    RunKeepsInv(Watch(gs, None, false, 0, 0), events, parse, ttl);
  }

  predicate Passes(events: seq<Event>) {
    forall i :: 0 <= i < |events| ==> !events[i].SetDeadline?
  }

  /** Between two timer passes without a change of deadline the second one deletes. */
  lemma {:induction false} NextTimerDeletes(w: Watch, first: Time, between: seq<Event>, second: Time,
                                            parse: string -> Option<Time>, ttl: Time)
    requires Readable(w.gs, parse, ttl) && !w.deleted && Passes(between)
    requires var w1 := Step(w, TimerPass(first), parse, ttl);
             && !w1.deleted && HonouredRun(w1, between, parse, ttl)
             && Honoured(Run(w1, between, parse, ttl), TimerPass(second), parse, ttl)
    ensures Step(Run(Step(w, TimerPass(first), parse, ttl), between, parse, ttl), TimerPass(second), parse, ttl).deleted
  {
    ReconcileIsExact(w.gs, parse, ttl, first);
    var w1 := Step(w, TimerPass(first), parse, ttl);
    DueStaysAtDeadline(w1, between, parse, ttl);
    ReconcileIsExact(w.gs, parse, ttl, second);
  }

  lemma {:induction false} DueStaysAtDeadline(w: Watch, between: seq<Event>, parse: string -> Option<Time>, ttl: Time)
    requires Readable(w.gs, parse, ttl) && Passes(between)
    requires w.due == Some(Deadline(w.gs, parse, ttl))
    ensures var t := Run(w, between, parse, ttl); t.gs == w.gs && t.due == w.due
    decreases between
  {
    if between != [] {
      ReconcileIsExact(w.gs, parse, ttl, between[0].now);
      DueStaysAtDeadline(Step(w, between[0], parse, ttl), between[1..], parse, ttl);
    }
  }

  /**
   The usual idle pass: the deadline moves, the watch pass that follows requeues for
   the new one, and the timer of the old one still fires and finds nothing to delete.
   So the bound of `IdlePassesBounded` is reached.
   */
  lemma ExtensionCostsAPass(w: Watch, later: map<string, string>, seen: Time, parse: string -> Option<Time>, ttl: Time)
    requires Readable(w.gs, parse, ttl) && !w.deleted && w.due == Some(Deadline(w.gs, parse, ttl))
    requires SessionExpiry(later, parse, ttl).Ok?
             && seen < Deadline(w.gs, parse, ttl) < SessionExpiry(later, parse, ttl).value.expiry
    ensures var before := Deadline(w.gs, parse, ttl);
            var events := [SetDeadline(later), WatchPass(seen, false), TimerPass(before)];
            var t := Run(w, events, parse, ttl);
            && HonouredRun(w, events, parse, ttl)
            && !t.deleted && t.idle == w.idle + 1 && t.changes == w.changes + 1
            && t.due == Some(SessionExpiry(later, parse, ttl).value.expiry)
  {
    var before := Deadline(w.gs, parse, ttl);
    var w1 := Step(w, SetDeadline(later), parse, ttl);
    ReconcileIsExact(w1.gs, parse, ttl, seen);
    assert Step(w1, WatchPass(seen, false), parse, ttl) == w1;
    ReconcileIsExact(w1.gs, parse, ttl, before);
    RunThree(w, SetDeadline(later), WatchPass(seen, false), TimerPass(before), parse, ttl);
  }

  lemma RunThree(w: Watch, a: Event, b: Event, c: Event, parse: string -> Option<Time>, ttl: Time)
    ensures var w1 := Step(w, a, parse, ttl);
            var w2 := Step(w1, b, parse, ttl);
            && Run(w, [a, b, c], parse, ttl) == Step(w2, c, parse, ttl)
            && (HonouredRun(w, [a, b, c], parse, ttl) <==>
                Honoured(w, a, parse, ttl) && Honoured(w1, b, parse, ttl) && Honoured(w2, c, parse, ttl))
  {
    assert [a, b, c] == [a] + [b, c] && [b, c] == [b] + [c] && [c] == [c] + [];
    RunFirst(w, a, [b, c], parse, ttl);
    RunFirst(Step(w, a, parse, ttl), b, [c], parse, ttl);
    RunFirst(Step(Step(w, a, parse, ttl), b, parse, ttl), c, [], parse, ttl);
  }

  lemma RunFirst(w: Watch, e: Event, rest: seq<Event>, parse: string -> Option<Time>, ttl: Time)
    ensures Run(w, [e] + rest, parse, ttl) == Run(Step(w, e, parse, ttl), rest, parse, ttl)
    ensures HonouredRun(w, [e] + rest, parse, ttl) <==>
              Honoured(w, e, parse, ttl) && HonouredRun(Step(w, e, parse, ttl), rest, parse, ttl)
  {
    assert ([e] + rest)[1..] == rest;
  }

  /** A pass that deletes was issued at or after the deadline it read. */
  lemma DeletingPassIsLate(w: Watch, e: Event, parse: string -> Option<Time>, ttl: Time)
    requires Readable(w.gs, parse, ttl) && !w.deleted && Step(w, e, parse, ttl).deleted
    ensures !e.SetDeadline? && Deadline(w.gs, parse, ttl) <= e.now
  {
    if !e.SetDeadline? {
      ReconcileIsExact(w.gs, parse, ttl, e.now);
    }
  }

  /** The `i`-th event is a pass issued at or after the deadline the server had by then. */
  ghost predicate LateAt(w: Watch, events: seq<Event>, i: nat, parse: string -> Option<Time>, ttl: Time)
    requires i < |events|
  {
    var before := Run(w, events[..i], parse, ttl);
    !before.deleted && !events[i].SetDeadline? && Deadline(before.gs, parse, ttl) <= events[i].now
  }

  /**
   A server found deleted after any run was deleted by one pass of it, issued no earlier
   than the deadline in force when that pass read the server, whatever was set before.
   */
  lemma {:induction false} DeletesOnTime(w: Watch, events: seq<Event>, parse: string -> Option<Time>, ttl: Time)
    requires Inv(w, parse, ttl) && HonouredRun(w, events, parse, ttl)
    requires !w.deleted && Run(w, events, parse, ttl).deleted
    ensures exists i :: 0 <= i < |events| && LateAt(w, events, i, parse, ttl)
    decreases events
  {
    var next := Step(w, events[0], parse, ttl);
    assert events[..0] == [];
    if next.deleted {
      DeletingPassIsLate(w, events[0], parse, ttl);
      assert LateAt(w, events, 0, parse, ttl);
    } else {
      StepKeepsInv(w, events[0], parse, ttl);
      DeletesOnTime(next, events[1..], parse, ttl);
      var i :| 0 <= i < |events| - 1 && LateAt(next, events[1..], i, parse, ttl);
      assert events[..i + 1] == [events[0]] + events[1..][..i];
      RunFirst(w, events[0], events[1..][..i], parse, ttl);
      assert LateAt(w, events, i + 1, parse, ttl);
    }
  }
}
