/**
 Extending a session's deadline across Postgres, Redis and the GameServer
 annotation (services/control-plane and services/pool-manager), one extension at
 a time, with a failure possible at every store write and at the regional call.
 */
module TtlExtension {
  import opened Prelude

  /** A deadline in milliseconds; sessions created without one have none. */
  type Deadline = Option<int>

  datatype Stores = Stores(postgres: Deadline, redis: Deadline, annotation: Deadline)

  predicate NoLater(a: Deadline, b: Deadline) {
    a.None? || (b.Some? && a.value <= b.value)
  }

  /** Each store promises at least as much as the one that acts before it. */
  predicate Ordered(s: Stores) {
    NoLater(s.annotation, s.redis) && NoLater(s.redis, s.postgres)
  }

  predicate AllAt(s: Stores, d: Deadline) {
    s.postgres == d && s.redis == d && s.annotation == d
  }

  function NewDeadline(current: Deadline, extendBySeconds: nat, now: int): int {
    (if current.Some? then Max(now, current.value) else now) + extendBySeconds * 1000
  }

  lemma NewDeadlineIsLater(current: Deadline, extendBySeconds: nat, now: int)
    ensures NoLater(current, Some(NewDeadline(current, extendBySeconds, now)))
    ensures extendBySeconds > 0 ==>
            current != Some(NewDeadline(current, extendBySeconds, now))
              && NewDeadline(current, extendBySeconds, now) > now
  {
  }

  /** The extension counts from now or from the old deadline, whichever is later, and to the millisecond. */
  lemma NewDeadlineIsTight(current: Deadline, extendBySeconds: nat, now: int)
    ensures var from := NewDeadline(current, extendBySeconds, now) - extendBySeconds * 1000;
            && now <= from && (current.Some? ==> current.value <= from)
            && (from == now || Some(from) == current)
  {
  }

  /** A write may throw before it has an effect or after it. */
  datatype Write = Done | Failed | ThrewAfter

  datatype Contact = Delivered | NeverArrived | ReplyLost

  datatype Luck = Luck(
    postgresWrite: Write, contact: Contact, found: bool, named: bool,
    redisWrite: Write, patch: Write, redisRollback: Write, postgresRollback: Write)

  /** Failed calls had no effect and rollback writes succeed. */
  predicate Clean(l: Luck) {
    && l.contact != ReplyLost
    && l.postgresWrite != ThrewAfter && l.redisWrite != ThrewAfter && l.patch != ThrewAfter
    && l.redisRollback != Failed && l.postgresRollback != Failed
  }

  /** The regional handler undoes the Redis write only when the patch throws. */
  function UndoRedis(s: Stores, previous: Deadline, rollback: Write): seq<Stores> {
    [s] + if rollback == Failed then [] else [s.(redis := previous)]
  }

  /** Every state the stores pass through in the regional handler, and its status. */
  function Regional(s: Stores, deadline: Deadline, l: Luck): (nat, seq<Stores>) {
    if !l.found then (404, [])
    else if !l.named then (409, [])
    else if l.redisWrite == Failed then (502, [])
    else
      var s1 := s.(redis := deadline);
      var s2 := s1.(annotation := deadline);
      if l.redisWrite == ThrewAfter then (502, [s1])
      else
        match l.patch
        case Done => (200, [s1, s2])
        case Failed => (502, UndoRedis(s1, s.redis, l.redisRollback))
        case ThrewAfter => (502, [s1] + UndoRedis(s2, s.redis, l.redisRollback))
  }

  function Last(s: Stores, trace: seq<Stores>): Stores {
    if trace == [] then s else trace[|trace| - 1]
  }

  /** The same for the whole saga, rollback of the metadata included. */
  function Saga(s: Stores, deadline: Deadline, l: Luck): (nat, seq<Stores>) {
    if l.postgresWrite == Failed then (500, [])
    else
      var s1 := s.(postgres := deadline);
      if l.postgresWrite == ThrewAfter then (500, [s1])
      else
        var (status, remote) := if l.contact == NeverArrived then (502, []) else Regional(s1, deadline, l);
        if status == 200 && l.contact == Delivered then (200, [s1] + remote)
        else
          var reached := Last(s1, remote);
          (502, [s1] + remote + if l.postgresRollback == Failed then [] else [reached.(postgres := s.postgres)])
  }

  /** Every intermediate state keeps the order, and the end is all-new on success and all as before on failure. */
  lemma SagaKeepsOrder(s: Stores, deadline: Deadline, l: Luck)
    requires Ordered(s) && NoLater(s.postgres, deadline) && Clean(l)
    ensures var (status, trace) := Saga(s, deadline, l);
            && (forall i :: 0 <= i < |trace| ==> Ordered(trace[i]))
            && (if status == 200 then AllAt(Last(s, trace), deadline) else Last(s, trace) == s)
  {
  }

  /** Success is reported exactly when every write and the reply succeeded. */
  lemma SagaSucceedsIff(s: Stores, deadline: Deadline, l: Luck)
    ensures Saga(s, deadline, l).0 == 200 <==>
              && l.postgresWrite == Done && l.contact == Delivered && l.found && l.named
              && l.redisWrite == Done && l.patch == Done
  {
  }

  /** Which failure is reported: 500 when the first write threw, 502 for everything later. */
  lemma SagaReports(s: Stores, deadline: Deadline, l: Luck)
    ensures var status := Saga(s, deadline, l).0;
            && (status == 500 <==> l.postgresWrite != Done)
            && (status == 200 || status == 500 || status == 502)
  {
  }

  /** The regional handler's answer: which check or write failed first. */
  lemma RegionalReports(s: Stores, deadline: Deadline, l: Luck)
    ensures var status := Regional(s, deadline, l).0;
            && (status == 404 <==> !l.found) && (status == 409 <==> l.found && !l.named)
            && (status == 200 <==> l.found && l.named && l.redisWrite == Done && l.patch == Done)
            && (status == 502 <==> l.found && l.named && (l.redisWrite != Done || l.patch != Done))
  {
  }

  /** The regional handler starts writing. */
  predicate ReachesRegion(l: Luck) {
    l.postgresWrite == Done && l.contact != NeverArrived && l.found && l.named
  }

  predicate AnnotationMoves(l: Luck) {
    ReachesRegion(l) && l.redisWrite == Done && l.patch != Failed
  }

  predicate RedisMoves(l: Luck) {
    && ReachesRegion(l)
    && match l.redisWrite
       case Failed => false
       case ThrewAfter => true
       case Done => l.patch == Done || l.redisRollback == Failed
  }

  predicate PostgresMoves(l: Luck) {
    match l.postgresWrite
    case Failed => false
    case ThrewAfter => true
    case Done =>
      || l.postgresRollback == Failed
      || (ReachesRegion(l) && l.contact == Delivered && l.redisWrite == Done && l.patch == Done)
  }

  /** With any outcome of every write and of the call: which of the three stores end at the new deadline. */
  lemma SagaEnds(s: Stores, deadline: Deadline, l: Luck)
    ensures Last(s, Saga(s, deadline, l).1) == Stores(
              if PostgresMoves(l) then deadline else s.postgres,
              if RedisMoves(l) then deadline else s.redis,
              if AnnotationMoves(l) then deadline else s.annotation)
  {
  }

  /** A patch that took effect and threw is followed by a Redis rollback, but the annotation has no rollback. */
  predicate LeavesAnnotationAhead(l: Luck) {
    ReachesRegion(l) && l.redisWrite == Done && l.patch == ThrewAfter && l.redisRollback != Failed
  }

  /**
   Postgres was rolled back although Redis had moved: its write threw late, its
   rollback failed, or the reply to a success was lost.
   */
  predicate LeavesRedisAhead(l: Luck) {
    && ReachesRegion(l) && l.postgresRollback != Failed
    && match l.redisWrite
       case Failed => false
       case ThrewAfter => true
       case Done => if l.patch == Done then l.contact == ReplyLost else l.redisRollback == Failed
  }

  /** With any outcome of every write and of the call, the final order is broken exactly in those cases. */
  lemma SagaOrderIff(s: Stores, deadline: Deadline, l: Luck)
    requires AllAt(s, s.postgres) && NoLater(s.postgres, deadline) && s.postgres != deadline
    ensures Ordered(Last(s, Saga(s, deadline, l).1)) <==> !LeavesAnnotationAhead(l) && !LeavesRedisAhead(l)
  {
    SagaEnds(s, deadline, l);
  }

  /** One input for each way of breaking the order. */
  lemma FaultsBreakTheOrder(before: Deadline, deadline: Deadline)
    requires NoLater(before, deadline) && before != deadline
    ensures var s := Stores(before, before, before);
            var patchThrew := Luck(Done, Delivered, true, true, Done, ThrewAfter, Done, Done);
            var redisThrew := Luck(Done, Delivered, true, true, ThrewAfter, Done, Done, Done);
            var undoFailed := Luck(Done, Delivered, true, true, Done, Failed, Failed, Done);
            var replyLost := Luck(Done, ReplyLost, true, true, Done, Done, Done, Done);
            && Last(s, Saga(s, deadline, patchThrew).1) == Stores(before, before, deadline)
            && Last(s, Saga(s, deadline, redisThrew).1) == Stores(before, deadline, before)
            && Last(s, Saga(s, deadline, undoFailed).1) == Stores(before, deadline, before)
            && Last(s, Saga(s, deadline, replyLost).1) == Stores(before, deadline, deadline)
            && !Ordered(Stores(before, before, deadline)) && !Ordered(Stores(before, deadline, before))
            && !Ordered(Stores(before, deadline, deadline))
  {
  }

  // ------------------------------------------------------------- whole histories

  datatype Extension = Extension(now: int, extendBySeconds: nat, luck: Luck)

  /** The checks of the routed handler that precede any write. */
  predicate Admissible(current: Deadline, e: Extension, maxTtlSeconds: nat) {
    0 < e.extendBySeconds <= maxTtlSeconds
      && NewDeadline(current, e.extendBySeconds, e.now) <= e.now + maxTtlSeconds * 1000
  }

  function Extend(s: Stores, e: Extension, maxTtlSeconds: nat): (nat, seq<Stores>) {
    if !Admissible(s.postgres, e, maxTtlSeconds) then (400, [])
    else Saga(s, Some(NewDeadline(s.postgres, e.extendBySeconds, e.now)), e.luck)
  }

  function After(s: Stores, history: seq<Extension>, maxTtlSeconds: nat): Stores
    decreases history
  {
    if history == [] then s
    else After(Last(s, Extend(s, history[0], maxTtlSeconds).1), history[1..], maxTtlSeconds)
  }

  /**
   An extension is refused, with nothing written, exactly when it asks for nothing, for
   more than the maximum, or for a deadline further from now than that; what is not
   refused succeeds if every write and the reply do, and puts all stores at the new deadline.
   */
  lemma ExtensionIsAdmitted(s: Stores, e: Extension, maxTtlSeconds: nat)
    ensures var (status, trace) := Extend(s, e, maxTtlSeconds);
            var remaining := if s.postgres.Some? then Max(0, s.postgres.value - e.now) else 0;
            && (status == 400 <==> e.extendBySeconds == 0 || e.extendBySeconds > maxTtlSeconds
                                   || remaining + e.extendBySeconds * 1000 > maxTtlSeconds * 1000)
            && (status == 400 ==> trace == [])
            && (status != 400 && Saga(s, None, e.luck).0 == 200 ==>
                  status == 200 && AllAt(Last(s, trace), Some(e.now + remaining + e.extendBySeconds * 1000)))
  {
    SagaSucceedsIff(s, None, e.luck);
    SagaSucceedsIff(s, Some(NewDeadline(s.postgres, e.extendBySeconds, e.now)), e.luck);
    SagaEnds(s, Some(NewDeadline(s.postgres, e.extendBySeconds, e.now)), e.luck);
    SagaReports(s, Some(NewDeadline(s.postgres, e.extendBySeconds, e.now)), e.luck);
  }

  /** Over any sequence of extensions the stores agree after each one and the deadline never moves back. */
  lemma {:induction false} HistoryAgrees(s: Stores, history: seq<Extension>, maxTtlSeconds: nat)
    requires AllAt(s, s.postgres)
    requires forall i :: 0 <= i < |history| ==> Clean(history[i].luck)
    ensures var t := After(s, history, maxTtlSeconds);
            AllAt(t, t.postgres) && NoLater(s.postgres, t.postgres)
    decreases history
  {
    if history != [] {
      var e := history[0];
      NewDeadlineIsLater(s.postgres, e.extendBySeconds, e.now);
      if Admissible(s.postgres, e, maxTtlSeconds) {
        SagaKeepsOrder(s, Some(NewDeadline(s.postgres, e.extendBySeconds, e.now)), e.luck);
      }
      HistoryAgrees(Last(s, Extend(s, e, maxTtlSeconds).1), history[1..], maxTtlSeconds);
    }
  }

  // ------------------------------------------------------------- the code's writes

  class SessionStores {
    var postgres: Deadline
    var redis: Deadline
    var annotation: Deadline
    ghost var trace: seq<Stores>

    ghost function View(): Stores
      reads this
    {
      Stores(postgres, redis, annotation)
    }

    method WritePostgres(d: Deadline)
      modifies this`postgres, this`trace
      ensures postgres == d && trace == old(trace) + [View()]
    {
      postgres := d;
      trace := trace + [View()];
    }

    method WriteRedis(d: Deadline)
      modifies this`redis, this`trace
      ensures redis == d && trace == old(trace) + [View()]
    {
      redis := d;
      trace := trace + [View()];
    }

    method WriteAnnotation(d: Deadline)
      modifies this`annotation, this`trace
      ensures annotation == d && trace == old(trace) + [View()]
    {
      annotation := d;
      trace := trace + [View()];
    }

    method ExtendLocalSessionTtl(deadline: Deadline, l: Luck) returns (status: nat)
      modifies this`redis, this`annotation, this`trace
      ensures status == Regional(old(View()), deadline, l).0
      ensures trace == old(trace) + Regional(old(View()), deadline, l).1
      ensures View() == Last(old(View()), Regional(old(View()), deadline, l).1)
    {
      if !l.found {
        return 404;
      }
      if !l.named {
        return 409;
      }
      if l.redisWrite == Failed {
        return 502;
      }
      var previous := redis;
      WriteRedis(deadline);
      if l.redisWrite == ThrewAfter {
        return 502;
      }
      if l.patch != Failed {
        WriteAnnotation(deadline);
      }
      if l.patch != Done {
        if l.redisRollback != Failed {
          WriteRedis(previous);
        }
        return 502;
      }
      status := 200;
    }

    method ExtendRoutedSessionTtl(e: Extension, maxTtlSeconds: nat) returns (status: nat)
      modifies this
      ensures status == Extend(old(View()), e, maxTtlSeconds).0
      ensures trace == old(trace) + Extend(old(View()), e, maxTtlSeconds).1
      ensures View() == Last(old(View()), Extend(old(View()), e, maxTtlSeconds).1)
    {
      var deadline := NewDeadline(postgres, e.extendBySeconds, e.now);
      if e.extendBySeconds == 0 || e.extendBySeconds > maxTtlSeconds || deadline > e.now + maxTtlSeconds * 1000 {
        return 400;
      }
      if e.luck.postgresWrite == Failed {
        return 500;
      }
      var previous := postgres;
      WritePostgres(Some(deadline));
      if e.luck.postgresWrite == ThrewAfter {
        return 500;
      }
      status := 502;
      if e.luck.contact != NeverArrived {
        status := ExtendLocalSessionTtl(Some(deadline), e.luck);
      }
      if status != 200 || e.luck.contact != Delivered {
        status := 502;
        if e.luck.postgresRollback != Failed {
          WritePostgres(previous);
        }
      }
    }
  }
}
