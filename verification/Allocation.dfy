/**
 Concurrent allocations in one pool manager (services/pool-manager), down to the
 Redis commands of session creation, with a failure possible at every await, and
 concurrent kills of recorded sessions, extensions that read a record and write it
 back whole, and reclaims of expired records.

 The fleet never hands out a server twice. `stranded` and `asked` are history:
 servers taken by an allocation request that then threw, and servers some call or
 kill has asked to shut down.
 */
module Allocation {
  import opened Prelude

  type SessionId = nat
  type Server = nat
  type CallId = nat
  type KillId = nat
  type UpdateId = nat

  datatype Pc =
    | Checking        // before DB.sessionExists
    | Preparing       // awaits before the fleet is asked
    | Configuring     // a server is held; awaits before the record
    | Creating        // before HSETNX
    | Routing         // record visible, route keys being written
    | RollingBack     // route keys failed, HDEL pending
    | Created         // createSession returned true
    | CleaningRecord  // catch block with sessionCreated set
    | ShuttingDown    // catch block, server to be shut down
    | Done(ok: bool)

  datatype Call = Call(id: SessionId, server: Option<Server>, sessionCreated: bool, pc: Pc)

  datatype Kill = Kill(id: SessionId, server: Server, shutDown: bool, finished: bool)

  /** A record an extension has read and will write back, again if the writes that follow fail. */
  datatype Update = Update(id: SessionId, server: Server)

  datatype World = World(
    records: map<SessionId, Server>,
    taken: map<Server, CallId>,
    asked: set<Server>,
    stranded: set<Server>,
    calls: map<CallId, Call>,
    kills: map<KillId, Kill>,
    updates: map<UpdateId, Update>)

  datatype FleetReply = Returned | Refused | ThrewAfterTaking

  datatype SetReply = Replied | ThrewBefore | ThrewAfter

  datatype Event =
    | Request(c: CallId, id: SessionId, requested: bool)
    | Exists(c: CallId, ok: bool)
    | Prepare(c: CallId, ok: bool)
    | Allocate(c: CallId, server: Server, fleet: FleetReply)
    | Configure(c: CallId, ok: bool)
    | SetNx(c: CallId, reply: SetReply)
    | WriteRoutes(c: CallId, ok: bool)
    | Rollback(c: CallId, ok: bool)
    | Tail(c: CallId, ok: bool)
    | CleanRecord(c: CallId, ok: bool)
    | Shutdown(c: CallId)
    | Outside(o: OutsideEvent)

  datatype OutsideEvent =
    | KillRead(k: KillId, killed: SessionId)
    | KillShutdown(k: KillId)
    | KillDelete(k: KillId)
    | UpdateRead(u: UpdateId, extended: SessionId)
    | UpdateWrite(u: UpdateId)
    | Reclaim(expired: SessionId)

  /** The catch block: no server, nothing to undo; otherwise the record first if it was created. */
  function Catch(call: Call): Call {
    call.(pc := if call.server.None? then Done(false) else if call.sessionCreated then CleaningRecord else ShuttingDown)
  }

  function Put(w: World, c: CallId, call: Call): World {
    w.(calls := w.calls[c := call])
  }

  function AllocateStep(w: World, c: CallId, call: Call, server: Server, fleet: FleetReply): World {
    if fleet == Refused || server in w.taken then Put(w, c, Catch(call))
    else if fleet == Returned then
      Put(w.(taken := w.taken[server := c]), c, call.(server := Some(server), pc := Configuring))
    else Put(w.(taken := w.taken[server := c], stranded := w.stranded + {server}), c, Catch(call))
  }

  function SetNxStep(w: World, c: CallId, call: Call, server: Server, reply: SetReply): World {
    if reply == ThrewBefore || call.id in w.records then Put(w, c, Catch(call))
    else
      var stored := w.(records := w.records[call.id := server]);
      Put(stored, c, if reply == Replied then call.(pc := Routing) else Catch(call))
  }

  /** A step for which the call is not at the matching await changes nothing. */
  function CallStep(w: World, e: Event, c: CallId, call: Call): World {
    match call.pc
    case Checking =>
      if e.Exists? then Put(w, c, call.(pc := if e.ok && call.id !in w.records then Preparing else Done(false))) else w
    case Preparing =>
      if e.Allocate? then AllocateStep(w, c, call, e.server, e.fleet)
      else if e.Prepare? && !e.ok then Put(w, c, Catch(call))
      else w
    case Configuring => if e.Configure? then Put(w, c, if e.ok then call.(pc := Creating) else Catch(call)) else w
    case Creating => if e.SetNx? && call.server.Some? then SetNxStep(w, c, call, call.server.value, e.reply) else w
    case Routing =>
      if e.WriteRoutes? then
        Put(w, c, if e.ok then call.(sessionCreated := true, pc := Created) else call.(pc := RollingBack))
      else w
    case RollingBack =>
      if e.Rollback? then Put(if e.ok then w.(records := w.records - {call.id}) else w, c, Catch(call)) else w
    case Created => if e.Tail? then Put(w, c, if e.ok then call.(pc := Done(true)) else Catch(call)) else w
    case CleaningRecord =>
      if e.CleanRecord? then
        Put(if e.ok then w.(records := w.records - {call.id}) else w, c, call.(pc := ShuttingDown))
      else w
    case ShuttingDown =>
      if e.Shutdown? then
        Put(if call.server.Some? then w.(asked := w.asked + {call.server.value}) else w, c, call.(pc := Done(false)))
      else w
    case Done(_) => w
  }

  /** Everything that is not a step of an allocation. */
  function OutsideStep(w: World, o: OutsideEvent): World {
    match o
    case KillRead(k, id) =>
      if k in w.kills || id !in w.records then w else w.(kills := w.kills[k := Kill(id, w.records[id], false, false)])
    case KillShutdown(k) =>
      if k !in w.kills || w.kills[k].shutDown then w
      else w.(asked := w.asked + {w.kills[k].server}, kills := w.kills[k := w.kills[k].(shutDown := true)])
    case KillDelete(k) =>
      if k !in w.kills || !w.kills[k].shutDown || w.kills[k].finished then w
      else w.(records := w.records - {w.kills[k].id}, kills := w.kills[k := w.kills[k].(finished := true)])
    case UpdateRead(u, id) =>
      if u in w.updates || id !in w.records then w else w.(updates := w.updates[u := Update(id, w.records[id])])
    case UpdateWrite(u) =>
      if u !in w.updates then w
      else w.(records := w.records[w.updates[u].id := w.updates[u].server])
    case Reclaim(id) => w.(records := w.records - {id})
  }

  function Step(w: World, e: Event): World {
    if e.Outside? then OutsideStep(w, e.o)
    else if e.Request? then
      if e.c in w.calls then w else Put(w, e.c, Call(e.id, None, false, if e.requested then Checking else Preparing))
    else if e.c in w.calls then CallStep(w, e, e.c, w.calls[e.c])
    else w
  }

  function Run(w: World, events: seq<Event>): World
    decreases events
  {
    if events == [] then w else Run(Step(w, events[0]), events[1..])
  }

  const START := World(map[], map[], {}, {}, map[], map[], map[])

  // ------------------------------------------------------------------ invariants

  predicate HoldsServer(pc: Pc) {
    pc != Checking && pc != Preparing && !pc.Done?
  }

  predicate CallOk(w: World, c: CallId)
    requires c in w.calls
  {
    var call := w.calls[c];
    && (call.server.Some? ==>
       call.server.value in w.taken && w.taken[call.server.value] == c && call.server.value !in w.stranded)
    && (HoldsServer(call.pc) ==> call.server.Some?)
    && (call.pc == Checking || call.pc == Preparing ==> call.server.None?)
    && (call.pc == Done(false) && call.server.Some? ==> call.server.value in w.asked)
  }

  predicate ServerOk(w: World, s: Server)
    requires s in w.taken
  {
    w.taken[s] in w.calls && (s !in w.stranded ==> w.calls[w.taken[s]].server == Some(s))
  }

  predicate RecordOk(w: World, id: SessionId)
    requires id in w.records
  {
    w.records[id] in w.taken && w.taken[w.records[id]] in w.calls && w.calls[w.taken[w.records[id]]].id == id
  }

  /** An extension writes back a record of the id it read, for a server taken under that id. */
  predicate UpdateOk(w: World, u: UpdateId)
    requires u in w.updates
  {
    && w.updates[u].server in w.taken && w.taken[w.updates[u].server] in w.calls
    && w.calls[w.taken[w.updates[u].server]].id == w.updates[u].id
  }

  /** Who took what: survives everything from outside too. */
  ghost predicate Provenance(w: World) {
    && w.stranded <= w.taken.Keys
    && (forall c :: c in w.calls ==> CallOk(w, c))
    && (forall s :: s in w.taken ==> ServerOk(w, s))
    && (forall id :: id in w.records ==> RecordOk(w, id))
    && (forall u :: u in w.updates ==> UpdateOk(w, u))
  }

  /** What one step can do to the maps, whoever takes it. */
  ghost predicate Grows(w: World, t: World) {
    && (forall s :: s in w.taken ==> s in t.taken && t.taken[s] == w.taken[s])
    && w.asked <= t.asked
    && (forall s :: s in t.stranded && s !in w.stranded ==> s !in w.taken)
    && w.stranded <= t.stranded
    && (forall c :: c in w.calls ==> c in t.calls && t.calls[c].id == w.calls[c].id)
  }

  // A call's step, seen from outside: which fields it may touch and when.

  predicate LocalTo(w: World, t: World, c: CallId) {
    && c in w.calls && c in t.calls && t.calls == w.calls[c := t.calls[c]]
    && t.kills == w.kills && t.updates == w.updates && t.calls[c].id == w.calls[c].id
    && (w.calls[c].pc.Done? ==> t.calls[c] == w.calls[c])
  }

  predicate Acquires(w: World, t: World, c: CallId, server: Server)
    requires c in w.calls && c in t.calls
  {
    && server !in w.taken && w.calls[c].pc == Preparing && t.taken == w.taken[server := c] && t.asked == w.asked
    && if t.stranded == w.stranded then t.calls[c] == w.calls[c].(server := Some(server), pc := Configuring)
       else t.stranded == w.stranded + {server} && t.calls[c] == Catch(w.calls[c])
  }

  predicate KeepsServers(w: World, t: World, c: CallId)
    requires c in w.calls && c in t.calls
  {
    var was, now := w.calls[c], t.calls[c];
    && t.taken == w.taken && t.stranded == w.stranded && now.server == was.server
    && (HoldsServer(now.pc) ==> HoldsServer(was.pc))
    && (now.pc == Checking || now.pc == Preparing ==> was.pc == Checking || was.pc == Preparing)
    && (now.pc == Done(false) && now.server.Some? ==>
       was.pc == now.pc || was.pc == Checking || was.pc == Preparing || now.server.value in t.asked)
    && (t.asked == w.asked
       || (now.pc == Done(false) && was.server.Some? && t.asked == w.asked + {was.server.value}))
  }

  ghost predicate ServerEffect(w: World, t: World, c: CallId)
    requires c in w.calls && c in t.calls
  {
    KeepsServers(w, t, c) || exists server :: Acquires(w, t, c, server)
  }

  /** Created, and still to be undone if the call fails. */
  predicate FlagOk(call: Call) {
    call.sessionCreated ==> call.pc == Created || call.pc == CleaningRecord || call.pc == ShuttingDown || call.pc.Done?
  }

  ghost predicate RecordEffect(w: World, t: World, c: CallId)
    requires c in w.calls && c in t.calls
  {
    var was, now := w.calls[c], t.calls[c];
    var stores := && was.pc == Creating && was.server.Some? && was.id !in w.records
                  && t.records == w.records[was.id := was.server.value];
    && (t.records == w.records || stores
       || ((was.pc == RollingBack || was.pc == CleaningRecord) && t.records == w.records - {was.id}))
    && (FlagOk(was) && RecordStands(now.pc) ==>
       now.server == was.server && (stores || (RecordStands(was.pc) && t.records == w.records)))
    && (FlagOk(was) ==> FlagOk(now))
  }

  predicate Early(e: Event) {
    e.Exists? || e.Prepare? || e.Configure? || e.WriteRoutes?
  }

  predicate Late(e: Event) {
    e.Rollback? || e.Tail? || e.CleanRecord? || e.Shutdown?
  }

  lemma EarlyStepIsLocal(w: World, e: Event, c: CallId)
    requires c in w.calls && Early(e)
    ensures LocalTo(w, CallStep(w, e, c, w.calls[c]), c)
  {
    assert w.calls == w.calls[c := w.calls[c]];
  }

  lemma LateStepIsLocal(w: World, e: Event, c: CallId)
    requires c in w.calls && Late(e)
    ensures LocalTo(w, CallStep(w, e, c, w.calls[c]), c)
  {
    assert w.calls == w.calls[c := w.calls[c]];
  }

  lemma AllocateStepIsLocal(w: World, c: CallId, server: Server, fleet: FleetReply)
    requires c in w.calls && w.calls[c].pc == Preparing
    ensures LocalTo(w, AllocateStep(w, c, w.calls[c], server, fleet), c)
  {
  }

  lemma SetNxStepIsLocal(w: World, c: CallId, server: Server, reply: SetReply)
    requires c in w.calls && w.calls[c].pc == Creating
    ensures LocalTo(w, SetNxStep(w, c, w.calls[c], server, reply), c)
  {
  }

  lemma CallStepIsLocal(w: World, e: Event, c: CallId)
    requires c in w.calls
    ensures LocalTo(w, CallStep(w, e, c, w.calls[c]), c)
  {
    if Early(e) {
      EarlyStepIsLocal(w, e, c);
    } else if Late(e) {
      LateStepIsLocal(w, e, c);
    } else if e.Allocate? && w.calls[c].pc == Preparing {
      AllocateStepIsLocal(w, c, e.server, e.fleet);
    } else if e.SetNx? && w.calls[c].pc == Creating && w.calls[c].server.Some? {
      SetNxStepIsLocal(w, c, w.calls[c].server.value, e.reply);
    } else {
      assert w.calls == w.calls[c := w.calls[c]];
    }
  }

  lemma EarlyStepServers(w: World, e: Event, c: CallId)
    requires c in w.calls && CallOk(w, c) && Early(e)
    ensures var t := CallStep(w, e, c, w.calls[c]); c in t.calls && KeepsServers(w, t, c)
  {
    var t := CallStep(w, e, c, w.calls[c]);
    assert t.taken == w.taken && t.stranded == w.stranded && t.asked == w.asked;
    assert t.calls[c].server == w.calls[c].server;
  }

  lemma EarlyStepRecords(w: World, e: Event, c: CallId)
    requires c in w.calls && CallOk(w, c) && Early(e)
    ensures var t := CallStep(w, e, c, w.calls[c]); c in t.calls && RecordEffect(w, t, c)
  {
  }

  lemma LateStepServers(w: World, e: Event, c: CallId)
    requires c in w.calls && CallOk(w, c) && Late(e)
    ensures var t := CallStep(w, e, c, w.calls[c]); c in t.calls && KeepsServers(w, t, c)
  {
    var t := CallStep(w, e, c, w.calls[c]);
    assert t.taken == w.taken && t.stranded == w.stranded;
    assert t.calls[c].server == w.calls[c].server;
  }

  lemma LateStepRecords(w: World, e: Event, c: CallId)
    requires c in w.calls && CallOk(w, c) && Late(e)
    ensures var t := CallStep(w, e, c, w.calls[c]); c in t.calls && RecordEffect(w, t, c)
  {
  }

  lemma AllocateStepEffects(w: World, c: CallId, server: Server, fleet: FleetReply)
    requires c in w.calls && CallOk(w, c) && w.stranded <= w.taken.Keys && w.calls[c].pc == Preparing
    ensures var t := AllocateStep(w, c, w.calls[c], server, fleet);
            c in t.calls && ServerEffect(w, t, c) && RecordEffect(w, t, c)
  {
    if fleet != Refused && server !in w.taken {
      assert Acquires(w, AllocateStep(w, c, w.calls[c], server, fleet), c, server);
    }
  }

  lemma SetNxStepEffects(w: World, c: CallId, server: Server, reply: SetReply)
    requires c in w.calls && CallOk(w, c) && w.calls[c].pc == Creating && w.calls[c].server == Some(server)
    ensures var t := SetNxStep(w, c, w.calls[c], server, reply);
            c in t.calls && ServerEffect(w, t, c) && RecordEffect(w, t, c)
  {
  }

  lemma CallStepEffects(w: World, e: Event, c: CallId)
    requires c in w.calls && CallOk(w, c) && w.stranded <= w.taken.Keys
    ensures var t := CallStep(w, e, c, w.calls[c]); c in t.calls && ServerEffect(w, t, c) && RecordEffect(w, t, c)
  {
    if Early(e) {
      EarlyStepServers(w, e, c);
      EarlyStepRecords(w, e, c);
    } else if Late(e) {
      LateStepServers(w, e, c);
      LateStepRecords(w, e, c);
    } else if e.Allocate? && w.calls[c].pc == Preparing {
      AllocateStepEffects(w, c, e.server, e.fleet);
    } else if e.SetNx? && w.calls[c].pc == Creating {
      SetNxStepEffects(w, c, w.calls[c].server.value, e.reply);
    }
  }

  lemma EffectGrows(w: World, t: World, c: CallId)
    requires LocalTo(w, t, c) && ServerEffect(w, t, c)
    ensures Grows(w, t)
  {
  }

  lemma EffectCallOk(w: World, t: World, c: CallId)
    requires Provenance(w) && LocalTo(w, t, c) && ServerEffect(w, t, c)
    ensures CallOk(t, c)
  {
    assert CallOk(w, c);
  }

  lemma EffectServerOk(w: World, t: World, c: CallId, s: Server)
    requires Provenance(w) && LocalTo(w, t, c) && ServerEffect(w, t, c) && s in t.taken
    ensures ServerOk(t, s)
  {
    assert CallOk(w, c);
    if s in w.taken {
      assert ServerOk(w, s) && CallOk(w, w.taken[s]);
    }
  }

  lemma EffectRecordOk(w: World, t: World, c: CallId, id: SessionId)
    requires Provenance(w) && LocalTo(w, t, c) && RecordEffect(w, t, c) && Grows(w, t) && id in t.records
    ensures RecordOk(t, id)
  {
    assert CallOk(w, c);
    if id in w.records {
      assert RecordOk(w, id);
    }
  }

  lemma EffectKeepsProvenance(w: World, t: World, c: CallId)
    requires Provenance(w) && LocalTo(w, t, c) && ServerEffect(w, t, c) && RecordEffect(w, t, c) && Grows(w, t)
    ensures Provenance(t)
  {
    forall d | d in t.calls ensures CallOk(t, d) {
      if d == c {
        EffectCallOk(w, t, c);
      } else {
        EffectOtherCallOk(w, t, c, d);
      }
    }
    forall s | s in t.taken ensures ServerOk(t, s) {
      EffectServerOk(w, t, c, s);
    }
    forall id | id in t.records ensures RecordOk(t, id) {
      EffectRecordOk(w, t, c, id);
    }
  }

  lemma EffectOtherCallOk(w: World, t: World, c: CallId, d: CallId)
    requires Provenance(w) && LocalTo(w, t, c) && ServerEffect(w, t, c) && Grows(w, t) && d in t.calls && d != c
    ensures CallOk(t, d)
  {
    assert CallOk(w, d) && t.calls[d] == w.calls[d];
  }

  lemma OutsideRecordOk(w: World, o: OutsideEvent, id: SessionId)
    requires Provenance(w) && id in OutsideStep(w, o).records
    ensures RecordOk(OutsideStep(w, o), id)
  {
    if o.UpdateWrite? && o.u in w.updates && id == w.updates[o.u].id {
      assert UpdateOk(w, o.u);
    } else {
      assert RecordOk(w, id);
    }
  }

  lemma OutsideUpdateOk(w: World, o: OutsideEvent, u: UpdateId)
    requires Provenance(w) && u in OutsideStep(w, o).updates
    ensures UpdateOk(OutsideStep(w, o), u)
  {
    if u in w.updates {
      assert UpdateOk(w, u);
    } else {
      assert RecordOk(w, o.extended);
    }
  }

  lemma OutsideKeepsProvenance(w: World, o: OutsideEvent)
    requires Provenance(w)
    ensures Provenance(OutsideStep(w, o))
  {
    var t := OutsideStep(w, o);
    assert t.taken == w.taken && t.calls == w.calls && t.stranded == w.stranded && w.asked <= t.asked;
    forall id | id in t.records ensures RecordOk(t, id) {
      OutsideRecordOk(w, o, id);
    }
    forall u | u in t.updates ensures UpdateOk(t, u) {
      OutsideUpdateOk(w, o, u);
    }
    forall c | c in t.calls ensures CallOk(t, c) {
      assert CallOk(w, c);
    }
    forall s | s in t.taken ensures ServerOk(t, s) {
      assert ServerOk(w, s);
    }
  }

  lemma RequestKeepsProvenance(w: World, c: CallId, call: Call)
    requires Provenance(w) && c !in w.calls && call.server.None? && (call.pc == Checking || call.pc == Preparing)
    ensures Provenance(Put(w, c, call))
  {
    var t := Put(w, c, call);
    forall d | d in t.calls ensures CallOk(t, d) {
      assert d in w.calls ==> CallOk(w, d);
    }
    forall s | s in t.taken ensures ServerOk(t, s) {
      assert ServerOk(w, s);
    }
    forall id | id in t.records ensures RecordOk(t, id) {
      assert RecordOk(w, id);
    }
  }

  lemma StepKeepsProvenance(w: World, e: Event)
    requires Provenance(w)
    ensures Provenance(Step(w, e))
  {
    if e.Outside? {
      OutsideKeepsProvenance(w, e.o);
    } else if e.Request? {
      if e.c !in w.calls {
        RequestKeepsProvenance(w, e.c, Call(e.id, None, false, if e.requested then Checking else Preparing));
      }
    } else if e.c in w.calls {
      CallStepIsLocal(w, e, e.c);
      CallStepEffects(w, e, e.c);
      EffectGrows(w, CallStep(w, e, e.c, w.calls[e.c]), e.c);
      EffectKeepsProvenance(w, CallStep(w, e, e.c, w.calls[e.c]), e.c);
    }
  }

  lemma {:induction false} RunKeepsProvenance(w: World, events: seq<Event>)
    requires Provenance(w)
    ensures Provenance(Run(w, events))
    decreases events
  {
    if events != [] {
      StepKeepsProvenance(w, events[0]);
      RunKeepsProvenance(Step(w, events[0]), events[1..]);
    }
  }

  /** No two session records ever name the same server, whatever faults, kills, extensions and reclaims come. */
  lemma RecordsNameDistinctServers(events: seq<Event>, a: SessionId, b: SessionId)
    requires a in Run(START, events).records && b in Run(START, events).records
    requires Run(START, events).records[a] == Run(START, events).records[b]
    ensures a == b
  {
    RunKeepsProvenance(START, events);
  }

  /** Nobody knows a stranded server: no record, kill or extension has it, and nobody has asked to shut it down. */
  ghost predicate StrandedUnknown(w: World) {
    && w.asked <= w.taken.Keys && w.asked !! w.stranded
    && (forall id :: id in w.records ==> w.records[id] !in w.stranded)
    && (forall k :: k in w.kills ==> w.kills[k].server in w.taken && w.kills[k].server !in w.stranded)
    && (forall u :: u in w.updates ==> w.updates[u].server !in w.stranded)
  }

  lemma EffectKeepsUnknown(w: World, t: World, c: CallId)
    requires Provenance(w) && StrandedUnknown(w)
    requires LocalTo(w, t, c) && ServerEffect(w, t, c) && RecordEffect(w, t, c) && Grows(w, t)
    ensures StrandedUnknown(t)
  {
    assert CallOk(w, c);
    forall id | id in t.records ensures t.records[id] !in t.stranded {
      assert id in w.records ==> RecordOk(w, id);
    }
  }

  lemma OutsideKeepsUnknown(w: World, o: OutsideEvent)
    requires Provenance(w) && StrandedUnknown(w)
    ensures StrandedUnknown(OutsideStep(w, o))
  {
    if o.KillRead? && o.killed in w.records {
      assert RecordOk(w, o.killed);
    }
  }

  lemma StepKeepsUnknown(w: World, e: Event)
    requires Provenance(w) && StrandedUnknown(w)
    ensures StrandedUnknown(Step(w, e))
  {
    if e.Outside? {
      OutsideKeepsUnknown(w, e.o);
    } else if !e.Request? && e.c in w.calls {
      CallStepIsLocal(w, e, e.c);
      CallStepEffects(w, e, e.c);
      EffectGrows(w, CallStep(w, e, e.c, w.calls[e.c]), e.c);
      EffectKeepsUnknown(w, CallStep(w, e, e.c, w.calls[e.c]), e.c);
    }
  }

  lemma {:induction false} RunKeepsUnknown(w: World, events: seq<Event>)
    requires Provenance(w) && StrandedUnknown(w)
    ensures Provenance(Run(w, events)) && StrandedUnknown(Run(w, events))
    decreases events
  {
    if events != [] {
      StepKeepsProvenance(w, events[0]);
      StepKeepsUnknown(w, events[0]);
      RunKeepsUnknown(Step(w, events[0]), events[1..]);
    }
  }

  /**
   Over every interleaving, steps from outside included: a server taken by a call that failed has
   been asked to shut down if and only if the fleet request that took it returned;
   if that request threw after taking it, the call does not even know the server.
   */
  lemma FailedCallsGiveBack(events: seq<Event>, s: Server)
    requires var w := Run(START, events);
             s in w.taken && w.taken[s] in w.calls && w.calls[w.taken[s]].pc == Done(false)
    ensures var w := Run(START, events);
            && (s in w.asked <==> s !in w.stranded)
            && (w.calls[w.taken[s]].server == Some(s) <==> s !in w.stranded)
  {
    RunKeepsUnknown(START, events);
  }

  /** A run that strands a server: taken, unknown to its call and never asked to shut down. */
  lemma ThrowingRequestStrands()
    ensures var w := Run(START, [Request(1, 7, false), Allocate(1, 30, ThrewAfterTaking)]);
            && 1 in w.calls && w.calls[1].pc == Done(false) && w.calls[1].server == None
            && w.taken == map[30 := 1] && w.stranded == {30} && w.asked == {}
  {
    var events := [Request(1, 7, false), Allocate(1, 30, ThrewAfterTaking)];
    assert Run(START, events) == Run(Step(START, events[0]), events[1..]);
    assert events[1..][1..] == [];
  }

  // ------------------------- ownership among allocations and their own compensations

  /** A call about to delete a record by id is looking at its own record. */
  predicate OwnsRecord(w: World, c: CallId)
    requires c in w.calls
  {
    var call := w.calls[c];
    call.id in w.records && call.server == Some(w.records[call.id])
  }

  predicate RecordStands(pc: Pc) {
    pc == Routing || pc == RollingBack || pc == Created || pc == CleaningRecord || pc == Done(true)
  }

  predicate Killed(w: World, c: CallId) {
    c in w.kills && w.kills[c].finished
  }

  /** A kill undoes the allocation it is named after: the control plane could not record the session. */
  predicate Undoes(w: World, k: KillId, id: SessionId) {
    k in w.calls && w.calls[k].id == id && w.calls[k].pc == Done(true)
  }

  /** Of everything outside the allocations only such kills occur. */
  predicate Undoing(w: World, e: Event) {
    e.Outside? ==> e.o.KillShutdown? || e.o.KillDelete? || (e.o.KillRead? && Undoes(w, e.o.k, e.o.killed))
  }

  predicate Compensated(w: World, events: seq<Event>)
    decreases events
  {
    events == [] || (Undoing(w, events[0]) && Compensated(Step(w, events[0]), events[1..]))
  }

  ghost predicate Owners(w: World) {
    forall c :: c in w.calls && RecordStands(w.calls[c].pc) && !Killed(w, c) ==> OwnsRecord(w, c)
  }

  ghost predicate FlagsMatch(w: World) {
    forall c :: c in w.calls ==> FlagOk(w.calls[c])
  }

  /** A kill holds the server of the allocation it undoes. */
  predicate KillOk(w: World, k: KillId)
    requires k in w.kills
  {
    && Undoes(w, k, w.kills[k].id) && w.calls[k].server == Some(w.kills[k].server)
    && (w.kills[k].finished ==> w.kills[k].shutDown)
  }

  ghost predicate KillsUndo(w: World) {
    forall k :: k in w.kills ==> KillOk(w, k)
  }

  lemma KilledIsDone(w: World, c: CallId)
    requires KillsUndo(w)
    ensures c in w.kills ==> c in w.calls && w.calls[c].pc == Done(true)
  {
    assert c in w.kills ==> KillOk(w, c);
  }

  /** Who may have asked to shut a server down: the call that took it and failed, or the kill that undoes it. */
  predicate GivenUp(w: World, c: CallId) {
    c in w.calls && (w.calls[c].pc == Done(false) || (c in w.kills && w.kills[c].shutDown))
  }

  ghost predicate AskedIsGivenUp(w: World) {
    forall s :: s in w.asked ==> s in w.taken && GivenUp(w, w.taken[s])
  }

  ghost predicate Ownership(w: World) {
    Owners(w) && FlagsMatch(w) && KillsUndo(w) && AskedIsGivenUp(w)
  }

  lemma OwnersDiffer(w: World, c: CallId, d: CallId)
    requires Provenance(w) && c in w.calls && d in w.calls && c != d && OwnsRecord(w, c) && OwnsRecord(w, d)
    ensures w.calls[c].id != w.calls[d].id
  {
    assert CallOk(w, c) && CallOk(w, d);
  }

  /** A call that stores or keeps its record owns it afterwards. */
  lemma EffectOwnOwns(w: World, t: World, c: CallId)
    requires Owners(w) && FlagsMatch(w) && LocalTo(w, t, c) && RecordEffect(w, t, c)
    requires RecordStands(t.calls[c].pc) && !Killed(t, c)
    ensures OwnsRecord(t, c)
  {
    assert FlagOk(w.calls[c]);
    assert RecordStands(w.calls[c].pc) ==> OwnsRecord(w, c);
  }

  /** No call's step touches the record another call owns. */
  lemma EffectOtherOwns(w: World, t: World, c: CallId, d: CallId)
    requires Provenance(w) && Owners(w) && KillsUndo(w) && LocalTo(w, t, c) && RecordEffect(w, t, c)
    requires d in w.calls && d != c && RecordStands(w.calls[d].pc) && !Killed(w, d)
    ensures d in t.calls && t.calls[d] == w.calls[d] && OwnsRecord(t, d)
  {
    assert OwnsRecord(w, d);
    if RecordStands(w.calls[c].pc) && !w.calls[c].pc.Done? {
      KilledIsDone(w, c);
      assert OwnsRecord(w, c);
      OwnersDiffer(w, c, d);
    }
  }

  lemma EffectKeepsOwners(w: World, t: World, c: CallId)
    requires Provenance(w) && Owners(w) && FlagsMatch(w) && KillsUndo(w)
    requires LocalTo(w, t, c) && RecordEffect(w, t, c)
    ensures Owners(t) && FlagsMatch(t)
  {
    assert FlagOk(w.calls[c]);
    forall d | d in t.calls && RecordStands(t.calls[d].pc) && !Killed(t, d) ensures OwnsRecord(t, d) {
      if d == c {
        EffectOwnOwns(w, t, c);
      } else {
        assert t.calls[d] == w.calls[d];
        EffectOtherOwns(w, t, c, d);
      }
    }
    forall d | d in t.calls ensures FlagOk(t.calls[d]) {
      assert d != c ==> t.calls[d] == w.calls[d] && FlagOk(w.calls[d]);
    }
  }

  lemma EffectKeepsKills(w: World, t: World, c: CallId)
    requires KillsUndo(w) && LocalTo(w, t, c)
    ensures KillsUndo(t)
  {
    forall k | k in t.kills ensures KillOk(t, k) {
      assert KillOk(w, k);
    }
  }

  lemma EffectKeepsAsked(w: World, t: World, c: CallId)
    requires Provenance(w) && AskedIsGivenUp(w) && LocalTo(w, t, c) && ServerEffect(w, t, c) && Grows(w, t)
    ensures AskedIsGivenUp(t)
  {
    assert CallOk(w, c);
    forall s | s in t.asked ensures s in t.taken && GivenUp(t, t.taken[s]) {
      if s in w.asked {
        assert GivenUp(w, w.taken[s]);
      }
    }
  }

  lemma RequestKeepsOwnership(w: World, c: CallId, call: Call)
    requires Ownership(w) && c !in w.calls && !call.sessionCreated && (call.pc == Checking || call.pc == Preparing)
    ensures Ownership(Put(w, c, call))
  {
    var t := Put(w, c, call);
    forall d | d in t.calls && RecordStands(t.calls[d].pc) && !Killed(t, d) ensures OwnsRecord(t, d) {
      assert OwnsRecord(w, d);
    }
    forall d | d in t.calls ensures FlagOk(t.calls[d]) {
      assert d in w.calls ==> FlagOk(w.calls[d]);
    }
    forall k | k in t.kills ensures KillOk(t, k) {
      assert KillOk(w, k);
    }
    forall s | s in t.asked ensures s in t.taken && GivenUp(t, t.taken[s]) {
      assert GivenUp(w, w.taken[s]);
    }
  }

  lemma SameRecordsKeepOwners(w: World, t: World)
    requires Owners(w) && t.calls == w.calls && t.records == w.records
    requires forall c :: c in w.calls && Killed(w, c) ==> Killed(t, c)
    ensures Owners(t)
  {
    forall d | d in t.calls && RecordStands(t.calls[d].pc) && !Killed(t, d) ensures OwnsRecord(t, d) {
      assert OwnsRecord(w, d);
    }
  }

  /** The kill finds the record of the allocation it undoes. */
  lemma KillReadsOwn(w: World, k: KillId, id: SessionId)
    requires Provenance(w) && Ownership(w) && Undoes(w, k, id)
    ensures KillsUndo(OutsideStep(w, KillRead(k, id)))
  {
    var t := OutsideStep(w, KillRead(k, id));
    forall j | j in t.kills ensures KillOk(t, j) {
      if j in w.kills {
        assert KillOk(w, j);
      } else {
        assert OwnsRecord(w, k);
      }
    }
  }

  lemma KillReadKeepsOwnership(w: World, k: KillId, id: SessionId)
    requires Provenance(w) && Ownership(w) && Undoes(w, k, id)
    ensures Ownership(OutsideStep(w, KillRead(k, id)))
  {
    var t := OutsideStep(w, KillRead(k, id));
    SameRecordsKeepOwners(w, t);
    KillReadsOwn(w, k, id);
    forall s | s in t.asked ensures s in t.taken && GivenUp(t, t.taken[s]) {
      assert GivenUp(w, w.taken[s]);
    }
  }

  /** Kills that have only advanced still undo their allocations. */
  lemma AdvancedKillsUndo(w: World, t: World)
    requires KillsUndo(w) && t.calls == w.calls
    requires forall k :: k in t.kills ==>
      && k in w.kills && t.kills[k].id == w.kills[k].id && t.kills[k].server == w.kills[k].server
      && (t.kills[k].finished ==> t.kills[k].shutDown)
    ensures KillsUndo(t)
  {
    forall k | k in t.kills ensures KillOk(t, k) {
      assert KillOk(w, k);
    }
  }

  lemma ShutDownIsGivenUp(w: World, k: KillId)
    requires Provenance(w) && Ownership(w) && k in w.kills
    ensures AskedIsGivenUp(OutsideStep(w, KillShutdown(k)))
  {
    var t := OutsideStep(w, KillShutdown(k));
    assert KillOk(w, k) && CallOk(w, k);
    forall s | s in t.asked ensures s in t.taken && GivenUp(t, t.taken[s]) {
      assert s in w.asked ==> GivenUp(w, w.taken[s]);
    }
  }

  lemma KillShutdownKeepsOwnership(w: World, k: KillId)
    requires Provenance(w) && Ownership(w) && k in w.kills
    ensures Ownership(OutsideStep(w, KillShutdown(k)))
  {
    var t := OutsideStep(w, KillShutdown(k));
    SameRecordsKeepOwners(w, t);
    ShutDownIsGivenUp(w, k);
    assert KillOk(w, k);
    AdvancedKillsUndo(w, t);
  }

  /** The delete takes away the record of the allocation it undoes and no other. */
  lemma DeleteKeepsOwners(w: World, k: KillId)
    requires Provenance(w) && Ownership(w) && k in w.kills && w.kills[k].shutDown && !w.kills[k].finished
    ensures Owners(OutsideStep(w, KillDelete(k)))
  {
    var t := OutsideStep(w, KillDelete(k));
    assert KillOk(w, k) && OwnsRecord(w, k);
    forall d | d in t.calls && RecordStands(t.calls[d].pc) && !Killed(t, d) ensures OwnsRecord(t, d) {
      assert d != k && !Killed(w, d) && OwnsRecord(w, d);
      OwnersDiffer(w, k, d);
    }
  }

  lemma KillDeleteKeepsOwnership(w: World, k: KillId)
    requires Provenance(w) && Ownership(w) && k in w.kills && w.kills[k].shutDown && !w.kills[k].finished
    ensures Ownership(OutsideStep(w, KillDelete(k)))
  {
    var t := OutsideStep(w, KillDelete(k));
    DeleteKeepsOwners(w, k);
    AdvancedKillsUndo(w, t);
    forall s | s in t.asked ensures s in t.taken && GivenUp(t, t.taken[s]) {
      assert GivenUp(w, w.taken[s]);
    }
  }

  lemma StepKeepsOwnership(w: World, e: Event)
    requires Provenance(w) && Ownership(w) && Undoing(w, e)
    ensures Ownership(Step(w, e))
  {
    if e.Outside? {
      match e.o
      case KillRead(k, id) => KillReadKeepsOwnership(w, k, id);
      case KillShutdown(k) =>
        if k in w.kills { KillShutdownKeepsOwnership(w, k); }
      case KillDelete(k) =>
        if k in w.kills && w.kills[k].shutDown && !w.kills[k].finished { KillDeleteKeepsOwnership(w, k); }
    } else if e.Request? {
      if e.c !in w.calls {
        RequestKeepsOwnership(w, e.c, Call(e.id, None, false, if e.requested then Checking else Preparing));
      }
    } else if e.c in w.calls {
      CallStepIsLocal(w, e, e.c);
      CallStepEffects(w, e, e.c);
      EffectGrows(w, CallStep(w, e, e.c, w.calls[e.c]), e.c);
      EffectKeepsOwners(w, CallStep(w, e, e.c, w.calls[e.c]), e.c);
      EffectKeepsKills(w, CallStep(w, e, e.c, w.calls[e.c]), e.c);
      EffectKeepsAsked(w, CallStep(w, e, e.c, w.calls[e.c]), e.c);
    }
  }

  lemma {:induction false} RunKeepsOwnership(w: World, events: seq<Event>)
    requires Provenance(w) && Ownership(w) && Compensated(w, events)
    ensures Provenance(Run(w, events)) && Ownership(Run(w, events))
    decreases events
  {
    if events != [] {
      StepKeepsProvenance(w, events[0]);
      StepKeepsOwnership(w, events[0]);
      RunKeepsOwnership(Step(w, events[0]), events[1..]);
    }
  }

  lemma EffectRemovesOwn(w: World, t: World, c: CallId, id: SessionId)
    requires Owners(w) && KillsUndo(w) && LocalTo(w, t, c) && RecordEffect(w, t, c)
    requires id in w.records && id !in t.records
    ensures w.calls[c].id == id && w.calls[c].server == Some(w.records[id])
  {
    assert w.calls[c].pc == RollingBack || w.calls[c].pc == CleaningRecord;
    KilledIsDone(w, c);
    assert OwnsRecord(w, c);
  }

  lemma DeleteRemovesOwn(w: World, e: OutsideEvent, id: SessionId)
    requires Owners(w) && KillsUndo(w) && (e.KillShutdown? || e.KillDelete? || e.KillRead?)
    requires id in w.records && id !in OutsideStep(w, e).records
    ensures e.k in w.calls && w.calls[e.k].id == id && w.calls[e.k].server == Some(w.records[id])
  {
    assert KillOk(w, e.k) && OwnsRecord(w, e.k);
  }

  /**
   Whatever allocations interleave and fail, and whichever are undone, a record
   disappears only by the step of the call that stored it or of the kill that undoes
   that call: a call that loses the create race never deletes the winner's record.
   */
  lemma RecordsRemovedByOwner(events: seq<Event>, e: Event, id: SessionId)
    requires Compensated(START, events) && Undoing(Run(START, events), e)
    requires id in Run(START, events).records && id !in Step(Run(START, events), e).records
    ensures var w := Run(START, events);
            var c := if e.Outside? then e.o.k else e.c;
            c in w.calls && w.calls[c].id == id && w.calls[c].server == Some(w.records[id])
  {
    RunKeepsOwnership(START, events);
    var w := Run(START, events);
    if e.Outside? {
      DeleteRemovesOwn(w, e.o, id);
    } else if !e.Request? && e.c in w.calls {
      CallStepIsLocal(w, e, e.c);
      CallStepEffects(w, e, e.c);
      EffectRemovesOwn(w, CallStep(w, e, e.c, w.calls[e.c]), e.c, id);
    }
  }

  /**
   A successful call's record stays until the kill that undoes it deletes it, and its
   server until that kill shuts it down; no other success of the id stands beside it.
   */
  lemma SuccessIsKept(events: seq<Event>, c: CallId)
    requires Compensated(START, events)
    requires var w := Run(START, events); c in w.calls && w.calls[c].pc == Done(true) && !Killed(w, c)
    ensures var w := Run(START, events);
            && w.calls[c].id in w.records && w.calls[c].server == Some(w.records[w.calls[c].id])
            && (w.records[w.calls[c].id] in w.asked ==> c in w.kills && w.kills[c].shutDown)
    ensures var w := Run(START, events);
            forall d :: d in w.calls && w.calls[d].pc == Done(true) && !Killed(w, d) && w.calls[d].id == w.calls[c].id
              ==> d == c
  {
    RunKeepsOwnership(START, events);
    var w := Run(START, events);
    assert OwnsRecord(w, c) && CallOk(w, c);
    assert w.records[w.calls[c].id] in w.asked ==> GivenUp(w, w.taken[w.records[w.calls[c].id]]);
    forall d | d in w.calls && w.calls[d].pc == Done(true) && !Killed(w, d) && w.calls[d].id == w.calls[c].id
      ensures d == c
    {
      assert OwnsRecord(w, d) && CallOk(w, d);
    }
  }

  /**
   A kill that undoes an allocation always finds that allocation's record in place
   when it deletes: the right-hand side of `KillRemovesOther` does not occur.
   */
  lemma UndoingDeletesOwn(events: seq<Event>, k: KillId)
    requires Compensated(START, events)
    requires var w := Run(START, events); k in w.kills && !w.kills[k].finished
    ensures var w := Run(START, events);
            && w.kills[k].id in w.records && w.records[w.kills[k].id] == w.kills[k].server
            && k in w.calls && w.calls[k].id == w.kills[k].id && w.calls[k].server == Some(w.kills[k].server)
  {
    RunKeepsOwnership(START, events);
    var w := Run(START, events);
    assert KillOk(w, k) && OwnsRecord(w, k);
  }

  // ------------------------------------------------------------------- with kills

  /**
   A kill deletes by id. It costs some other allocation its record exactly when
   the record has changed since the kill read it; `OverlappingKillsLoseARecord`
   is a run that gets there.
   */
  lemma KillRemovesOther(events: seq<Event>, k: KillId)
    requires var w := Run(START, events);
             k in w.kills && w.kills[k].shutDown && !w.kills[k].finished && w.kills[k].id in w.records
    ensures var w := Run(START, events);
            var t := Step(w, Outside(KillDelete(k)));
            (exists s :: s != w.kills[k].server && s in w.records.Values && s !in t.records.Values) <==>
              w.records[w.kills[k].id] != w.kills[k].server
  {
    RunKeepsProvenance(START, events);
    var w := Run(START, events);
    var t := Step(w, Outside(KillDelete(k)));
    var id := w.kills[k].id;
    assert RecordOk(w, id) && t.records == w.records - {id};
    forall other | other in t.records ensures t.records[other] != w.records[id] {
      assert RecordOk(w, other);
    }
    forall s | s in w.records.Values && s != w.records[id] ensures s in t.records.Values {
      var holder :| holder in w.records && w.records[holder] == s;
      assert holder in t.records && t.records[holder] == s;
    }
    assert w.records[id] in w.records.Values;
  }

  /**
   An extension writes back what it read, whatever has become of it: exactly when the
   record has changed since, and then a record is lost or a removed one comes back.
   */
  lemma ExtensionRewritesIff(events: seq<Event>, u: UpdateId)
    requires u in Run(START, events).updates
    ensures var w := Run(START, events);
            var t := Step(w, Outside(UpdateWrite(u)));
            var update := w.updates[u];
            && update.id in t.records && t.records[update.id] == update.server
            && (t.records != w.records <==> update.id !in w.records || w.records[update.id] != update.server)
            && (t.records != w.records && update.id in w.records ==> w.records[update.id] !in t.records.Values)
  {
    RunKeepsProvenance(START, events);
    var w := Run(START, events);
    var t := Step(w, Outside(UpdateWrite(u)));
    var update := w.updates[u];
    if update.id in w.records {
      if w.records[update.id] == update.server {
        assert t.records == w.records;
      } else {
        assert RecordOk(w, update.id);
        forall other | other in t.records ensures t.records[other] != w.records[update.id] {
          assert other != update.id ==> RecordOk(w, other);
        }
      }
    }
  }

  // --------------------------------------------------------- the code's own control

  /** How each await of one allocation turns out. */
  datatype Luck = Luck(existsOk: bool, prepared: bool, fleet: FleetReply, configured: bool, stored: SetReply,
                       routed: bool, rolledBack: bool, tail: bool, cleaned: bool)

  function OpeningScript(c: CallId, id: SessionId, requested: bool, server: Server, luck: Luck): seq<Event> {
    [Request(c, id, requested), Exists(c, luck.existsOk), Prepare(c, luck.prepared), Allocate(c, server, luck.fleet)]
  }

  function RecordScript(c: CallId, luck: Luck): seq<Event> {
    [WriteRoutes(c, luck.routed), Rollback(c, luck.rolledBack), Tail(c, luck.tail),
     CleanRecord(c, luck.cleaned), Shutdown(c)]
  }

  /** Every await in order; those a failed call no longer reaches change nothing. */
  function Script(c: CallId, id: SessionId, requested: bool, server: Server, luck: Luck): seq<Event> {
    OpeningScript(c, id, requested, server, luck)
      + ([Configure(c, luck.configured)] + ([SetNx(c, luck.stored)] + RecordScript(c, luck)))
  }

  lemma {:induction false} RunConcat(w: World, a: seq<Event>, b: seq<Event>)
    ensures Run(w, a + b) == Run(Run(w, a), b)
    decreases a
  {
    if a == [] {
      assert a + b == b;
    } else {
      assert (a + b)[1..] == a[1..] + b;
      RunConcat(Step(w, a[0]), a[1..], b);
    }
  }

  lemma RunOne(w: World, e: Event, rest: seq<Event>)
    ensures Run(w, [e] + rest) == Run(Step(w, e), rest)
  {
    assert ([e] + rest)[1..] == rest;
  }

  predicate OwnEvents(c: CallId, events: seq<Event>) {
    forall i :: 0 <= i < |events| ==> !events[i].Outside? && !events[i].Request? && events[i].c == c
  }

  lemma {:induction false} DoneSkips(w: World, c: CallId, events: seq<Event>)
    requires c in w.calls && w.calls[c].pc.Done? && OwnEvents(c, events)
    ensures Run(w, events) == w
    decreases events
  {
    if events != [] {
      DoneSkips(w, c, events[1..]);
    }
  }

  /** From the catch block only the shutdown still counts. */
  lemma {:induction false} ShutdownEnds(w: World, c: CallId, events: seq<Event>)
    requires c in w.calls && w.calls[c].pc == ShuttingDown && w.calls[c].server.Some?
    requires OwnEvents(c, events) && events != []
    requires forall i :: 0 <= i < |events| ==> (events[i].Shutdown? <==> i == |events| - 1)
    ensures Run(w, events) == Put(w.(asked := w.asked + {w.calls[c].server.value}), c, w.calls[c].(pc := Done(false)))
    decreases events
  {
    if |events| > 1 {
      ShutdownEnds(w, c, events[1..]);
    } else {
      assert events[1..] == [];
    }
  }

  lemma RunTwo(w: World, events: seq<Event>)
    requires |events| >= 2
    ensures Run(w, events) == Run(Step(Step(w, events[0]), events[1]), events[2..])
  {
    assert events[1..][1..] == events[2..];
  }

  predicate Admitted(records: map<SessionId, Server>, id: SessionId, requested: bool, luck: Luck) {
    !requested || (luck.existsOk && id !in records)
  }

  predicate Takes(records: map<SessionId, Server>, id: SessionId, requested: bool, luck: Luck) {
    Admitted(records, id, requested, luck) && luck.prepared && luck.fleet != Refused
  }

  /** The call reaches HSETNX with a server, and the record is new. */
  predicate Stores(records: map<SessionId, Server>, id: SessionId, requested: bool, luck: Luck) {
    && Takes(records, id, requested, luck) && luck.fleet == Returned && luck.configured
    && id !in records && luck.stored != ThrewBefore
  }

  predicate Succeeds(records: map<SessionId, Server>, id: SessionId, requested: bool, luck: Luck) {
    Stores(records, id, requested, luck) && luck.stored == Replied && luck.routed && luck.tail
  }

  /** A stored record outlives the call when it succeeds, when HSETNX's reply was lost, or when its removal failed. */
  predicate RecordRemains(records: map<SessionId, Server>, id: SessionId, requested: bool, luck: Luck) {
    && Stores(records, id, requested, luck)
    && (luck.stored == ThrewAfter || (if luck.routed then luck.tail || !luck.cleaned else !luck.rolledBack))
  }

  /** The request and its duplicate check, which only a requested id gets. */
  lemma AdmittingStages(w: World, c: CallId, id: SessionId, requested: bool, luck: Luck)
    requires c !in w.calls
    ensures Step(Step(w, Request(c, id, requested)), Exists(c, luck.existsOk)) ==
            Put(w, c, Call(id, None, false,
                           if Admitted(w.records, id, requested, luck) then Preparing else Done(false)))
  {
    var now := Call(id, None, false, if requested then Checking else Preparing);
    var after := now.(pc := if Admitted(w.records, id, requested, luck) then Preparing else Done(false));
    assert Step(w, Request(c, id, requested)) == Put(w, c, now);
    assert w.calls[c := now][c := after] == w.calls[c := after];
  }

  lemma PreparingStage(w: World, c: CallId, id: SessionId, ok: bool)
    requires c in w.calls && w.calls[c] == Call(id, None, false, Preparing)
    ensures Step(w, Prepare(c, ok)) == if ok then w else Put(w, c, Call(id, None, false, Done(false)))
  {
  }

  lemma FleetStage(w: World, c: CallId, id: SessionId, server: Server, fleet: FleetReply)
    requires c in w.calls && w.calls[c] == Call(id, None, false, Preparing) && server !in w.taken
    ensures var t := Step(w, Allocate(c, server, fleet));
            && t.records == w.records && t.asked == w.asked && c in t.calls
            && t.taken.Keys == (if fleet == Refused then w.taken.Keys else w.taken.Keys + {server})
            && t.calls[c] == (if fleet == Returned then Call(id, Some(server), false, Configuring)
                              else Call(id, None, false, Done(false)))
  {
    assert w.taken[server := c].Keys == w.taken.Keys + {server};
  }

  /** From the duplicate check to the fleet's answer. */
  lemma OpeningStages(w: World, c: CallId, id: SessionId, requested: bool, server: Server, luck: Luck)
    requires server !in w.taken && c !in w.calls
    ensures var t := Run(w, OpeningScript(c, id, requested, server, luck));
            && t.records == w.records && t.asked == w.asked
            && t.taken.Keys == (if Takes(w.records, id, requested, luck) then w.taken.Keys + {server} else w.taken.Keys)
            && c in t.calls
            && t.calls[c] == (if Takes(w.records, id, requested, luck) && luck.fleet == Returned
                              then Call(id, Some(server), false, Configuring) else Call(id, None, false, Done(false)))
  {
    var events := OpeningScript(c, id, requested, server, luck);
    RunTwo(w, events);
    AdmittingStages(w, c, id, requested, luck);
    var w2 := Step(Step(w, events[0]), events[1]);
    assert events[2..] == [Prepare(c, luck.prepared)] + [Allocate(c, server, luck.fleet)];
    if Admitted(w.records, id, requested, luck) {
      FleetStages(w2, c, id, server, luck);
    } else {
      DoneSkips(w2, c, events[2..]);
    }
  }

  lemma FleetStages(w: World, c: CallId, id: SessionId, server: Server, luck: Luck)
    requires c in w.calls && w.calls[c] == Call(id, None, false, Preparing) && server !in w.taken
    ensures var t := Run(w, [Prepare(c, luck.prepared)] + [Allocate(c, server, luck.fleet)]);
            && t.records == w.records && t.asked == w.asked && c in t.calls
            && t.taken.Keys ==
               (if luck.prepared && luck.fleet != Refused then w.taken.Keys + {server} else w.taken.Keys)
            && t.calls[c] == (if luck.prepared && luck.fleet == Returned then Call(id, Some(server), false, Configuring)
                              else Call(id, None, false, Done(false)))
  {
    var last := [Allocate(c, server, luck.fleet)];
    RunOne(w, Prepare(c, luck.prepared), last);
    PreparingStage(w, c, id, luck.prepared);
    var w3 := Step(w, Prepare(c, luck.prepared));
    if luck.prepared {
      RunOne(w3, last[0], []);
      assert last + [] == last;
      FleetStage(w3, c, id, server, luck.fleet);
    } else {
      DoneSkips(w3, c, last);
    }
  }

  lemma WrittenStages(w: World, c: CallId, id: SessionId, server: Server, luck: Luck)
    requires c in w.calls && w.calls[c] == Call(id, Some(server), true, Created)
    ensures var t := Run(w, [Tail(c, luck.tail), CleanRecord(c, luck.cleaned), Shutdown(c)]);
            && c in t.calls && t.calls[c].pc == Done(luck.tail) && t.taken == w.taken
            && t.asked == (if luck.tail then w.asked else w.asked + {server})
            && t.records == (if luck.tail || !luck.cleaned then w.records else w.records - {id})
  {
    var events := [Tail(c, luck.tail), CleanRecord(c, luck.cleaned), Shutdown(c)];
    RunTwo(w, events);
    var w2 := Step(Step(w, events[0]), events[1]);
    assert events[2..] == [Shutdown(c)];
    if luck.tail {
      DoneSkips(w2, c, [Shutdown(c)]);
    } else {
      ShutdownEnds(w2, c, [Shutdown(c)]);
    }
  }

  lemma RoutedStages(w: World, c: CallId, id: SessionId, server: Server, luck: Luck)
    requires c in w.calls && w.calls[c] == Call(id, Some(server), false, Routing) && luck.routed
    ensures var t := Run(w, RecordScript(c, luck));
            && c in t.calls && t.calls[c].pc == Done(luck.tail) && t.taken == w.taken
            && t.asked == (if luck.tail then w.asked else w.asked + {server})
            && t.records == (if luck.tail || !luck.cleaned then w.records else w.records - {id})
  {
    var events := RecordScript(c, luck);
    RunTwo(w, events);
    var w2 := Step(Step(w, events[0]), events[1]);
    assert w2 == Put(w, c, Call(id, Some(server), true, Created));
    assert events[2..] == [Tail(c, luck.tail), CleanRecord(c, luck.cleaned), Shutdown(c)];
    WrittenStages(w2, c, id, server, luck);
  }

  lemma UnwrittenStages(w: World, c: CallId, id: SessionId, server: Server, luck: Luck)
    requires c in w.calls && w.calls[c] == Call(id, Some(server), false, Routing) && !luck.routed
    ensures Step(Step(w, WriteRoutes(c, luck.routed)), Rollback(c, luck.rolledBack)) ==
            Put(if luck.rolledBack then w.(records := w.records - {id}) else w,
                c, Call(id, Some(server), false, ShuttingDown))
  {
    assert Step(w, WriteRoutes(c, luck.routed)) == Put(w, c, Call(id, Some(server), false, RollingBack));
    var a, b := Call(id, Some(server), false, RollingBack), Call(id, Some(server), false, ShuttingDown);
    assert w.calls[c := a][c := b] == w.calls[c := b];
  }

  lemma UnroutedStages(w: World, c: CallId, id: SessionId, server: Server, luck: Luck)
    requires c in w.calls && w.calls[c] == Call(id, Some(server), false, Routing) && !luck.routed
    ensures var t := Run(w, RecordScript(c, luck));
            && c in t.calls && t.calls[c].pc == Done(false) && t.taken == w.taken && t.asked == w.asked + {server}
            && t.records == (if luck.rolledBack then w.records - {id} else w.records)
  {
    var events := RecordScript(c, luck);
    RunTwo(w, events);
    UnwrittenStages(w, c, id, server, luck);
    ShutdownEnds(Step(Step(w, events[0]), events[1]), c, events[2..]);
  }

  /** How call `c`, which holds `server`, has ended. */
  ghost predicate Ended(t: World, w: World, c: CallId, server: Server, ok: bool, records: map<SessionId, Server>) {
    && c in t.calls && t.calls[c].pc == Done(ok) && t.taken == w.taken
    && t.records == records && t.asked == (if ok then w.asked else w.asked + {server})
  }

  /** What HSETNX and everything after it leave of the records. */
  function RecordsAfter(records: map<SessionId, Server>, id: SessionId, server: Server,
                        luck: Luck): map<SessionId, Server> {
    if && id !in records && luck.stored != ThrewBefore
       && (luck.stored == ThrewAfter || (if luck.routed then luck.tail || !luck.cleaned else !luck.rolledBack))
    then records[id := server] else records
  }

  lemma StoredStages(w: World, w1: World, c: CallId, id: SessionId, server: Server, luck: Luck)
    requires c in w.calls && w.calls[c] == Call(id, Some(server), false, Creating) && id !in w.records
             && luck.stored == Replied
    requires w1 == SetNxStep(w, c, w.calls[c], server, luck.stored)
    ensures Ended(Run(w1, RecordScript(c, luck)), w, c, server,
                  luck.routed && luck.tail, RecordsAfter(w.records, id, server, luck))
  {
    assert w.records[id := server] - {id} == w.records;
    if luck.routed {
      RoutedStages(w1, c, id, server, luck);
    } else {
      UnroutedStages(w1, c, id, server, luck);
    }
  }

  lemma RefusedSet(w: World, c: CallId, id: SessionId, server: Server, luck: Luck)
    requires c in w.calls && w.calls[c] == Call(id, Some(server), false, Creating)
             && (id in w.records || luck.stored != Replied)
    ensures SetNxStep(w, c, w.calls[c], server, luck.stored) ==
            Put(w.(records := RecordsAfter(w.records, id, server, luck)), c,
                Call(id, Some(server), false, ShuttingDown))
  {
  }

  lemma RefusedStages(w: World, w1: World, c: CallId, id: SessionId, server: Server, luck: Luck)
    requires c in w.calls && w.calls[c] == Call(id, Some(server), false, Creating)
             && (id in w.records || luck.stored != Replied)
    requires w1 == SetNxStep(w, c, w.calls[c], server, luck.stored)
    ensures Ended(Run(w1, RecordScript(c, luck)), w, c, server, false, RecordsAfter(w.records, id, server, luck))
  {
    RefusedSet(w, c, id, server, luck);
    ShutdownEnds(w1, c, RecordScript(c, luck));
  }

  /** From HSETNX to the end of the call. */
  lemma ClosingStages(w: World, c: CallId, id: SessionId, server: Server, luck: Luck)
    requires c in w.calls && w.calls[c] == Call(id, Some(server), false, Creating)
    ensures Ended(Run(w, [SetNx(c, luck.stored)] + RecordScript(c, luck)), w, c, server,
                  id !in w.records && luck.stored == Replied && luck.routed && luck.tail,
                  RecordsAfter(w.records, id, server, luck))
  {
    RunOne(w, SetNx(c, luck.stored), RecordScript(c, luck));
    var w1 := Step(w, SetNx(c, luck.stored));
    if id in w.records || luck.stored != Replied {
      RefusedStages(w, w1, c, id, server, luck);
    } else {
      StoredStages(w, w1, c, id, server, luck);
    }
  }

  lemma ConfiguringStages(w: World, c: CallId, id: SessionId, server: Server, luck: Luck)
    requires c in w.calls && w.calls[c] == Call(id, Some(server), false, Configuring)
    ensures Ended(Run(w, [Configure(c, luck.configured)] + ([SetNx(c, luck.stored)] + RecordScript(c, luck))),
                  w, c, server,
                  luck.configured && id !in w.records && luck.stored == Replied && luck.routed && luck.tail,
                  if luck.configured then RecordsAfter(w.records, id, server, luck) else w.records)
  {
    var last := [SetNx(c, luck.stored)] + RecordScript(c, luck);
    RunOne(w, Configure(c, luck.configured), last);
    var w5 := Step(w, Configure(c, luck.configured));
    if luck.configured {
      ClosingStages(w5, c, id, server, luck);
    } else {
      ShutdownEnds(w5, c, last);
    }
  }

  /** What `AloneIsScript` says of the world in which the call has ended. */
  ghost predicate AloneOutcome(t: World, w: World, c: CallId, id: SessionId, requested: bool, server: Server,
                               luck: Luck) {
    && c in t.calls && t.calls[c].pc == Done(Succeeds(w.records, id, requested, luck))
    && t.taken.Keys == (if Takes(w.records, id, requested, luck) then w.taken.Keys + {server} else w.taken.Keys)
    && t.records == (if RecordRemains(w.records, id, requested, luck) then w.records[id := server] else w.records)
    && t.asked == (if Takes(w.records, id, requested, luck) && luck.fleet == Returned
                      && !Succeeds(w.records, id, requested, luck)
                   then w.asked + {server} else w.asked)
  }

  lemma EndedIsOutcome(t: World, w4: World, w: World, c: CallId, id: SessionId, requested: bool, server: Server,
                       luck: Luck)
    requires Takes(w.records, id, requested, luck) && luck.fleet == Returned
    requires w4.records == w.records && w4.asked == w.asked && w4.taken.Keys == w.taken.Keys + {server}
    requires Ended(t, w4, c, server,
                   luck.configured && id !in w.records && luck.stored == Replied && luck.routed && luck.tail,
                   if luck.configured then RecordsAfter(w.records, id, server, luck) else w.records)
    ensures AloneOutcome(t, w, c, id, requested, server, luck)
  {
  }

  /** A call that has ended before it got a server. */
  lemma RefusedIsOutcome(w4: World, w: World, c: CallId, id: SessionId, requested: bool, server: Server, luck: Luck)
    requires w4.records == w.records && w4.asked == w.asked && c in w4.calls && w4.calls[c].pc == Done(false)
    requires !(Takes(w.records, id, requested, luck) && luck.fleet == Returned)
    requires w4.taken.Keys == (if Takes(w.records, id, requested, luck) then w.taken.Keys + {server} else w.taken.Keys)
    ensures AloneOutcome(w4, w, c, id, requested, server, luck)
  {
  }

  /** From the fleet's answer to the end. */
  lemma AfterOpening(w4: World, w: World, c: CallId, id: SessionId, requested: bool, server: Server, luck: Luck)
    requires w4.records == w.records && w4.asked == w.asked && c in w4.calls
    requires w4.taken.Keys == (if Takes(w.records, id, requested, luck) then w.taken.Keys + {server} else w.taken.Keys)
    requires w4.calls[c] == (if Takes(w.records, id, requested, luck) && luck.fleet == Returned
                             then Call(id, Some(server), false, Configuring) else Call(id, None, false, Done(false)))
    ensures var rest := [Configure(c, luck.configured)] + ([SetNx(c, luck.stored)] + RecordScript(c, luck));
            AloneOutcome(Run(w4, rest), w, c, id, requested, server, luck)
  {
    var rest := [Configure(c, luck.configured)] + ([SetNx(c, luck.stored)] + RecordScript(c, luck));
    if w4.calls[c].pc.Done? {
      DoneSkips(w4, c, rest);
      RefusedIsOutcome(w4, w, c, id, requested, server, luck);
    } else {
      ConfiguringStages(w4, c, id, server, luck);
      EndedIsOutcome(Run(w4, rest), w4, w, c, id, requested, server, luck);
    }
  }

  /** An uninterrupted call, whatever happens at each await. */
  lemma AloneIsScript(w: World, c: CallId, id: SessionId, requested: bool, server: Server, luck: Luck)
    requires server !in w.taken && c !in w.calls
    ensures AloneOutcome(Run(w, Script(c, id, requested, server, luck)), w, c, id, requested, server, luck)
  {
    var rest := [Configure(c, luck.configured)] + ([SetNx(c, luck.stored)] + RecordScript(c, luck));
    RunConcat(w, OpeningScript(c, id, requested, server, luck), rest);
    OpeningStages(w, c, id, requested, server, luck);
    AfterOpening(Run(w, OpeningScript(c, id, requested, server, luck)), w, c, id, requested, server, luck);
  }

  /**
   The reallocation of an expired session, whatever happens at each await: whether it succeeds does not depend on the
   old record, which is gone in every case, and only the session's own record can change.
   */
  lemma ReallocatesExpired(w: World, c: CallId, id: SessionId, requested: bool, server: Server, luck: Luck)
    requires server !in w.taken && c !in w.calls
    ensures var t := Run(w, [Outside(Reclaim(id))] + Script(c, id, requested, server, luck));
            && c in t.calls && t.calls[c].pc.Done?
            && (t.calls[c].pc == Done(true) <==>
               && (requested ==> luck.existsOk) && luck.prepared && luck.fleet == Returned && luck.configured
               && luck.stored == Replied && luck.routed && luck.tail)
            && (t.calls[c].pc == Done(true) ==> id in t.records && t.records[id] == server)
            && (id in t.records ==> t.records[id] == server)
            && (forall other :: other != id ==>
               (other in t.records <==> other in w.records)
               && (other in w.records ==> t.records[other] == w.records[other]))
  {
    var now := Step(w, Outside(Reclaim(id)));
    RunOne(w, Outside(Reclaim(id)), Script(c, id, requested, server, luck));
    AloneIsScript(now, c, id, requested, server, luck);
  }

  lemma {:induction false} AllocationsKeepKills(w: World, events: seq<Event>)
    requires forall i :: 0 <= i < |events| ==> !events[i].Outside?
    ensures Run(w, events).kills == w.kills
    decreases events
  {
    if events != [] {
      if !events[0].Request? && events[0].c in w.calls {
        CallStepIsLocal(w, events[0], events[0].c);
      }
      AllocationsKeepKills(Step(w, events[0]), events[1..]);
    }
  }

  const GOOD_LUCK := Luck(true, true, Returned, true, Replied, true, true, true, true)

  /** Call `c` allocates `server` for `id` and everything replies. */
  lemma GoodAllocation(w: World, c: CallId, id: SessionId, server: Server)
    requires server !in w.taken && c !in w.calls && id !in w.records
    ensures var t := Run(w, Script(c, id, false, server, GOOD_LUCK));
            && t.records == w.records[id := server] && t.taken.Keys == w.taken.Keys + {server}
            && t.kills == w.kills && c in t.calls && t.calls[c].pc == Done(true)
  {
    AloneIsScript(w, c, id, false, server, GOOD_LUCK);
    AllocationsKeepKills(w, Script(c, id, false, server, GOOD_LUCK));
  }

  /** Kill 1 completes between the shutdown and the delete of kill 0. */
  function OverlappingKills(id: SessionId): seq<Event> {
    [Outside(KillRead(0, id)), Outside(KillShutdown(0)),
     Outside(KillRead(1, id)), Outside(KillShutdown(1)), Outside(KillDelete(1))]
  }

  lemma KillReadsAndShuts(w: World, k: KillId, id: SessionId, rest: seq<Event>)
    requires k !in w.kills && id in w.records
    ensures Run(w, [Outside(KillRead(k, id)), Outside(KillShutdown(k))] + rest) ==
            Run(w.(asked := w.asked + {w.records[id]},
                   kills := w.kills[k := Kill(id, w.records[id], true, false)]), rest)
  {
    var events := [Outside(KillRead(k, id)), Outside(KillShutdown(k))] + rest;
    RunTwo(w, events);
    assert events[2..] == rest;
    var killed := w.kills[k := Kill(id, w.records[id], false, false)];
    assert Step(w, Outside(KillRead(k, id))) == w.(kills := killed);
    assert killed[k := Kill(id, w.records[id], true, false)] == w.kills[k := Kill(id, w.records[id], true, false)];
  }

  lemma KillDeletes(w: World, k: KillId)
    requires k in w.kills && w.kills[k].shutDown && !w.kills[k].finished
    ensures Run(w, [Outside(KillDelete(k))]) ==
            w.(records := w.records - {w.kills[k].id}, kills := w.kills[k := w.kills[k].(finished := true)])
  {
    RunOne(w, Outside(KillDelete(k)), []);
    assert [Outside(KillDelete(k))] + [] == [Outside(KillDelete(k))];
  }

  lemma OverlappingKillsRun(w: World, id: SessionId)
    requires w.kills == map[] && id in w.records
    ensures var t := Run(w, OverlappingKills(id));
            && t.records == w.records - {id} && t.taken == w.taken && t.calls == w.calls
            && 0 in t.kills && t.kills[0] == Kill(id, w.records[id], true, false)
  {
    var kill := Kill(id, w.records[id], true, false);
    var w2 := w.(asked := w.asked + {w.records[id]}, kills := w.kills[0 := kill]);
    var w4 := w2.(asked := w2.asked + {w.records[id]}, kills := w2.kills[1 := kill]);
    KillReadsAndShuts(w, 0, id, [Outside(KillRead(1, id)), Outside(KillShutdown(1))] + [Outside(KillDelete(1))]);
    KillReadsAndShuts(w2, 1, id, [Outside(KillDelete(1))]);
    KillDeletes(w4, 1);
    assert OverlappingKills(id) ==
           [Outside(KillRead(0, id)), Outside(KillShutdown(0))]
             + ([Outside(KillRead(1, id)), Outside(KillShutdown(1))] + [Outside(KillDelete(1))]);
  }

  lemma ScriptAddsOneCall(w: World, c: CallId, id: SessionId, server: Server, d: CallId)
    requires d !in w.calls && d != c
    ensures d !in Run(w, Script(c, id, false, server, GOOD_LUCK)).calls
  {
    CallsComeFromRequests(w, Script(c, id, false, server, GOOD_LUCK), d);
  }

  lemma {:induction false} CallsComeFromRequests(w: World, events: seq<Event>, d: CallId)
    requires d !in w.calls && forall i :: 0 <= i < |events| ==> events[i].Outside? || events[i].c != d
    ensures d !in Run(w, events).calls
    decreases events
  {
    if events != [] {
      if !events[0].Outside? && !events[0].Request? && events[0].c in w.calls {
        CallStepIsLocal(w, events[0], events[0].c);
      }
      CallsComeFromRequests(Step(w, events[0]), events[1..], d);
    }
  }

  /** After the kills and a second allocation of the id on another server. */
  lemma ReallocatedUnderKill(w1: World, id: SessionId, first: Server, second: Server)
    requires w1.kills == map[] && w1.records == map[id := first] && second !in w1.taken && 2 !in w1.calls
    ensures var t := Run(w1, OverlappingKills(id) + Script(2, id, false, second, GOOD_LUCK));
            && t.records == map[id := second] && 0 in t.kills && t.kills[0] == Kill(id, first, true, false)
            && 2 in t.calls && t.calls[2].pc == Done(true)
  {
    RunConcat(w1, OverlappingKills(id), Script(2, id, false, second, GOOD_LUCK));
    OverlappingKillsRun(w1, id);
    var w2 := Run(w1, OverlappingKills(id));
    assert w2.records == map[];
    GoodAllocation(w2, 2, id, second);
  }

  lemma PendingDeleteRemoves(w: World, k: KillId, id: SessionId, second: Server)
    requires w.records == map[id := second] && k in w.kills && w.kills[k].id == id && w.kills[k].shutDown
             && !w.kills[k].finished
    ensures Step(w, Outside(KillDelete(k))).records == map[]
  {
    assert map[id := second] - {id} == map[];
  }

  /**
   The case is reachable: two kills overlap, the id is allocated again on server 20,
   and the delete still pending for server 10 takes the new record away.
   */
  lemma OverlappingKillsLoseARecord()
    ensures var last := OverlappingKills(7) + Script(2, 7, false, 20, GOOD_LUCK);
            var events := Script(1, 7, false, 10, GOOD_LUCK) + last;
            var w := Run(START, events);
            && w.records == map[7 := 20] && 0 in w.kills && w.kills[0] == Kill(7, 10, true, false)
            && 2 in w.calls && w.calls[2].pc == Done(true)
            && Step(w, Outside(KillDelete(0))).records == map[]
  {
    var first, rest := Script(1, 7, false, 10, GOOD_LUCK), OverlappingKills(7) + Script(2, 7, false, 20, GOOD_LUCK);
    RunConcat(START, first, rest);
    GoodAllocation(START, 1, 7, 10);
    ScriptAddsOneCall(START, 1, 7, 10, 2);
    ReallocatedUnderKill(Run(START, first), 7, 10, 20);
    PendingDeleteRemoves(Run(START, first + rest), 0, 7, 20);
  }

  const KILL := [Outside(KillRead(0, 7)), Outside(KillShutdown(0))] + [Outside(KillDelete(0))]

  /** A kill completes between an extension's read and its write, and the record of a dead server is back. */
  lemma ExtensionRevivesDeadRecord()
    ensures var w := Run(START, Script(1, 7, false, 10, GOOD_LUCK)
                                + ([Outside(UpdateRead(0, 7))] + (KILL + [Outside(UpdateWrite(0))])));
            w.records == map[7 := 10] && 10 in w.asked
  {
    var first := Script(1, 7, false, 10, GOOD_LUCK);
    RunConcat(START, first, [Outside(UpdateRead(0, 7))] + (KILL + [Outside(UpdateWrite(0))]));
    GoodAllocation(START, 1, 7, 10);
    AllocationsKeepUpdates(START, first);
    RunOne(Run(START, first), Outside(UpdateRead(0, 7)), KILL + [Outside(UpdateWrite(0))]);
    KilledUnderExtension(Step(Run(START, first), Outside(UpdateRead(0, 7))));
  }

  lemma KilledUnderExtension(w: World)
    requires w.kills == map[] && w.records == map[7 := 10] && w.updates == map[0 := Update(7, 10)]
    ensures var t := Run(w, KILL + [Outside(UpdateWrite(0))]);
            t.records == map[7 := 10] && 10 in t.asked
  {
    RunConcat(w, KILL, [Outside(UpdateWrite(0))]);
    KilledOnce(w, 7, 10);
    var w3 := Run(w, KILL);
    RunOne(w3, Outside(UpdateWrite(0)), []);
    assert [Outside(UpdateWrite(0))] + [] == [Outside(UpdateWrite(0))];
    assert w3.records[7 := 10] == map[7 := 10];
  }

  lemma KilledOnce(w: World, id: SessionId, server: Server)
    requires w.kills == map[] && w.records == map[id := server]
    ensures var t := Run(w, [Outside(KillRead(0, id)), Outside(KillShutdown(0))] + [Outside(KillDelete(0))]);
            t.records == map[] && server in t.asked && t.updates == w.updates
  {
    KillReadsAndShuts(w, 0, id, [Outside(KillDelete(0))]);
    var w2 := w.(asked := w.asked + {server}, kills := map[0 := Kill(id, server, true, false)]);
    KillDeletes(w2, 0);
    assert map[id := server] - {id} == map[];
  }

  lemma {:induction false} AllocationsKeepUpdates(w: World, events: seq<Event>)
    requires forall i :: 0 <= i < |events| ==> !events[i].Outside?
    ensures Run(w, events).updates == w.updates
    decreases events
  {
    if events != [] {
      if !events[0].Request? && events[0].c in w.calls {
        CallStepIsLocal(w, events[0], events[0].c);
      }
      AllocationsKeepUpdates(Step(w, events[0]), events[1..]);
    }
  }

  class PoolManager {
    var records: map<SessionId, Server>
    var taken: set<Server>
    var asked: set<Server>

    /** HSETNX, route writes, and HDEL when those fail; not created covers both `false` and a throw. */
    method CreateSession(id: SessionId, server: Server, luck: Luck) returns (created: bool)
      modifies this`records
      ensures created <==> id !in old(records) && luck.stored == Replied && luck.routed
      ensures records == if id !in old(records)
              && (created || luck.stored == ThrewAfter || (luck.stored == Replied && !luck.rolledBack))
                         then old(records)[id := server] else old(records)
    {
      if luck.stored == ThrewBefore || id in records {
        return false;
      }
      records := records[id := server];
      created := luck.stored == Replied && luck.routed;
      if luck.stored == Replied && !luck.routed && luck.rolledBack {
        records := records - {id};
        assert records == old(records);
      }
    }

    /** The duplicate check and the try block, up to the reply or the exception. */
    method TryAllocate(id: SessionId, requested: bool, server: Server, luck: Luck)
      returns (ok: bool, allocatedGameServer: Option<Server>, sessionCreated: bool)
      requires server !in taken
      modifies this`records, this`taken
      ensures taken == if Takes(old(records), id, requested, luck) then old(taken) + {server} else old(taken)
      ensures allocatedGameServer ==
              if Takes(old(records), id, requested, luck) && luck.fleet == Returned then Some(server) else None
      ensures sessionCreated <==> Stores(old(records), id, requested, luck) && luck.stored == Replied && luck.routed
      ensures ok <==> sessionCreated && luck.tail
      ensures records == if Stores(old(records), id, requested, luck)
                            && (luck.stored == ThrewAfter || luck.routed || !luck.rolledBack)
                         then old(records)[id := server] else old(records)
    {
      ok, allocatedGameServer, sessionCreated := false, None, false;
      if requested && (!luck.existsOk || id in records) {
        return;
      }
      if luck.prepared && luck.fleet != Refused {
        taken := taken + {server};
        if luck.fleet == Returned {
          allocatedGameServer := Some(server);
          if luck.configured {
            sessionCreated := CreateSession(id, server, luck);
            ok := sessionCreated && luck.tail;
          }
        }
      }
    }

    /** The catch block once a server is held: the record first if it was created, then the server. */
    method CleanUp(id: SessionId, server: Server, sessionCreated: bool, cleaned: bool,
                   ghost before: map<SessionId, Server>)
      requires sessionCreated ==> id !in before && records == before[id := server]
      modifies this`records, this`asked
      ensures records == if sessionCreated && cleaned then before else old(records)
      ensures asked == old(asked) + {server}
    {
      if sessionCreated && cleaned {
        records := records - {id};
      }
      asked := asked + {server};
    }

    /**
     One uninterrupted allocation, its catch block steered by the two flags, is the
     run of the script. With cleanup that succeeds a failure leaves the records as
     they were, and the server it took is asked to shut down exactly when the fleet
     request returned.
     */
    method AllocateSessionLocally(id: SessionId, requested: bool, server: Server, luck: Luck, ghost start: World,
                                  ghost c: CallId)
      returns (ok: bool)
      requires server !in taken
      requires start.records == records && start.taken.Keys == taken && start.asked == asked && c !in start.calls
      modifies this
      ensures var t := Run(start, Script(c, id, requested, server, luck));
              records == t.records && taken == t.taken.Keys && asked == t.asked && c in t.calls
                && t.calls[c].pc == Done(ok)
      ensures ok ==>
                id !in old(records) && records == old(records)[id := server] && asked == old(asked) && server in taken
      ensures !ok && luck.rolledBack && luck.cleaned && luck.stored != ThrewAfter ==> records == old(records)
      ensures !ok && server in taken ==>
              (server in asked - old(asked) <==> luck.fleet == Returned && server !in old(asked))
      ensures requested && id in old(records) ==>
              !ok && taken == old(taken) && asked == old(asked) && records == old(records)
      ensures forall other :: other != id ==>
              (other in records <==> other in old(records))
                && (other in records ==> records[other] == old(records)[other])
    {
      AloneIsScript(start, c, id, requested, server, luck);
      var allocatedGameServer, sessionCreated;
      ok, allocatedGameServer, sessionCreated := TryAllocate(id, requested, server, luck);
      if !ok && allocatedGameServer.Some? {
        CleanUp(id, server, sessionCreated, luck.cleaned, old(records));
      }
    }
  }
}
