/**
 The stale-while-refresh cache of services/control-plane.

 Entries are objects that a pending load keeps hold of even after the map has
 dropped or replaced them, so they live in a heap and the map points into it.
 Every interleaving of gets, finished loads, failed loads and evictions is a run
 of `Step`.
 */
module AnalyticsCache {
  import opened Prelude

  type Window = int
  type EntryId = nat
  type LoadId = nat

  const MAX_ENTRIES := 16

  /** What a load returned, labelled with the window it was asked for. */
  datatype Analytics = Analytics(window: Window, data: nat)

  /** `window` is the key the entry was created for; nothing in the code reads it. */
  datatype Entry = Entry(window: Window, value: Option<Analytics>, expiresAt: int, inFlight: Option<LoadId>)

  datatype Load = Load(window: Window, entry: EntryId, settled: bool)

  /** `order` is the insertion order of the map. */
  datatype Cache = Cache(
    order: seq<Window>,
    entries: map<Window, EntryId>,
    heap: map<EntryId, Entry>,
    loads: map<LoadId, Load>,
    nextEntry: EntryId,
    nextLoad: LoadId)

  datatype Reply = Served(value: Analytics) | Awaits(load: LoadId)

  datatype Event =
    | Get(window: Window, now: int)
    | Loaded(load: LoadId, data: nat, now: int)
    | LoadFailed(load: LoadId)

  const EMPTY := Cache([], map[], map[], map[], 0, 0)

  function TtlMs(window: Window): (ttl: int)
    ensures ttl > 0
  {
    if window >= 168 then 60000 else if window >= 24 then 30000 else 15000
  }

  /** A week and more is kept a minute, a day and more half a minute, less a quarter of one. */
  lemma TtlBands(window: Window)
    ensures TtlMs(window) == 60000 <==> window >= 7 * 24
    ensures TtlMs(window) == 15000 <==> window < 24
    ensures TtlMs(window) == 30000 <==> 24 <= window < 7 * 24
  {
  }

  function Without(order: seq<Window>, w: Window): seq<Window> {
    if order == [] then []
    else if order[0] == w then order[1..]
    else [order[0]] + Without(order[1..], w)
  }

  function MapSet(c: Cache, w: Window, id: EntryId): Cache {
    c.(entries := c.entries[w := id], order := if w in c.entries then c.order else c.order + [w])
  }

  function MapDelete(c: Cache, w: Window): Cache {
    c.(entries := c.entries - {w}, order := Without(c.order, w))
  }

  function NewEntry(c: Cache, e: Entry): Cache {
    c.(heap := c.heap[c.nextEntry := e], nextEntry := c.nextEntry + 1)
  }

  function StartRefresh(c: Cache, w: Window, id: EntryId): Cache
    requires id in c.heap
  {
    MapSet(c.(loads := c.loads[c.nextLoad := Load(w, id, false)], nextLoad := c.nextLoad + 1,
              heap := c.heap[id := c.heap[id].(inFlight := Some(c.nextLoad))]), w, id)
  }

  function GetStep(c: Cache, w: Window, now: int): (Cache, Reply) {
    if w in c.entries && c.entries[w] in c.heap then
      var e := c.heap[c.entries[w]];
      if e.value.Some? then
        (if e.expiresAt > now || e.inFlight.Some? then c else StartRefresh(c, w, c.entries[w]), Served(e.value.value))
      else if e.inFlight.Some? then (c, Awaits(e.inFlight.value))
      else (StartRefresh(c, w, c.entries[w]), Awaits(c.nextLoad))
    else
      (StartRefresh(NewEntry(c, Entry(w, None, 0, None)), w, c.nextEntry), Awaits(c.nextLoad))
  }

  /** Drops the oldest keys until the map is small enough. */
  function Evict(c: Cache): Cache
    decreases |c.order|
  {
    if |c.order| <= MAX_ENTRIES then c else Evict(c.(entries := c.entries - {c.order[0]}, order := c.order[1..]))
  }

  function LoadedStep(c: Cache, l: LoadId, data: nat, now: int): Cache
    requires l in c.loads
  {
    var w := c.loads[l].window;
    var settled := c.(loads := c.loads[l := c.loads[l].(settled := true)]);
    var stored := NewEntry(MapDelete(settled, w), Entry(w, Some(Analytics(w, data)), now + TtlMs(w), None));
    Evict(MapSet(stored, w, c.nextEntry))
  }

  function FailedStep(c: Cache, l: LoadId): Cache
    requires l in c.loads && c.loads[l].entry in c.heap
  {
    var Load(w, id, _) := c.loads[l];
    var settled := c.(loads := c.loads[l := c.loads[l].(settled := true)]);
    if c.heap[id].value.Some? then MapSet(settled.(heap := c.heap[id := c.heap[id].(inFlight := None)]), w, id)
    else MapDelete(settled, w)
  }

  predicate Pending(c: Cache, l: LoadId) {
    l in c.loads && !c.loads[l].settled
  }

  function Step(c: Cache, e: Event): Cache {
    match e
    case Get(w, now) => GetStep(c, w, now).0
    case Loaded(l, data, now) => if Pending(c, l) then LoadedStep(c, l, data, now) else c
    case LoadFailed(l) => if Pending(c, l) && c.loads[l].entry in c.heap then FailedStep(c, l) else c
  }

  function Run(c: Cache, events: seq<Event>): Cache
    decreases events
  {
    if events == [] then c else Run(Step(c, events[0]), events[1..])
  }

  // ------------------------------------------------------------------- invariant

  ghost predicate OrderOk(c: Cache) {
    && (forall w :: w in c.entries <==> w in c.order)
    && (forall i, j :: 0 <= i < j < |c.order| ==> c.order[i] != c.order[j])
  }

  predicate EntryOk(c: Cache, id: EntryId)
    requires id in c.heap
  {
    && id < c.nextEntry
    && (c.heap[id].value.Some? ==> c.heap[id].value.value.window == c.heap[id].window)
  }

  /** A mapped entry sits under its own window and its `inFlight`, if set, is a load of its own still running. */
  predicate MappedOk(c: Cache, w: Window)
    requires w in c.entries
  {
    && c.entries[w] in c.heap
    && c.heap[c.entries[w]].window == w
    && (c.heap[c.entries[w]].inFlight.Some? ==>
          && Pending(c, c.heap[c.entries[w]].inFlight.value)
          && c.loads[c.heap[c.entries[w]].inFlight.value].entry == c.entries[w])
  }

  predicate LoadOk(c: Cache, l: LoadId)
    requires l in c.loads
  {
    && l < c.nextLoad
    && c.loads[l].entry in c.heap
    && c.heap[c.loads[l].entry].window == c.loads[l].window
    && (!c.loads[l].settled ==> c.heap[c.loads[l].entry].inFlight == Some(l))
  }

  ghost predicate Inv(c: Cache) {
    && OrderOk(c)
    && (forall id :: id in c.heap ==> EntryOk(c, id))
    && (forall w :: w in c.entries ==> MappedOk(c, w))
    && (forall l :: l in c.loads ==> LoadOk(c, l))
  }

  lemma {:induction false} WithoutRemoves(order: seq<Window>, w: Window)
    requires forall i, j :: 0 <= i < j < |order| ==> order[i] != order[j]
    ensures forall x :: x in Without(order, w) <==> x in order && x != w
    ensures forall i, j :: 0 <= i < j < |Without(order, w)| ==> Without(order, w)[i] != Without(order, w)[j]
  {
    if order != [] {
      WithoutRemoves(order[1..], w);
      var rest := Without(order[1..], w);
      if order[0] != w {
        assert Without(order, w)[1..] == rest;
        assert order[0] !in order[1..];
      }
    }
  }

  lemma {:induction false} EvictKeeps(c: Cache)
    requires OrderOk(c)
    ensures var t := Evict(c);
            && OrderOk(t) && t == c.(order := t.order, entries := t.entries)
            && |t.order| <= MAX_ENTRIES && |t.order| <= |c.order| && t.order == c.order[|c.order| - |t.order|..]
            && (|c.order| <= MAX_ENTRIES ==> t == c) && (|c.order| > MAX_ENTRIES ==> |t.order| == MAX_ENTRIES)
            && forall w :: w in t.entries ==> w in c.entries && t.entries[w] == c.entries[w]
    decreases |c.order|
  {
    if |c.order| > MAX_ENTRIES {
      var next := c.(entries := c.entries - {c.order[0]}, order := c.order[1..]);
      EvictKeeps(next);
    }
  }

  lemma StartKeepsInv(c: Cache, w: Window, id: EntryId)
    requires OrderOk(c) && id in c.heap && c.heap[id].window == w && c.heap[id].inFlight.None?
    requires forall x :: x in c.heap ==> EntryOk(c, x)
    requires forall x :: x in c.entries ==> MappedOk(c, x)
    requires forall l :: l in c.loads ==> LoadOk(c, l)
    ensures Inv(StartRefresh(c, w, id))
    ensures var t := StartRefresh(c, w, id);
            && w in t.entries && t.entries[w] == id && t.heap[id].inFlight == Some(c.nextLoad)
            && Pending(t, c.nextLoad) && t.loads[c.nextLoad].window == w
  {
    var t := StartRefresh(c, w, id);
    forall l | l in t.loads ensures LoadOk(t, l) {
      assert l in c.loads ==> LoadOk(c, l);
    }
    forall x | x in t.entries ensures MappedOk(t, x) {
      assert x in c.entries ==> MappedOk(c, x);
    }
    forall x | x in t.heap ensures EntryOk(t, x) {
      assert EntryOk(c, x);
    }
  }

  lemma GetKeepsInv(c: Cache, w: Window, now: int)
    requires Inv(c)
    ensures Inv(GetStep(c, w, now).0)
  {
    if w in c.entries {
      assert MappedOk(c, w);
      if c.heap[c.entries[w]].inFlight.None? {
        StartKeepsInv(c, w, c.entries[w]);
      }
    } else {
      var blank := NewEntry(c, Entry(w, None, 0, None));
      NewEntryKeeps(c, Entry(w, None, 0, None));
      StartKeepsInv(blank, w, c.nextEntry);
    }
  }

  lemma NewEntryKeeps(c: Cache, e: Entry)
    requires Inv(c) && (e.value.Some? ==> e.value.value.window == e.window)
    ensures Inv(NewEntry(c, e)) && c.nextEntry !in c.heap
  {
    var t := NewEntry(c, e);
    assert c.nextEntry in c.heap ==> EntryOk(c, c.nextEntry);
    forall x | x in t.heap ensures EntryOk(t, x) {
      assert x in c.heap ==> EntryOk(c, x);
    }
    forall w | w in t.entries ensures MappedOk(t, w) {
      assert MappedOk(c, w);
    }
    forall l | l in t.loads ensures LoadOk(t, l) {
      assert LoadOk(c, l);
    }
  }

  /** Settling a load and dropping its key leaves no mapped entry waiting for it. */
  lemma SettleKeepsInv(c: Cache, l: LoadId)
    requires Inv(c) && Pending(c, l)
    ensures Inv(MapDelete(c.(loads := c.loads[l := c.loads[l].(settled := true)]), c.loads[l].window))
  {
    var w := c.loads[l].window;
    var t := MapDelete(c.(loads := c.loads[l := c.loads[l].(settled := true)]), w);
    WithoutRemoves(c.order, w);
    assert LoadOk(c, l);
    forall x | x in t.entries ensures MappedOk(t, x) {
      assert MappedOk(c, x);
    }
    forall k | k in t.loads ensures LoadOk(t, k) {
      assert LoadOk(c, k);
    }
    forall x | x in t.heap ensures EntryOk(t, x) {
      assert EntryOk(c, x);
    }
  }

  lemma SetKeepsInv(c: Cache, w: Window, id: EntryId)
    requires Inv(c) && id in c.heap && c.heap[id].window == w && c.heap[id].inFlight.None?
    ensures Inv(MapSet(c, w, id))
  {
    var t := MapSet(c, w, id);
    forall x | x in t.entries ensures MappedOk(t, x) {
      assert x in c.entries ==> MappedOk(c, x);
    }
    forall l | l in t.loads ensures LoadOk(t, l) {
      assert LoadOk(c, l);
    }
    forall x | x in t.heap ensures EntryOk(t, x) {
      assert EntryOk(c, x);
    }
  }

  lemma EvictKeepsInv(c: Cache)
    requires Inv(c)
    ensures Inv(Evict(c))
  {
    EvictKeeps(c);
    var t := Evict(c);
    forall x | x in t.entries ensures MappedOk(t, x) {
      assert MappedOk(c, x);
    }
    forall l | l in t.loads ensures LoadOk(t, l) {
      assert LoadOk(c, l);
    }
    forall x | x in t.heap ensures EntryOk(t, x) {
      assert EntryOk(c, x);
    }
  }

  lemma LoadedKeepsInv(c: Cache, l: LoadId, data: nat, now: int)
    requires Inv(c) && Pending(c, l)
    ensures Inv(LoadedStep(c, l, data, now))
  {
    var w := c.loads[l].window;
    SettleKeepsInv(c, l);
    var dropped := MapDelete(c.(loads := c.loads[l := c.loads[l].(settled := true)]), w);
    var e := Entry(w, Some(Analytics(w, data)), now + TtlMs(w), None);
    NewEntryKeeps(dropped, e);
    SetKeepsInv(NewEntry(dropped, e), w, c.nextEntry);
    EvictKeepsInv(MapSet(NewEntry(dropped, e), w, c.nextEntry));
  }

  lemma FailedKeepsInv(c: Cache, l: LoadId)
    requires Inv(c) && Pending(c, l) && c.loads[l].entry in c.heap
    ensures Inv(FailedStep(c, l))
  {
    var Load(w, id, _) := c.loads[l];
    assert LoadOk(c, l);
    if c.heap[id].value.None? {
      SettleKeepsInv(c, l);
    } else {
      var t := c.(loads := c.loads[l := c.loads[l].(settled := true)],
                  heap := c.heap[id := c.heap[id].(inFlight := None)]);
      forall x | x in t.entries ensures MappedOk(t, x) {
        assert MappedOk(c, x);
      }
      forall k | k in t.loads ensures LoadOk(t, k) {
        assert LoadOk(c, k);
      }
      forall x | x in t.heap ensures EntryOk(t, x) {
        assert EntryOk(c, x);
      }
      SetKeepsInv(t, w, id);
    }
  }

  lemma {:induction false} RunKeepsInv(c: Cache, events: seq<Event>)
    requires Inv(c)
    ensures Inv(Run(c, events))
    decreases events
  {
    if events != [] {
      match events[0] {
        case Get(w, now) => GetKeepsInv(c, w, now);
        case Loaded(l, data, now) => if Pending(c, l) { LoadedKeepsInv(c, l, data, now); }
        case LoadFailed(l) => if Pending(c, l) && c.loads[l].entry in c.heap { FailedKeepsInv(c, l); }
      }
      RunKeepsInv(Step(c, events[0]), events[1..]);
    }
  }

  // -------------------------------------------------------------------- theorems

  /**
   After any history, a get is answered with a value loaded for its own window
   or waits for a running load of that window; and when the value it serves has
   expired, such a load is running.
   */
  lemma GetAnswersItsWindow(events: seq<Event>, w: Window, now: int)
    ensures var (t, reply) := GetStep(Run(EMPTY, events), w, now);
            && (reply.Served? ==> reply.value.window == w)
            && (reply.Awaits? ==> Pending(t, reply.load) && t.loads[reply.load].window == w)
            && w in t.entries && t.entries[w] in t.heap
            && (reply.Served? && t.heap[t.entries[w]].expiresAt <= now ==>
                  exists l :: t.heap[t.entries[w]].inFlight == Some(l) && Pending(t, l) && t.loads[l].window == w)
  {
    RunKeepsInv(EMPTY, events);
    var c := Run(EMPTY, events);
    GetKeepsInv(c, w, now);
    var (t, reply) := GetStep(c, w, now);
    if w in c.entries {
      assert MappedOk(c, w) && EntryOk(c, c.entries[w]);
      if c.heap[c.entries[w]].inFlight.None? {
        StartKeepsInv(c, w, c.entries[w]);
      } else {
        assert LoadOk(c, c.heap[c.entries[w]].inFlight.value);
      }
    } else {
      NewEntryKeeps(c, Entry(w, None, 0, None));
      StartKeepsInv(NewEntry(c, Entry(w, None, 0, None)), w, c.nextEntry);
    }
  }

  /** The value the cache holds for a window, and when it expires. */
  function Held(c: Cache, w: Window): Option<Entry> {
    if w in c.entries && c.entries[w] in c.heap && c.heap[c.entries[w]].value.Some? then Some(c.heap[c.entries[w]])
    else None
  }

  predicate Running(c: Cache, w: Window) {
    w in c.entries && c.entries[w] in c.heap && c.heap[c.entries[w]].inFlight.Some?
  }

  /**
   A get serves the held value if there is one, fresh or not, and waits otherwise; it
   starts a load exactly when it serves nothing fresh and none is running for the window,
   and an unexpired value costs nothing at all.
   */
  lemma GetServesHeld(events: seq<Event>, w: Window, now: int)
    ensures var c := Run(EMPTY, events);
            var (t, reply) := GetStep(c, w, now);
            var isFresh := Held(c, w).Some? && now < Held(c, w).value.expiresAt;
            && (reply.Served? <==> Held(c, w).Some?)
            && (reply.Served? ==> Some(reply.value) == Held(c, w).value.value)
            && (isFresh ==> t == c)
            && t.loads.Keys - c.loads.Keys == (if isFresh || Running(c, w) then {} else {c.nextLoad})
            && (reply.Awaits? && Running(c, w) ==> Some(reply.load) == c.heap[c.entries[w]].inFlight)
            && forall x :: x != w ==> Held(t, x) == Held(c, x)
  {
    RunKeepsInv(EMPTY, events);
    var c := Run(EMPTY, events);
    assert c.nextLoad in c.loads ==> LoadOk(c, c.nextLoad);
    if w in c.entries {
      assert MappedOk(c, w);
    }
    forall x | x != w ensures Held(GetStep(c, w, now).0, x) == Held(c, x) {
      GetKeepsOthers(c, w, now, x);
    }
  }

  lemma GetKeepsOthers(c: Cache, w: Window, now: int, x: Window)
    requires Inv(c) && x != w
    ensures Held(GetStep(c, w, now).0, x) == Held(c, x)
  {
    assert w in c.entries ==> MappedOk(c, w);
    assert x in c.entries ==> MappedOk(c, x);
    assert c.nextEntry in c.heap ==> EntryOk(c, c.nextEntry);
  }

  /** A failed load leaves an old value in its place, or frees the key so that the next get tries again. */
  lemma FailureKeepsOld(events: seq<Event>, l: LoadId)
    requires Pending(Run(EMPTY, events), l)
    ensures var c := Run(EMPTY, events);
            var t := Step(c, LoadFailed(l));
            var w := c.loads[l].window;
            && c.loads[l].entry in c.heap && !Pending(t, l) && !Running(t, w)
            && (if c.heap[c.loads[l].entry].value.Some? then
                  Held(t, w) == Some(c.heap[c.loads[l].entry].(inFlight := None))
                else w !in t.entries)
  {
    RunKeepsInv(EMPTY, events);
    assert LoadOk(Run(EMPTY, events), l);
  }

  /** The `i`-th event finished a load of the entry's window with its value, and set its expiry. */
  predicate LoadedBy(c: Cache, e: Entry, event: Event) {
    && event.Loaded? && event.load in c.loads && e.value.Some?
    && e.value.value == Analytics(c.loads[event.load].window, event.data)
    && e.expiresAt == event.now + TtlMs(e.value.value.window)
  }

  ghost predicate FromHistory(c: Cache, past: seq<Event>) {
    && (forall id :: id in c.heap && c.heap[id].value.Some? ==>
          exists i :: 0 <= i < |past| && LoadedBy(c, c.heap[id], past[i]))
    && forall l :: l in c.loads ==> l < c.nextLoad
  }

  /** Loads keep their windows, and old values their entries. */
  lemma StepKeepsLoads(c: Cache, e: Event)
    requires forall l :: l in c.loads ==> l < c.nextLoad
    ensures var t := Step(c, e);
            && (forall l :: l in t.loads ==> l < t.nextLoad)
            && forall l :: l in c.loads ==> l in t.loads && t.loads[l].window == c.loads[l].window
  {
    if e.Loaded? && Pending(c, e.load) {
      EvictOnlyUnmaps(Stored(c, e.load, e.data, e.now));
    }
  }

  lemma {:induction false} EvictOnlyUnmaps(c: Cache)
    ensures Evict(c).heap == c.heap && Evict(c).loads == c.loads && Evict(c).nextLoad == c.nextLoad
    decreases |c.order|
  {
    if |c.order| > MAX_ENTRIES {
      EvictOnlyUnmaps(c.(entries := c.entries - {c.order[0]}, order := c.order[1..]));
    }
  }

  /** An entry with a value had that value and expiry before, or this event loaded it. */
  lemma StepValues(c: Cache, e: Event, id: EntryId)
    requires id in Step(c, e).heap && Step(c, e).heap[id].value.Some?
    requires forall l :: l in c.loads ==> l < c.nextLoad
    ensures var now := Step(c, e).heap[id];
            || LoadedBy(Step(c, e), now, e)
            || (id in c.heap && now.value == c.heap[id].value && now.expiresAt == c.heap[id].expiresAt)
  {
    if e.Loaded? && Pending(c, e.load) {
      EvictOnlyUnmaps(Stored(c, e.load, e.data, e.now));
    }
  }

  lemma StepKeepsHistory(c: Cache, past: seq<Event>, e: Event)
    requires FromHistory(c, past)
    ensures FromHistory(Step(c, e), past + [e])
  {
    StepKeepsLoads(c, e);
    var t := Step(c, e);
    forall id | id in t.heap && t.heap[id].value.Some?
      ensures exists i :: 0 <= i < |past + [e]| && LoadedBy(t, t.heap[id], (past + [e])[i])
    {
      StepValues(c, e, id);
      if LoadedBy(t, t.heap[id], e) {
        assert (past + [e])[|past|] == e;
      } else {
        var i :| 0 <= i < |past| && LoadedBy(c, c.heap[id], past[i]);
        assert (past + [e])[i] == past[i];
      }
    }
  }

  lemma {:induction false} RunKeepsHistory(c: Cache, past: seq<Event>, events: seq<Event>)
    requires FromHistory(c, past)
    ensures FromHistory(Run(c, events), past + events)
    decreases events
  {
    if events == [] {
      assert past + [] == past;
    } else {
      StepKeepsHistory(c, past, events[0]);
      RunKeepsHistory(Step(c, events[0]), past + [events[0]], events[1..]);
      assert past + [events[0]] + events[1..] == past + events;
    }
  }

  /** Whatever is served for a window is what some load of that window returned, and fresh for its period since. */
  lemma ServedWasLoaded(events: seq<Event>, w: Window)
    requires Held(Run(EMPTY, events), w).Some?
    ensures var c := Run(EMPTY, events);
            && Held(c, w).value.value.value.window == w
            && exists i :: 0 <= i < |events| && LoadedBy(c, Held(c, w).value, events[i])
  {
    RunKeepsInv(EMPTY, events);
    RunKeepsHistory(EMPTY, [], events);
    assert [] + events == events;
    assert MappedOk(Run(EMPTY, events), w);
    assert EntryOk(Run(EMPTY, events), Run(EMPTY, events).entries[w]);
  }

  /** In every reachable state a mapped entry's `inFlight` is unsettled, so no key can be stuck behind a dead load. */
  lemma MappedLoadsAreRunning(events: seq<Event>, w: Window)
    requires w in Run(EMPTY, events).entries
    ensures var c := Run(EMPTY, events);
            && c.entries[w] in c.heap
            && (c.heap[c.entries[w]].inFlight.Some? ==> Pending(c, c.heap[c.entries[w]].inFlight.value))
  {
    RunKeepsInv(EMPTY, events);
    assert MappedOk(Run(EMPTY, events), w);
  }

  /** `t` holds window `w` newest with `value`, and as many of the latest others of `c` as fit, in their old order. */
  ghost predicate KeepsNewest(c: Cache, t: Cache, w: Window, value: Analytics, now: int) {
    var all := Without(c.order, w) + [w];
    && 0 < |t.order| <= |all| && |t.order| == Min(|all|, MAX_ENTRIES)
    && t.order == all[|all| - |t.order|..]
    && t.entries.Keys == (set x | x in t.order)
    && w in t.entries && t.entries[w] in t.heap
    && t.heap[t.entries[w]].value == Some(value) && t.heap[t.entries[w]].expiresAt == now + TtlMs(w)
  }

  /**
   Right after a successful load the map holds at most sixteen windows: the one
   just loaded, newest, and the most recently inserted others in their old order.
   */
  lemma LoadedFitsAndStays(events: seq<Event>, l: LoadId, data: nat, now: int)
    requires Pending(Run(EMPTY, events), l)
    ensures var c := Run(EMPTY, events);
            KeepsNewest(c, Step(c, Loaded(l, data, now)), c.loads[l].window, Analytics(c.loads[l].window, data), now)
  {
    RunKeepsInv(EMPTY, events);
    LoadedKeepsNewest(Run(EMPTY, events), l, data, now);
  }

  /** The map between storing the new value and evicting the oldest. */
  function Stored(c: Cache, l: LoadId, data: nat, now: int): Cache
    requires l in c.loads
  {
    var w := c.loads[l].window;
    var settled := c.(loads := c.loads[l := c.loads[l].(settled := true)]);
    MapSet(NewEntry(MapDelete(settled, w), Entry(w, Some(Analytics(w, data)), now + TtlMs(w), None)), w, c.nextEntry)
  }

  lemma StoredBeforeEviction(c: Cache, l: LoadId, data: nat, now: int)
    requires Inv(c) && Pending(c, l)
    ensures var w := c.loads[l].window;
            var stored := Stored(c, l, data, now);
            && LoadedStep(c, l, data, now) == Evict(stored) && OrderOk(stored)
            && stored.order == Without(c.order, w) + [w]
            && w in stored.entries && stored.entries[w] in stored.heap
            && stored.heap[stored.entries[w]] == Entry(w, Some(Analytics(w, data)), now + TtlMs(w), None)
  {
    var w := c.loads[l].window;
    WithoutRemoves(c.order, w);
    var stored := Stored(c, l, data, now);
    assert w !in (c.entries - {w});
    assert stored.order == Without(c.order, w) + [w];
  }

  lemma LastOfSuffix(order: seq<Window>, kept: seq<Window>)
    requires 0 < |kept| <= |order| && kept == order[|order| - |kept|..]
    ensures kept[|kept| - 1] == order[|order| - 1] && order[|order| - 1] in kept
  {
    assert order[|order| - |kept|..][|kept| - 1] == order[|order| - 1];
  }

  lemma EvictedKeepsLast(c: Cache, t: Cache, w: Window)
    requires OrderOk(c) && t == Evict(c) && c.order != [] && c.order[|c.order| - 1] == w
    ensures 0 < |t.order| <= |c.order| && |t.order| == Min(|c.order|, MAX_ENTRIES)
            && t.order == c.order[|c.order| - |t.order|..]
    ensures OrderOk(t) && w in t.entries && t.entries[w] == c.entries[w] && t.heap == c.heap
  {
    EvictKeeps(c);
    LastOfSuffix(c.order, t.order);
  }

  lemma NewestIntro(c: Cache, stored: Cache, t: Cache, w: Window, value: Analytics, now: int)
    requires stored.order == Without(c.order, w) + [w] && OrderOk(t)
    requires 0 < |t.order| <= |stored.order| && |t.order| == Min(|stored.order|, MAX_ENTRIES)
    requires t.order == stored.order[|stored.order| - |t.order|..]
    requires w in t.entries && t.entries[w] in t.heap && t.heap[t.entries[w]].value == Some(value)
             && t.heap[t.entries[w]].expiresAt == now + TtlMs(w)
    ensures KeepsNewest(c, t, w, value, now)
  {
    SameKeys(t);
  }

  lemma LoadedKeepsNewest(c: Cache, l: LoadId, data: nat, now: int)
    requires Inv(c) && Pending(c, l)
    ensures KeepsNewest(c, LoadedStep(c, l, data, now), c.loads[l].window, Analytics(c.loads[l].window, data), now)
  {
    var w := c.loads[l].window;
    StoredBeforeEviction(c, l, data, now);
    var stored := Stored(c, l, data, now);
    EvictedKeepsLast(stored, Evict(stored), w);
    NewestIntro(c, stored, Evict(stored), w, Analytics(w, data), now);
  }

  lemma SameKeys(c: Cache)
    requires OrderOk(c)
    ensures c.entries.Keys == (set x | x in c.order)
  {
    forall x ensures x in c.entries.Keys <==> x in (set y | y in c.order) {
      assert x in c.entries <==> x in c.order;
    }
  }

  // ------------------------------------------------------------- the code's own map

  class HistoricalAnalyticsCache {
    var order: seq<Window>
    var entries: map<Window, EntryId>
    var heap: map<EntryId, Entry>
    var loads: map<LoadId, Load>
    var nextEntry: EntryId
    var nextLoad: LoadId

    ghost function View(): Cache
      reads this
    {
      Cache(order, entries, heap, loads, nextEntry, nextLoad)
    }

    constructor ()
      ensures View() == EMPTY
    {
      order, entries, heap, loads, nextEntry, nextLoad := [], map[], map[], map[], 0, 0;
    }

    method Delete(w: Window)
      modifies this`order, this`entries
      ensures View() == MapDelete(old(View()), w)
    {
      order := Without(order, w);
      entries := entries - {w};
    }

    method Set(w: Window, id: EntryId)
      modifies this`order, this`entries
      ensures View() == MapSet(old(View()), w, id)
    {
      if w !in entries {
        order := order + [w];
      }
      entries := entries[w := id];
    }

    method BeginRefresh(w: Window, id: EntryId)
      requires id in heap
      modifies this
      ensures View() == StartRefresh(old(View()), w, id)
    {
      loads := loads[nextLoad := Load(w, id, false)];
      heap := heap[id := heap[id].(inFlight := Some(nextLoad))];
      nextLoad := nextLoad + 1;
      Set(w, id);
    }

    method GetAnalytics(w: Window, now: int) returns (reply: Reply)
      modifies this
      ensures (View(), reply) == GetStep(old(View()), w, now)
    {
      var id := nextEntry;
      if w in entries && entries[w] in heap {
        id := entries[w];
      } else {
        heap := heap[nextEntry := Entry(w, None, 0, None)];
        nextEntry := nextEntry + 1;
      }
      var e := heap[id];
      if e.value.Some? && e.expiresAt > now {
        return Served(e.value.value);
      }
      reply := if e.value.Some? then Served(e.value.value)
        else Awaits(if e.inFlight.Some? then e.inFlight.value else nextLoad);
      if e.inFlight.None? {
        BeginRefresh(w, id);
      }
    }

    method OnLoaded(l: LoadId, data: nat, now: int)
      requires Pending(View(), l) && Inv(View())
      modifies this
      ensures View() == LoadedStep(old(View()), l, data, now)
    {
      ghost var goal := Evict(Stored(View(), l, data, now));
      var w := loads[l].window;
      loads := loads[l := loads[l].(settled := true)];
      Delete(w);
      heap := heap[nextEntry := Entry(w, Some(Analytics(w, data)), now + TtlMs(w), None)];
      nextEntry := nextEntry + 1;
      Set(w, nextEntry - 1);
      while |order| > MAX_ENTRIES
        invariant Evict(View()) == goal
        decreases |order|
      {
        var oldest := order[0];
        entries := entries - {oldest};
        order := order[1..];
      }
    }

    method OnFailed(l: LoadId)
      requires Pending(View(), l) && loads[l].entry in heap
      modifies this
      ensures View() == FailedStep(old(View()), l)
    {
      var w, id := loads[l].window, loads[l].entry;
      loads := loads[l := loads[l].(settled := true)];
      if heap[id].value.Some? {
        heap := heap[id := heap[id].(inFlight := None)];
        Set(w, id);
      } else {
        Delete(w);
      }
    }
  }
}
