/**
 EncryptedControlManager and VirtualSocket of kbd/liveview-transport.js: virtual
 sockets and queued envelopes multiplexed over a channel that comes and goes.
 Every call, promise continuation, microtask and callback is one step; `down`
 is split so that its callbacks may re-enter. Connectors yield open channels.
 */
module ControlMux {
  import opened Prelude

  type ViewId = nat
  type ChanId = nat

  const OUTBOX_LIMIT := 64

  datatype ReadyState = Connecting | IsOpen | Closing | Closed

  function Rank(r: ReadyState): nat {
    match r
    case Connecting => 0
    case IsOpen => 1
    case Closing => 2
    case Closed => 3
  }

  datatype Kind = SignalKind | InputKind

  /** A virtual socket with the callbacks it has been given and an `onopen` microtask if one waits. */
  datatype View = View(kind: Kind, state: ReadyState, openQueued: bool, onopens: nat, oncloses: nat)

  /**
   A call of a socket's `onmessage`: the frame's kind, and of the socket at that moment its
   state, how often it had been told `onclose` and `onopen`, and whether an `onopen` waited.
   */
  datatype Delivery = Delivery(view: ViewId, kind: Kind, state: ReadyState, closes: nat, opens: nat, openQueued: bool)

  /** Envelopes are named by submission number. */
  datatype Envelope = Hello | Item(id: nat)

  datatype Chan = Chan(isOpen: bool, wire: seq<Envelope>)

  /** `emitted` and `dropped` are the histories of envelopes sent on any channel and shed from the outbox. */
  datatype Mux = Mux(
    channel: Option<ChanId>,
    chans: map<ChanId, Chan>,
    nextChan: ChanId,
    connecting: bool,
    views: seq<ViewId>,
    all: map<ViewId, View>,
    nextView: ViewId,
    goingDown: seq<ViewId>,
    outbox: seq<nat>,
    submitted: nat,
    emitted: seq<nat>,
    dropped: seq<nat>,
    received: seq<Delivery>)

  const EMPTY := Mux(None, map[], 0, false, [], map[], 0, [], [], 0, [], [], [])

  datatype Event =
    | OpenView(kind: Kind)
    | Submit
    | Connected
    | ConnectFails
    | ChannelCloses(ch: ChanId)
    | ChannelDown(ch: ChanId)
    | DownView(i: nat)
    | RunOnOpen(v: ViewId)
    | CloseView(v: ViewId)
    | Deliver(v: ViewId, kind: Kind)

  function DeliveryTo(v: ViewId, w: View): Delivery {
    Delivery(v, w.kind, w.state, w.oncloses, w.onopens, w.openQueued)
  }

  predicate ChannelOpen(m: Mux) {
    m.channel.Some? && m.channel.value in m.chans && m.chans[m.channel.value].isOpen
  }

  function Opened(w: View): View {
    if w.state == Connecting then w.(state := IsOpen, openQueued := true) else w
  }

  function OpenViews(m: Mux): Mux {
    m.(all := map v | v in m.all :: if v in m.views then Opened(m.all[v]) else m.all[v])
  }

  function AddView(m: Mux, kind: Kind): Mux {
    m.(views := m.views + [m.nextView], all := m.all[m.nextView := View(kind, Connecting, false, 0, 0)],
       nextView := m.nextView + 1)
  }

  function EnsureConnected(m: Mux): Mux {
    if ChannelOpen(m) then OpenViews(m) else m.(connecting := true)
  }

  /** `down`: the views are snapshotted and forgotten; their callbacks follow one by one. */
  function BeginDown(m: Mux): Mux {
    m.(goingDown := m.goingDown + m.views, views := [], channel := None)
  }

  function CloseOne(all: map<ViewId, View>, v: ViewId): map<ViewId, View> {
    if v !in all || all[v].state == Closed then all
    else all[v := all[v].(state := Closed, oncloses := all[v].oncloses + 1)]
  }

  /** One of the snapshotted views gets its callbacks; a nested `down` may overtake an outer one. */
  function CloseGoing(m: Mux, i: nat): Mux
    requires i < |m.goingDown|
  {
    m.(goingDown := m.goingDown[..i] + m.goingDown[i + 1..], all := CloseOne(m.all, m.goingDown[i]))
  }

  function Items(ids: seq<nat>): (e: seq<Envelope>)
    ensures |e| == |ids|
  {
    seq(|ids|, i requires 0 <= i < |ids| => Item(ids[i]))
  }

  function Emit(m: Mux, ids: seq<nat>): Mux
    requires ChannelOpen(m)
  {
    var ch := m.channel.value;
    m.(chans := m.chans[ch := m.chans[ch].(wire := m.chans[ch].wire + Items(ids))], emitted := m.emitted + ids)
  }

  function Shed(m: Mux): Mux
    decreases |m.outbox|
  {
    if |m.outbox| <= OUTBOX_LIMIT then m
    else Shed(m.(outbox := m.outbox[1..], dropped := m.dropped + [m.outbox[0]]))
  }

  function SendEnvelope(m: Mux): Mux {
    var t := m.(submitted := m.submitted + 1);
    if ChannelOpen(t) then Emit(t, [m.submitted])
    else EnsureConnected(Shed(t.(outbox := t.outbox + [m.submitted])))
  }

  /** The connector's channel is adopted, `hello` goes out, and the outbox is taken. */
  function NewChannel(m: Mux): (t: Mux)
    ensures ChannelOpen(t)
  {
    var ch := m.nextChan;
    m.(connecting := false, channel := Some(ch), chans := m.chans[ch := Chan(true, [Hello])],
       nextChan := ch + 1, outbox := [])
  }

  function OnConnected(m: Mux): Mux {
    OpenViews(Emit(NewChannel(m), m.outbox))
  }

  function CloseManager(m: Mux): Mux {
    if ChannelOpen(m) then m.(chans := m.chans[m.channel.value := m.chans[m.channel.value].(isOpen := false)])
    else BeginDown(m)
  }

  function Step(m: Mux, e: Event): Mux {
    match e
    case OpenView(kind) => EnsureConnected(AddView(m, kind))
    case Submit => SendEnvelope(m)
    case Connected => if m.connecting then OnConnected(m) else m
    case ConnectFails => if m.connecting then BeginDown(m.(connecting := false)) else m
    case ChannelCloses(ch) => if ch in m.chans then m.(chans := m.chans[ch := m.chans[ch].(isOpen := false)]) else m
    case ChannelDown(ch) => if ch in m.chans then BeginDown(m) else m
    case DownView(i) => if i < |m.goingDown| then CloseGoing(m, i) else m
    case RunOnOpen(v) =>
      if v in m.all && m.all[v].openQueued then
        var told := m.all[v].onopens + if m.all[v].state == IsOpen then 1 else 0;
        m.(all := m.all[v := m.all[v].(openQueued := false, onopens := told)])
      else m
    case CloseView(v) =>
      if v in m.all && Rank(m.all[v].state) < Rank(Closing) then
        CloseManager(m.(all := m.all[v := m.all[v].(state := Closing)]))
      else m
    case Deliver(v, kind) =>
      if v in m.all && v in m.views && m.all[v].kind == kind && m.all[v].state == IsOpen then
        m.(received := m.received + [DeliveryTo(v, m.all[v])])
      else m
  }

  function Run(m: Mux, events: seq<Event>): Mux
    decreases events
  {
    if events == [] then m else Run(Step(m, events[0]), events[1..])
  }

  // -------------------------------------------------------------- virtual sockets

  predicate ViewOk(w: View) {
    && w.onopens + (if w.openQueued then 1 else 0) <= (if w.state == Connecting then 0 else 1)
    && (w.state == IsOpen ==> w.onopens == 1 || w.openQueued)
    && w.oncloses == (if w.state == Closed then 1 else 0)
  }

  /** To an open socket of the frame's kind, never closed, whose `onopen` was either given once or still waited. */
  predicate DeliveryOk(m: Mux, d: Delivery) {
    && d.state == IsOpen && d.view in m.all && m.all[d.view].kind == d.kind
    && d.closes == 0 && d.opens == (if d.openQueued then 0 else 1)
  }

  ghost predicate ViewsOk(m: Mux) {
    && (forall v :: v in m.all ==> ViewOk(m.all[v]))
    && (forall i :: 0 <= i < |m.received| ==> DeliveryOk(m, m.received[i]))
  }

  ghost predicate SocketInv(m: Mux) {
    ViewsOk(m) && forall v :: v in m.all ==> v < m.nextView
  }

  /** No socket's state moves back, and its callback counts only grow. */
  ghost predicate Forward(m: Mux, t: Mux) {
    forall v :: v in m.all ==>
      && v in t.all && m.all[v].kind == t.all[v].kind && Rank(m.all[v].state) <= Rank(t.all[v].state)
      && m.all[v].onopens <= t.all[v].onopens && m.all[v].oncloses <= t.all[v].oncloses
  }

  lemma OpenViewsOk(m: Mux)
    requires SocketInv(m)
    ensures SocketInv(OpenViews(m)) && Forward(m, OpenViews(m))
  {
  }

  lemma {:induction false} ShedKeepsRest(m: Mux)
    ensures Shed(m) == m.(outbox := Shed(m).outbox, dropped := Shed(m).dropped)
    decreases |m.outbox|
  {
    if |m.outbox| > OUTBOX_LIMIT {
      ShedKeepsRest(m.(outbox := m.outbox[1..], dropped := m.dropped + [m.outbox[0]]));
    }
  }

  lemma SameViewsOk(m: Mux, t: Mux)
    requires SocketInv(m) && t.all == m.all && t.nextView == m.nextView && t.received == m.received
    ensures SocketInv(t) && Forward(m, t)
  {
  }

  lemma OneViewOk(m: Mux, t: Mux, v: ViewId, w: View)
    requires SocketInv(m) && t.all == m.all[v := w] && v in m.all && t.nextView == m.nextView
             && t.received == m.received
    requires ViewOk(w) && w.kind == m.all[v].kind && Rank(m.all[v].state) <= Rank(w.state)
             && m.all[v].onopens <= w.onopens && m.all[v].oncloses <= w.oncloses
    ensures SocketInv(t) && Forward(m, t)
  {
  }

  lemma NewViewOk(m: Mux, kind: Kind)
    requires SocketInv(m)
    ensures SocketInv(AddView(m, kind)) && Forward(m, AddView(m, kind))
  {
  }

  lemma EnsureConnectedOk(m: Mux)
    requires SocketInv(m)
    ensures SocketInv(EnsureConnected(m)) && Forward(m, EnsureConnected(m))
  {
    if ChannelOpen(m) {
      OpenViewsOk(m);
    } else {
      SameViewsOk(m, EnsureConnected(m));
    }
  }

  lemma SendKeepsViews(m: Mux)
    requires SocketInv(m)
    ensures SocketInv(SendEnvelope(m)) && Forward(m, SendEnvelope(m))
  {
    var t := m.(submitted := m.submitted + 1);
    if ChannelOpen(t) {
      SameViewsOk(m, Emit(t, [m.submitted]));
    } else {
      var q := t.(outbox := t.outbox + [m.submitted]);
      ShedKeepsRest(q);
      SameViewsOk(m, Shed(q));
      EnsureConnectedOk(Shed(q));
    }
  }

  lemma ConnectedKeepsViews(m: Mux)
    requires SocketInv(m)
    ensures SocketInv(OnConnected(m)) && Forward(m, OnConnected(m))
  {
    var t := Emit(NewChannel(m), m.outbox);
    SameViewsOk(m, t);
    OpenViewsOk(t);
  }

  lemma CloseKeepsViews(m: Mux, v: ViewId)
    requires SocketInv(m) && v in m.all && Rank(m.all[v].state) < Rank(Closing)
    ensures var t := CloseManager(m.(all := m.all[v := m.all[v].(state := Closing)]));
            SocketInv(t) && Forward(m, t)
  {
    var t := m.(all := m.all[v := m.all[v].(state := Closing)]);
    OneViewOk(m, CloseManager(t), v, m.all[v].(state := Closing));
  }

  lemma DeliverKeepsViews(m: Mux, v: ViewId, kind: Kind)
    requires SocketInv(m)
    ensures SocketInv(Step(m, Deliver(v, kind))) && Forward(m, Step(m, Deliver(v, kind)))
  {
  }

  lemma CloseGoingKeepsViews(m: Mux, i: nat)
    requires SocketInv(m) && i < |m.goingDown|
    ensures SocketInv(CloseGoing(m, i)) && Forward(m, CloseGoing(m, i))
  {
    var v := m.goingDown[i];
    if v in m.all && m.all[v].state != Closed {
      OneViewOk(m, CloseGoing(m, i), v, m.all[v].(state := Closed, oncloses := m.all[v].oncloses + 1));
    } else {
      SameViewsOk(m, CloseGoing(m, i));
    }
  }

  lemma StepKeepsViews(m: Mux, e: Event)
    requires SocketInv(m)
    ensures SocketInv(Step(m, e)) && Forward(m, Step(m, e))
  {
    match e
    case OpenView(kind) => NewViewOk(m, kind); EnsureConnectedOk(AddView(m, kind));
    case Submit => SendKeepsViews(m);
    case Connected => if m.connecting { ConnectedKeepsViews(m); }
    case DownView(i) =>
      if i < |m.goingDown| {
        CloseGoingKeepsViews(m, i);
      }
    case RunOnOpen(v) =>
      if v in m.all && m.all[v].openQueued {
        OneViewOk(m, Step(m, e), v, Step(m, e).all[v]);
      }
    case CloseView(v) => if v in m.all && Rank(m.all[v].state) < Rank(Closing) { CloseKeepsViews(m, v); }
    case Deliver(v, kind) => DeliverKeepsViews(m, v, kind);
    case _ => SameViewsOk(m, Step(m, e));
  }

  lemma {:induction false} RunKeepsViews(m: Mux, events: seq<Event>)
    requires SocketInv(m)
    ensures SocketInv(Run(m, events)) && Forward(m, Run(m, events))
    decreases events
  {
    if events != [] {
      StepKeepsViews(m, events[0]);
      RunKeepsViews(Step(m, events[0]), events[1..]);
    }
  }

  /**
   Over any history a virtual socket gets `onopen` at most once, never while
   connecting and surely if it stays open, `onclose` exactly once if it is closed and not before, and no
   message unless it is open at that moment and the frame is of its kind.
   */
  lemma SocketsBehave(events: seq<Event>, v: ViewId)
    requires v in Run(EMPTY, events).all
    ensures var m := Run(EMPTY, events);
            && m.all[v].onopens <= 1 && (m.all[v].state == Connecting ==> m.all[v].onopens == 0)
            && (m.all[v].state == IsOpen ==> m.all[v].onopens == 1 || m.all[v].openQueued)
            && m.all[v].oncloses == (if m.all[v].state == Closed then 1 else 0)
            && forall i :: 0 <= i < |m.received| ==> DeliveryOk(m, m.received[i])
  {
    RunKeepsViews(EMPTY, events);
  }

  /** A socket's state only moves forward along any continuation of any history. */
  lemma StatesMoveForward(past: seq<Event>, future: seq<Event>, v: ViewId)
    requires v in Run(EMPTY, past).all
    ensures var m := Run(EMPTY, past);
            v in Run(m, future).all && m.all[v].kind == Run(m, future).all[v].kind
              && Rank(m.all[v].state) <= Rank(Run(m, future).all[v].state)
  {
    RunKeepsViews(EMPTY, past);
    RunKeepsViews(Run(EMPTY, past), future);
  }

  // -------------------------------------------------------------------- envelopes

  ghost predicate Increasing(ids: seq<nat>) {
    forall i, j :: 0 <= i < j < |ids| ==> ids[i] < ids[j]
  }

  ghost predicate AllBelow(ids: seq<nat>, bound: nat) {
    forall i :: 0 <= i < |ids| ==> ids[i] < bound
  }

  /** How many submissions have left the outbox one way or the other. */
  function Settled(m: Mux): int {
    m.submitted - |m.outbox|
  }

  ghost predicate OutboxIsTail(m: Mux) {
    && |m.outbox| <= m.submitted
    && forall i :: 0 <= i < |m.outbox| ==> m.outbox[i] == Settled(m) + i
  }

  ghost predicate Accounted(m: Mux) {
    && OutboxIsTail(m)
    && Increasing(m.emitted) && Increasing(m.dropped)
    && AllBelow(m.emitted, m.submitted - |m.outbox|) && AllBelow(m.dropped, m.submitted - |m.outbox|)
    && forall id :: 0 <= id < Settled(m) ==> (id in m.emitted <==> id !in m.dropped)
  }

  ghost predicate OnlyOldShed(m: Mux) {
    forall i :: 0 <= i < |m.dropped| ==> m.dropped[i] + OUTBOX_LIMIT < m.submitted
  }

  /** A channel's wire: one `hello`, then items in submission order, all of them accounted as emitted. */
  ghost predicate WireOk(wire: seq<Envelope>, emitted: seq<nat>) {
    && |wire| > 0 && wire[0] == Hello
    && (forall i :: 1 <= i < |wire| ==> wire[i].Item? && wire[i].id in emitted)
    && (forall i, j :: 1 <= i < j < |wire| ==> wire[i].id < wire[j].id)
  }

  ghost predicate EnvelopeInv(m: Mux) {
    && Accounted(m) && OnlyOldShed(m)
    && |m.outbox| <= OUTBOX_LIMIT
    && (ChannelOpen(m) ==> m.outbox == [])
    && (forall ch :: ch in m.chans ==> ch < m.nextChan && WireOk(m.chans[ch].wire, m.emitted))
  }

  lemma EmitWireOk(wire: seq<Envelope>, emitted: seq<nat>, ids: seq<nat>)
    requires WireOk(wire, emitted) && Increasing(ids)
    requires forall i, j :: 0 <= i < |emitted| && 0 <= j < |ids| ==> emitted[i] < ids[j]
    ensures WireOk(wire + Items(ids), emitted + ids)
    ensures WireOk(wire, emitted + ids)
  {
    var w := wire + Items(ids);
    forall i | 1 <= i < |w| ensures w[i].Item? && w[i].id in emitted + ids {
      if i >= |wire| {
        assert w[i] == Item(ids[i - |wire|]);
      }
    }
    forall i, j | 1 <= i < j < |w| ensures w[i].id < w[j].id {
      if j >= |wire| {
        assert w[j] == Item(ids[j - |wire|]);
        if i >= |wire| {
          assert w[i] == Item(ids[i - |wire|]);
        } else {
          var k :| 0 <= k < |emitted| && emitted[k] == wire[i].id;
        }
      }
    }
  }

  /** The ids a step is about to emit come right after everything settled so far. */
  lemma EmitAccounts(m: Mux, ids: seq<nat>, settledBefore: nat)
    requires Increasing(m.emitted) && Increasing(m.dropped) && AllBelow(m.emitted, settledBefore)
             && AllBelow(m.dropped, settledBefore)
    requires forall id :: 0 <= id < settledBefore ==> (id in m.emitted <==> id !in m.dropped)
    requires forall i :: 0 <= i < |ids| ==> ids[i] == settledBefore + i
    ensures Increasing(m.emitted + ids) && AllBelow(m.emitted + ids, settledBefore + |ids|)
    ensures AllBelow(m.dropped, settledBefore + |ids|)
    ensures forall id :: 0 <= id < settledBefore + |ids| ==> (id in m.emitted + ids <==> id !in m.dropped)
  {
    forall id | 0 <= id < settledBefore + |ids| ensures id in m.emitted + ids <==> id !in m.dropped {
      if id >= settledBefore {
        assert ids[id - settledBefore] == id;
      }
    }
  }

  /** One more envelope on an open channel, or the whole outbox on a new one. */
  lemma EmitKeepsInv(m: Mux, ids: seq<nat>, settledBefore: nat)
    requires ChannelOpen(m) && m.outbox == [] && m.submitted == settledBefore + |ids|
    requires Increasing(m.emitted) && Increasing(m.dropped) && AllBelow(m.emitted, settledBefore)
             && AllBelow(m.dropped, settledBefore)
    requires forall id :: 0 <= id < settledBefore ==> (id in m.emitted <==> id !in m.dropped)
    requires forall i :: 0 <= i < |ids| ==> ids[i] == settledBefore + i
    requires OnlyOldShed(m)
    requires forall ch :: ch in m.chans ==> ch < m.nextChan && WireOk(m.chans[ch].wire, m.emitted)
    ensures EnvelopeInv(Emit(m, ids))
  {
    EmitAccounts(m, ids, settledBefore);
    var t := Emit(m, ids);
    forall ch | ch in t.chans ensures ch < t.nextChan && WireOk(t.chans[ch].wire, t.emitted) {
      EmitWireOk(m.chans[ch].wire, m.emitted, ids);
    }
  }

  lemma OpenViewsKeepsEnvelopes(m: Mux)
    requires EnvelopeInv(m)
    ensures EnvelopeInv(OpenViews(m)) && EnvelopeInv(EnsureConnected(m))
  {
  }

  /** Queuing the 65th envelope sheds exactly the oldest. */
  lemma QueueKeepsInv(m: Mux)
    requires EnvelopeInv(m) && !ChannelOpen(m)
    ensures EnvelopeInv(Shed(m.(submitted := m.submitted + 1, outbox := m.outbox + [m.submitted])))
    ensures !ChannelOpen(Shed(m.(submitted := m.submitted + 1, outbox := m.outbox + [m.submitted])))
  {
    var t := m.(submitted := m.submitted + 1, outbox := m.outbox + [m.submitted]);
    assert OutboxIsTail(t);
    if |t.outbox| > OUTBOX_LIMIT {
      var u := t.(outbox := t.outbox[1..], dropped := t.dropped + [t.outbox[0]]);
      assert Shed(t) == Shed(u) == u;
      assert u.dropped[|u.dropped| - 1] == Settled(t);
      forall id | 0 <= id < Settled(u) ensures id in u.emitted <==> id !in u.dropped {
        assert id == Settled(t) ==> id !in u.emitted;
      }
    }
  }

  /** One more envelope on an open channel. */
  lemma SendOpenKeepsInv(m: Mux)
    requires EnvelopeInv(m) && ChannelOpen(m)
    ensures EnvelopeInv(Emit(m.(submitted := m.submitted + 1), [m.submitted]))
  {
    EmitKeepsInv(m.(submitted := m.submitted + 1), [m.submitted], m.submitted);
  }

  lemma SendKeepsInv(m: Mux)
    requires EnvelopeInv(m)
    ensures EnvelopeInv(SendEnvelope(m))
  {
    if ChannelOpen(m) {
      SendOpenKeepsInv(m);
    } else {
      QueueKeepsInv(m);
      OpenViewsKeepsEnvelopes(Shed(m.(submitted := m.submitted + 1, outbox := m.outbox + [m.submitted])));
    }
  }

  lemma ConnectedKeepsInv(m: Mux)
    requires EnvelopeInv(m)
    ensures EnvelopeInv(OnConnected(m))
  {
    EmitKeepsInv(NewChannel(m), m.outbox, m.submitted - |m.outbox|);
    OpenViewsKeepsEnvelopes(Emit(NewChannel(m), m.outbox));
  }

  /** A step that sends nothing, queues nothing and opens no channel. */
  ghost predicate QuietStep(m: Mux, t: Mux) {
    && t.outbox == m.outbox && t.submitted == m.submitted && t.emitted == m.emitted && t.dropped == m.dropped
    && t.nextChan == m.nextChan && (ChannelOpen(t) ==> ChannelOpen(m))
    && t.chans.Keys == m.chans.Keys && forall ch :: ch in m.chans ==> t.chans[ch].wire == m.chans[ch].wire
  }

  lemma QuietStepKeepsEnvelopes(m: Mux, t: Mux)
    requires EnvelopeInv(m) && QuietStep(m, t)
    ensures EnvelopeInv(t)
  {
    assert Accounted(t);
  }

  lemma ClosingIsQuiet(m: Mux, ch: ChanId)
    requires ch in m.chans
    ensures QuietStep(m, m.(chans := m.chans[ch := m.chans[ch].(isOpen := false)]))
  {
  }

  lemma CloseViewIsQuiet(m: Mux, v: ViewId)
    ensures QuietStep(m, Step(m, CloseView(v)))
  {
    if v in m.all && Rank(m.all[v].state) < Rank(Closing) && ChannelOpen(m) {
      ClosingIsQuiet(m.(all := m.all[v := m.all[v].(state := Closing)]), m.channel.value);
    }
  }

  lemma StepKeepsEnvelopes(m: Mux, e: Event)
    requires EnvelopeInv(m)
    ensures EnvelopeInv(Step(m, e))
  {
    match e
    case OpenView(kind) =>
      QuietStepKeepsEnvelopes(m, AddView(m, kind));
      OpenViewsKeepsEnvelopes(AddView(m, kind));
    case Submit => SendKeepsInv(m);
    case Connected => if m.connecting { ConnectedKeepsInv(m); }
    case ChannelCloses(ch) =>
      if ch in m.chans {
        ClosingIsQuiet(m, ch);
        QuietStepKeepsEnvelopes(m, Step(m, e));
      }
    case CloseView(v) =>
      CloseViewIsQuiet(m, v);
      QuietStepKeepsEnvelopes(m, Step(m, e));
    case _ => QuietStepKeepsEnvelopes(m, Step(m, e));
  }

  lemma {:induction false} RunKeepsEnvelopes(m: Mux, events: seq<Event>)
    requires EnvelopeInv(m)
    ensures EnvelopeInv(Run(m, events))
    decreases events
  {
    if events != [] {
      StepKeepsEnvelopes(m, events[0]);
      RunKeepsEnvelopes(Step(m, events[0]), events[1..]);
    }
  }

  /**
   Over any history of connects, drops and sends: every channel carries `hello`
   first and then items in submission order; across all channels items go out in
   submission order; every submission is sent once, still waiting, or shed, and
   none of the latest sixty-four is ever shed.
   */
  lemma EnvelopesInOrder(events: seq<Event>)
    ensures var m := Run(EMPTY, events);
            && (forall ch :: ch in m.chans ==> WireOk(m.chans[ch].wire, m.emitted))
            && Increasing(m.emitted) && |m.outbox| <= OUTBOX_LIMIT
            && (forall id :: 0 <= id < m.submitted ==>
                  if id >= m.submitted - |m.outbox| then id in m.outbox && id !in m.emitted && id !in m.dropped
                  else id !in m.outbox && (id in m.emitted <==> id !in m.dropped))
            && (forall id :: id in m.dropped ==> id + OUTBOX_LIMIT < m.submitted)
            && (ChannelOpen(m) ==> m.outbox == [])
  {
    RunKeepsEnvelopes(EMPTY, events);
    var m := Run(EMPTY, events);
    forall id | 0 <= id < m.submitted && id >= Settled(m) ensures id in m.outbox {
      assert m.outbox[id - Settled(m)] == id;
    }
  }

  /** What has been emitted stands on the wire of a channel that was adopted. */
  ghost predicate OnTheWire(m: Mux) {
    && (m.channel.Some? ==> m.channel.value < m.nextChan)
    && (forall ch :: ch in m.chans ==> ch < m.nextChan)
    && forall id :: id in m.emitted ==> exists ch :: ch in m.chans && Item(id) in m.chans[ch].wire
  }

  predicate WiresGrow(m: Mux, t: Mux) {
    forall ch :: ch in m.chans ==> ch in t.chans && m.chans[ch].wire <= t.chans[ch].wire
  }

  lemma GrowthKeepsWire(m: Mux, t: Mux)
    requires OnTheWire(m) && WiresGrow(m, t) && t.emitted == m.emitted
    requires (t.channel.Some? ==> t.channel.value < t.nextChan) && forall ch :: ch in t.chans ==> ch < t.nextChan
    ensures OnTheWire(t)
  {
    forall id | id in t.emitted ensures exists ch :: ch in t.chans && Item(id) in t.chans[ch].wire {
      var ch :| ch in m.chans && Item(id) in m.chans[ch].wire;
      var i :| 0 <= i < |m.chans[ch].wire| && m.chans[ch].wire[i] == Item(id);
      assert t.chans[ch].wire[i] == Item(id);
    }
  }

  lemma EmitIsOnTheWire(m: Mux, ids: seq<nat>)
    requires OnTheWire(m) && ChannelOpen(m)
    ensures OnTheWire(Emit(m, ids))
  {
    var t := Emit(m, ids);
    GrowthKeepsWire(m, t.(emitted := m.emitted));
    var ch := m.channel.value;
    forall id | id in ids ensures Item(id) in t.chans[ch].wire {
      var i :| 0 <= i < |ids| && ids[i] == id;
      assert t.chans[ch].wire[|m.chans[ch].wire| + i] == Items(ids)[i];
    }
  }

  lemma SubmitIsOnTheWire(m: Mux)
    requires OnTheWire(m)
    ensures OnTheWire(SendEnvelope(m))
  {
    var t := m.(submitted := m.submitted + 1);
    if ChannelOpen(t) {
      EmitIsOnTheWire(t, [m.submitted]);
    } else {
      ShedKeepsRest(t.(outbox := t.outbox + [m.submitted]));
    }
  }

  lemma StepKeepsWire(m: Mux, e: Event)
    requires OnTheWire(m)
    ensures OnTheWire(Step(m, e))
  {
    match e
    case Submit => SubmitIsOnTheWire(m);
    case Connected =>
      if m.connecting {
        GrowthKeepsWire(m, NewChannel(m));
        EmitIsOnTheWire(NewChannel(m), m.outbox);
      }
    case ChannelCloses(ch) => GrowthKeepsWire(m, Step(m, e));
    case CloseView(v) => GrowthKeepsWire(m, Step(m, e));
    case _ =>
  }

  /** Every envelope counted as emitted has gone out on some channel, in every reachable state. */
  lemma {:induction false} EmittedIsOnTheWire(m: Mux, events: seq<Event>)
    requires OnTheWire(m)
    ensures OnTheWire(Run(m, events))
    decreases events
  {
    if events != [] {
      StepKeepsWire(m, events[0]);
      EmittedIsOnTheWire(Step(m, events[0]), events[1..]);
    }
  }

  // ------------------------------------------------------------------- what does happen

  /** The registered sockets are known, distinct and not from the future; those that connect have someone connecting. */
  ghost predicate Registered(m: Mux) {
    && (forall i :: 0 <= i < |m.views| ==> m.views[i] in m.all)
    && (forall i, j :: 0 <= i < j < |m.views| ==> m.views[i] != m.views[j])
    && (forall v :: v in m.all ==> v < m.nextView)
    && (forall v :: v in m.views && m.all[v].state == Connecting ==> m.connecting)
  }

  lemma OpenViewsRegistered(m: Mux)
    requires forall i :: 0 <= i < |m.views| ==> m.views[i] in m.all
    requires forall i, j :: 0 <= i < j < |m.views| ==> m.views[i] != m.views[j]
    requires forall v :: v in m.all ==> v < m.nextView
    ensures Registered(OpenViews(m))
  {
  }

  lemma EnsureConnectedRegisters(m: Mux)
    requires forall i :: 0 <= i < |m.views| ==> m.views[i] in m.all
    requires forall i, j :: 0 <= i < j < |m.views| ==> m.views[i] != m.views[j]
    requires forall v :: v in m.all ==> v < m.nextView
    ensures Registered(EnsureConnected(m)) && (EnsureConnected(m).connecting || ChannelOpen(m))
  {
    if ChannelOpen(m) {
      OpenViewsRegistered(m);
    }
  }

  lemma SubmitKeepsRegistered(m: Mux)
    requires Registered(m)
    ensures Registered(SendEnvelope(m)) && (ChannelOpen(m) || SendEnvelope(m).connecting)
  {
    var t := m.(submitted := m.submitted + 1);
    if !ChannelOpen(t) {
      var q := t.(outbox := t.outbox + [m.submitted]);
      ShedKeepsRest(q);
      EnsureConnectedRegisters(Shed(q));
    }
  }

  lemma CloseKeepsRegistered(m: Mux, v: ViewId)
    requires Registered(m)
    ensures Registered(Step(m, CloseView(v)))
  {
  }

  lemma StepKeepsRegistered(m: Mux, e: Event)
    requires Registered(m)
    ensures Registered(Step(m, e))
  {
    match e
    case OpenView(kind) => EnsureConnectedRegisters(AddView(m, kind));
    case Submit => SubmitKeepsRegistered(m);
    case Connected => if m.connecting { OpenViewsRegistered(Emit(NewChannel(m), m.outbox)); }
    case CloseView(v) => CloseKeepsRegistered(m, v);
    case _ =>
  }

  lemma {:induction false} RunKeepsRegistered(m: Mux, events: seq<Event>)
    requires Registered(m)
    ensures Registered(Run(m, events))
    decreases events
  {
    if events != [] {
      StepKeepsRegistered(m, events[0]);
      RunKeepsRegistered(Step(m, events[0]), events[1..]);
    }
  }

  /**
   No request is left without a connect: in every reachable state a registered socket that
   still connects has one under way, and so has an envelope just submitted without a channel.
   */
  lemma NobodyWaitsAlone(events: seq<Event>, v: ViewId)
    ensures var m := Run(EMPTY, events);
            && (v in m.views && v in m.all && m.all[v].state == Connecting ==> m.connecting)
            && (ChannelOpen(m) || Step(m, Submit).connecting)
  {
    RunKeepsRegistered(EMPTY, events);
    SubmitKeepsRegistered(Run(EMPTY, events));
  }

  /** A connect that succeeds opens every registered socket that waited, and one that fails closes them all. */
  lemma ConnectSettles(events: seq<Event>, v: ViewId)
    requires Run(EMPTY, events).connecting && v in Run(EMPTY, events).views
    ensures var m := Run(EMPTY, events);
            && v in m.all
            && var t := Step(m, Connected);
               && t.all[v] == (if m.all[v].state == Connecting then m.all[v].(state := IsOpen, openQueued := true)
                               else m.all[v])
               && ChannelOpen(t) && t.views == m.views && !t.connecting
    ensures var m := Run(EMPTY, events);
            var f := Step(m, ConnectFails);
            !f.connecting && f.channel == None && f.views == [] && v in f.goingDown
  {
    RunKeepsRegistered(EMPTY, events);
    var m := Run(EMPTY, events);
    var i :| 0 <= i < |m.views| && m.views[i] == v;
    assert BeginDown(m).goingDown[|m.goingDown| + i] == v;
  }

  /** On an open channel a new socket is open at once, its `onopen` queued; without one it waits for a connect. */
  lemma NewSocketOpens(m: Mux, kind: Kind)
    requires forall v :: v in m.all ==> v < m.nextView
    ensures var v, t := m.nextView, Step(m, OpenView(kind));
            && v in t.all && t.views == m.views + [v] && v !in m.all
            && t.all[v] == View(kind, if ChannelOpen(m) then IsOpen else Connecting, ChannelOpen(m), 0, 0)
            && (ChannelOpen(m) || t.connecting)
  {
    assert (m.views + [m.nextView])[|m.views|] == m.nextView;
  }

  /** A connect leaves alone the sockets that are no longer registered, and so does every frame. */
  lemma UnregisteredAreLeft(m: Mux, v: ViewId, kind: Kind)
    requires v in m.all && v !in m.views
    ensures var t := Step(m, Connected); v in t.all && t.all[v] == m.all[v]
    ensures Step(m, Deliver(v, kind)) == m
  {
  }

  /** A channel that closes is closed, its end takes every registered socket down, and the rest stays as it is. */
  lemma ChannelsEnd(m: Mux, ch: ChanId)
    requires ch in m.chans
    ensures Step(m, ChannelCloses(ch)) == m.(chans := m.chans[ch := Chan(false, m.chans[ch].wire)])
    ensures Step(m, ChannelDown(ch)) == m.(channel := None, views := [], goingDown := m.goingDown + m.views)
  {
  }

  /** The `onopen` microtask runs once, and tells only a socket that is still open. */
  lemma OnOpenTellsOnce(m: Mux, v: ViewId)
    requires v in m.all
    ensures var t := Step(m, RunOnOpen(v));
            && v in t.all && !t.all[v].openQueued
            && t.all[v].onopens == m.all[v].onopens + (if m.all[v].openQueued && m.all[v].state == IsOpen then 1 else 0)
            && t == m.(all := m.all[v := m.all[v].(openQueued := false, onopens := t.all[v].onopens)])
  {
    assert m.all == m.all[v := m.all[v]];
  }

  /** Closing one socket closes the shared channel, or takes every registered socket down at once. */
  lemma ClosingOneClosesAll(m: Mux, v: ViewId)
    requires v in m.all && Rank(m.all[v].state) < Rank(Closing)
    ensures var t := Step(m, CloseView(v));
            && t.all == m.all[v := m.all[v].(state := Closing)]
            && (if ChannelOpen(m) then !ChannelOpen(t) && t.views == m.views && t.channel == m.channel
                else t.views == [] && t.channel == None && t.goingDown == m.goingDown + m.views)
  {
  }

  /** In every reachable state an open socket has been told `onopen` exactly when no `onopen` waits for it. */
  lemma OpenSocketsOnOpen(events: seq<Event>, v: ViewId)
    requires v in Run(EMPTY, events).all && Run(EMPTY, events).all[v].state == IsOpen
    ensures var w := Run(EMPTY, events).all[v];
            w.onopens <= 1 && (w.onopens == 0 <==> w.openQueued)
  {
    RunKeepsViews(EMPTY, events);
  }

  /**
   A message delivered at any point of any history comes before the socket's `onopen`
   if and only if the microtask that gives it is still queued.
   */
  lemma MessagePrecedesOnOpenIff(events: seq<Event>, v: ViewId, kind: Kind)
    requires Step(Run(EMPTY, events), Deliver(v, kind)).received != Run(EMPTY, events).received
    ensures var m := Run(EMPTY, events);
            && v in m.all && Step(m, Deliver(v, kind)).received == m.received + [DeliveryTo(v, m.all[v])]
            && (m.all[v].onopens == 0 <==> m.all[v].openQueued)
  {
    OpenSocketsOnOpen(events, v);
  }

  /** It happens: an open socket can be given a message before its `onopen`. */
  lemma MessageMayPrecedeOnOpen()
    ensures var m := Step(Step(Step(EMPTY, OpenView(SignalKind)), Connected), Deliver(0, SignalKind));
            0 in m.all && m.received == [Delivery(0, SignalKind, IsOpen, 0, 0, true)] && m.all[0].onopens == 0
  {
    var m1 := Step(EMPTY, OpenView(SignalKind));
    assert m1.connecting && m1.views == [0];
    var m2 := Step(m1, Connected);
    assert m2.all[0] == View(SignalKind, IsOpen, true, 0, 0);
  }

  // ------------------------------------------------------------------ the manager

  /** `down` with callbacks that do not re-enter: every snapshotted socket in turn. */
  function DownAll(m: Mux): Mux
    decreases |m.goingDown|
  {
    if m.goingDown == [] then m else DownAll(CloseGoing(m, 0))
  }

  /** It is a run of single callbacks, so what holds over every history holds after it. */
  lemma {:induction false} DownAllIsRun(m: Mux)
    ensures DownAll(m) == Run(m, seq(|m.goingDown|, _ => DownView(0)))
    decreases |m.goingDown|
  {
    if m.goingDown != [] {
      DownAllIsRun(CloseGoing(m, 0));
      assert seq(|m.goingDown|, _ => DownView(0))[1..] == seq(|m.goingDown| - 1, _ => DownView(0));
    }
  }

  function CloseAll(all: map<ViewId, View>, gone: seq<ViewId>): map<ViewId, View>
    decreases |gone|
  {
    if gone == [] then all else CloseAll(CloseOne(all, gone[0]), gone[1..])
  }

  lemma {:induction false} CloseAllOneMore(all: map<ViewId, View>, gone: seq<ViewId>, v: ViewId)
    ensures CloseAll(all, gone + [v]) == CloseOne(CloseAll(all, gone), v)
    decreases |gone|
  {
    if gone == [] {
      assert [v][1..] == [];
    } else {
      assert (gone + [v])[1..] == gone[1..] + [v];
      CloseAllOneMore(CloseOne(all, gone[0]), gone[1..], v);
    }
  }

  lemma {:induction false} DownAllClosesAll(m: Mux)
    ensures DownAll(m) == m.(goingDown := [], all := CloseAll(m.all, m.goingDown))
    decreases |m.goingDown|
  {
    if m.goingDown != [] {
      assert m.goingDown[..0] + m.goingDown[1..] == m.goingDown[1..];
      DownAllClosesAll(CloseGoing(m, 0));
    }
  }

  lemma {:induction false} CloseAllCloses(all: map<ViewId, View>, gone: seq<ViewId>, v: ViewId)
    requires v in all
    ensures v in CloseAll(all, gone)
    ensures CloseAll(all, gone)[v] ==
            if v in gone && all[v].state != Closed then all[v].(state := Closed, oncloses := all[v].oncloses + 1)
            else all[v]
    decreases |gone|
  {
    if gone != [] {
      assert gone == [gone[0]] + gone[1..];
      CloseAllCloses(CloseOne(all, gone[0]), gone[1..], v);
    }
  }

  /**
   `down` forgets the channel and every registered socket, closes each of these that is
   not yet closed with one `onclose`, and touches no other.
   */
  lemma DownClosesRegistered(m: Mux, v: ViewId)
    requires v in m.all && m.goingDown == []
    ensures var t := DownAll(BeginDown(m));
            && t.channel == None && t.views == [] && t.goingDown == [] && v in t.all
            && t.all[v] == (if v in m.views && m.all[v].state != Closed
                            then m.all[v].(state := Closed, oncloses := m.all[v].oncloses + 1) else m.all[v])
  {
    DownAllClosesAll(BeginDown(m));
    assert [] + m.views == m.views;
    CloseAllCloses(m.all, m.views, v);
  }

  lemma EmitNothing(m: Mux)
    requires ChannelOpen(m)
    ensures Emit(m, []) == m
  {
    var c := m.chans[m.channel.value];
    assert c.wire + Items([]) == c.wire;
    assert Emit(m, []).chans == m.chans;
  }

  lemma EmitOneMore(m: Mux, ids: seq<nat>, id: nat)
    requires ChannelOpen(m)
    ensures ChannelOpen(Emit(m, ids)) && Emit(Emit(m, ids), [id]) == Emit(m, ids + [id])
  {
    assert Items(ids + [id]) == Items(ids) + [Item(id)] && Items([id]) == [Item(id)];
    var ch := m.channel.value;
    assert m.chans[ch].wire + Items(ids) + [Item(id)] == m.chans[ch].wire + Items(ids + [id]);
    assert Emit(Emit(m, ids), [id]).chans == Emit(m, ids + [id]).chans;
    assert m.emitted + ids + [id] == m.emitted + (ids + [id]);
  }

  function DeliverAll(m: Mux, kind: Kind, to: seq<ViewId>): (t: Mux)
    ensures t.views == m.views && t.all == m.all
  {
    if to == [] then m else Step(DeliverAll(m, kind, to[..|to| - 1]), Deliver(to[|to| - 1], kind))
  }

  /** The deliveries of one frame: the open sockets of its kind, in the order of registration. */
  function Addressed(all: map<ViewId, View>, kind: Kind, targets: seq<ViewId>): seq<Delivery> {
    if targets == [] then []
    else (if targets[0] in all && all[targets[0]].kind == kind && all[targets[0]].state == IsOpen
          then [DeliveryTo(targets[0], all[targets[0]])] else []) + Addressed(all, kind, targets[1..])
  }

  lemma {:induction false} AddressedSnoc(all: map<ViewId, View>, kind: Kind, targets: seq<ViewId>, v: ViewId)
    ensures Addressed(all, kind, targets + [v]) == Addressed(all, kind, targets) + Addressed(all, kind, [v])
    decreases targets
  {
    if targets == [] {
      assert [] + [v] == [v];
    } else {
      assert (targets + [v])[1..] == targets[1..] + [v];
      AddressedSnoc(all, kind, targets[1..], v);
    }
  }

  lemma OneDelivery(m: Mux, kind: Kind, v: ViewId)
    requires v in m.views
    ensures Step(m, Deliver(v, kind)) == m.(received := m.received + Addressed(m.all, kind, [v]))
  {
    assert [v][1..] == [];
    assert m.received + [] == m.received;
  }

  lemma AppendTwice<T>(a: seq<T>, b: seq<T>, c: seq<T>)
    ensures (a + b) + c == a + (b + c)
  {
  }

  /** A frame goes once to each open socket of its kind, in order, and changes nothing else. */
  lemma {:induction false} DeliversToAddressed(m: Mux, kind: Kind, targets: seq<ViewId>)
    requires forall i :: 0 <= i < |targets| ==> targets[i] in m.views
    ensures DeliverAll(m, kind, targets) == m.(received := m.received + Addressed(m.all, kind, targets))
    decreases |targets|
  {
    if targets == [] {
      assert m.received + [] == m.received;
    } else {
      var n := |targets| - 1;
      DeliversToAddressed(m, kind, targets[..n]);
      AddressedSnoc(m.all, kind, targets[..n], targets[n]);
      assert targets == targets[..n] + [targets[n]];
      OneDelivery(DeliverAll(m, kind, targets[..n]), kind, targets[n]);
      AppendTwice(m.received, Addressed(m.all, kind, targets[..n]), Addressed(m.all, kind, [targets[n]]));
    }
  }

  /** The manager. Sockets and channels are records it owns; `submitted` names the next envelope. */
  class EncryptedControlManager {
    var channel: Option<ChanId>
    var chans: map<ChanId, Chan>
    var nextChan: ChanId
    var connecting: bool
    var views: seq<ViewId>
    var all: map<ViewId, View>
    var nextView: ViewId
    var outbox: seq<nat>
    var submitted: nat
    ghost var emitted: seq<nat>
    ghost var dropped: seq<nat>
    ghost var received: seq<Delivery>

    ghost function State(): Mux
      reads this
    {
      Mux(channel, chans, nextChan, connecting, views, all, nextView, [], outbox, submitted, emitted, dropped, received)
    }

    ghost predicate Valid()
      reads this
    {
      && (forall i :: 0 <= i < |views| ==> views[i] in all)
      && (forall v :: v in all ==> v < nextView)
      && (channel.Some? ==> channel.value in chans)
    }

    constructor ()
      ensures Valid() && State() == EMPTY
    {
      channel, chans, nextChan, connecting := None, map[], 0, false;
      views, all, nextView, outbox, submitted := [], map[], 0, [], 0;
      emitted, dropped, received := [], [], [];
    }

    method OpenAllViews()
      requires Valid()
      modifies this
      ensures Valid() && State() == OpenViews(old(State()))
    {
      var i := 0;
      while i < |views|
        modifies `all
        invariant 0 <= i <= |views|
        invariant all == map v | v in old(all) :: if v in views[..i] then Opened(old(all)[v]) else old(all)[v]
      {
        var v := views[i];
        if all[v].state == Connecting {
          all := all[v := all[v].(state := IsOpen, openQueued := true)];
        }
        i := i + 1;
      }
      assert views[..i] == views;
    }

    method Ensure()
      requires Valid()
      modifies this
      ensures Valid() && State() == EnsureConnected(old(State()))
    {
      if channel.Some? && chans[channel.value].isOpen {
        OpenAllViews();
      } else if !connecting {
        connecting := true;
      }
    }

    method Open(kind: Kind) returns (view: ViewId)
      requires Valid()
      modifies this
      ensures Valid() && State() == Step(old(State()), OpenView(kind)) && view == old(nextView)
    {
      view := nextView;
      nextView := nextView + 1;
      all := all[view := View(kind, Connecting, false, 0, 0)];
      views := views + [view];
      Ensure();
    }

    method SendOpen(id: nat)
      requires Valid() && ChannelOpen(State())
      modifies `chans, `emitted
      ensures Valid() && State() == Emit(old(State()), [id])
    {
      var ch := channel.value;
      chans := chans[ch := chans[ch].(wire := chans[ch].wire + [Item(id)])];
      emitted := emitted + [id];
      assert Items([id]) == [Item(id)];
    }

    /** Queues one envelope and sheds the oldest beyond the limit. */
    method Queue(id: nat)
      requires Valid()
      modifies `outbox, `dropped
      ensures Valid() && State() == Shed(old(State().(outbox := outbox + [id])))
    {
      outbox := outbox + [id];
      ghost var queued := State();
      while |outbox| > OUTBOX_LIMIT
        invariant Valid() && Shed(State()) == Shed(queued)
        decreases |outbox|
      {
        dropped := dropped + [outbox[0]];
        outbox := outbox[1..];
      }
    }

    method Send()
      requires Valid()
      modifies this
      ensures Valid() && State() == Step(old(State()), Submit)
    {
      var id := submitted;
      submitted := submitted + 1;
      if channel.Some? && chans[channel.value].isOpen {
        SendOpen(id);
      } else {
        Queue(id);
        Ensure();
      }
    }

    method Flush(queued: seq<nat>)
      requires Valid() && ChannelOpen(State())
      modifies `chans, `emitted
      ensures Valid() && State() == Emit(old(State()), queued)
    {
      EmitNothing(State());
      assert queued[..0] == [];
      var i := 0;
      while i < |queued|
        invariant 0 <= i <= |queued| && Valid()
        invariant State() == Emit(old(State()), queued[..i])
      {
        EmitOneMore(old(State()), queued[..i], queued[i]);
        SendOpen(queued[i]);
        assert queued[..i] + [queued[i]] == queued[..i + 1];
        i := i + 1;
      }
      assert queued[..i] == queued;
    }

    /** The connect promise resolved with an open channel. */
    method OnChannel()
      requires Valid() && connecting
      modifies this
      ensures Valid() && State() == Step(old(State()), Connected)
    {
      connecting := false;
      channel, chans, nextChan := Some(nextChan), chans[nextChan := Chan(true, [Hello])], nextChan + 1;
      var queued := outbox;
      outbox := [];
      assert State() == NewChannel(old(State()));
      Flush(queued);
      OpenAllViews();
    }

    method CloseEach(snapshot: seq<ViewId>)
      requires forall i :: 0 <= i < |snapshot| ==> snapshot[i] in all
      modifies `all
      ensures all.Keys == old(all.Keys) && all == CloseAll(old(all), snapshot)
    {
      var i := 0;
      while i < |snapshot|
        invariant 0 <= i <= |snapshot|
        invariant all.Keys == old(all.Keys) && all == CloseAll(old(all), snapshot[..i])
      {
        var v := snapshot[i];
        CloseAllOneMore(old(all), snapshot[..i], v);
        assert snapshot[..i] + [v] == snapshot[..i + 1];
        if all[v].state != Closed {
          all := all[v := all[v].(state := Closed, oncloses := all[v].oncloses + 1)];
        }
        i := i + 1;
      }
      assert snapshot[..i] == snapshot;
    }

    method Down()
      requires Valid()
      modifies this
      ensures Valid() && State() == DownAll(BeginDown(old(State())))
    {
      var snapshot := views;
      views := [];
      channel := None;
      CloseEach(snapshot);
      DownAllClosesAll(BeginDown(old(State())));
      assert BeginDown(old(State())).goingDown == snapshot;
    }

    /** `close` of the manager: the open channel closes, or everything goes down at once. */
    method CloseChannel()
      requires Valid()
      modifies this
      ensures Valid() && State() == DownAll(CloseManager(old(State())))
    {
      if channel.Some? && chans[channel.value].isOpen {
        chans := chans[channel.value := chans[channel.value].(isOpen := false)];
      } else {
        Down();
      }
    }

    method CloseSocket(view: ViewId)
      requires Valid() && view in all
      modifies this
      ensures Valid() && State() == DownAll(Step(old(State()), CloseView(view)))
    {
      if all[view].state == Closing || all[view].state == Closed {
        return;
      }
      all := all[view := all[view].(state := Closing)];
      CloseChannel();
    }

    method DeliverOne(view: ViewId, kind: Kind)
      requires Valid() && view in views
      modifies `received
      ensures State() == Step(old(State()), Deliver(view, kind))
    {
      if all[view].kind == kind && all[view].state == IsOpen {
        received := received + [DeliveryTo(view, all[view])];
      }
    }

    /** A frame goes to every socket of its kind that is open when its turn comes. */
    method DeliverFrame(kind: Kind)
      requires Valid()
      modifies `received
      ensures Valid() && State() == DeliverAll(old(State()), kind, old(views))
    {
      var i := 0;
      while i < |views|
        invariant 0 <= i <= |views|
        invariant State() == DeliverAll(old(State()), kind, views[..i])
      {
        assert views[..i + 1][..i] == views[..i];
        DeliverOne(views[i], kind);
        i := i + 1;
      }
      assert views[..i] == views;
    }
  }
}
