/**
 The focus-signal socket of kbd/signal.js: connect, reconnect with backoff,
 callbacks of sockets that have been replaced, and the HTTP bridge that polls
 while no socket is open. Every callback and timer is one step.
 */
module Signal {
  import opened Prelude

  type SockId = nat
  type PollId = nat

  const BACKOFF_MIN := 500
  const BACKOFF_MAX := 10000

  datatype ReadyState = Connecting | IsOpen | Closing | Closed

  datatype Sock = Sock(state: ReadyState, handlers: bool, connectTimer: bool)

  /** `opens` at the request; the data callback runs at most once, before the final one. */
  datatype Poll = Poll(gen: nat, opens: nat, answered: bool)

  /** History of what reached the core, with the facts that decide whether it was current. */
  datatype Applied =
    | Frame(from: SockId, dialled: nat)
    | Snapshot(requestedAt: nat, appliedAt: nat, live: bool)

  datatype State = State(
    started: bool,
    socks: map<SockId, Sock>,
    nextSock: SockId,
    sock: Option<SockId>,
    reconnectArmed: bool,
    backoff: nat,
    everOpened: bool,
    bridgeTimer: bool,
    bridgeInflight: bool,
    bridgeGen: nat,
    polls: map<PollId, Poll>,
    nextPoll: PollId,
    opens: nat,
    applied: seq<Applied>)

  datatype Event =
    | Start(throws: bool)
    | ReconnectFires(throws: bool)
    | ConnectTimeout(s: SockId)
    | Opened(s: SockId)
    | Message(s: SockId, forCore: bool)
    | Down(s: SockId)
    | Kick(overdue: bool, closesAtOnce: bool, throws: bool)
    | StaleTick(stale: bool)
    | StartBridge
    | PollTimer(windowMissed: bool, urlThrows: bool)
    | PollData(p: PollId, hasData: bool)
    | PollDone(p: PollId)

  const INITIAL := State(false, map[], 0, None, false, BACKOFF_MIN, false, false, false, 0, map[], 0, 0, [])

  predicate Live(st: State) {
    st.sock.Some? && st.sock.value in st.socks && st.socks[st.sock.value].state == IsOpen
  }

  function ScheduleReconnect(st: State): State {
    if st.reconnectArmed then st
    else st.(reconnectArmed := true, backoff := if st.everOpened then Min(st.backoff * 2, BACKOFF_MAX) else st.backoff)
  }

  function Connect(st: State, throws: bool): State {
    if st.sock.Some? && st.sock.value in st.socks
      && (st.socks[st.sock.value].state == Connecting || st.socks[st.sock.value].state == IsOpen)
    then st
    else if throws then ScheduleReconnect(st)
    else st.(socks := st.socks[st.nextSock := Sock(Connecting, true, true)],
             sock := Some(st.nextSock), nextSock := st.nextSock + 1)
  }

  function CloseSock(st: State, s: SockId): State {
    if s in st.socks && (st.socks[s].state == Connecting || st.socks[s].state == IsOpen)
    then st.(socks := st.socks[s := st.socks[s].(state := Closing)]) else st
  }

  function StopBridge(st: State): State {
    st.(bridgeTimer := false, bridgeGen := st.bridgeGen + 1, bridgeInflight := false)
  }

  function SchedulePoll(st: State): State {
    st.(bridgeTimer := true)
  }

  function BeginBridge(st: State): State {
    if st.bridgeTimer || st.bridgeInflight then st else SchedulePoll(st)
  }

  function OnOpen(st: State, s: SockId): State
    requires s in st.socks
  {
    var t := st.(socks := st.socks[s := st.socks[s].(state := IsOpen, connectTimer := false)]);
    if t.sock != Some(s) then CloseSock(t, s)
    else StopBridge(t).(everOpened := true, backoff := BACKOFF_MIN, opens := t.opens + 1)
  }

  function OnDown(st: State, s: SockId): State
    requires s in st.socks
  {
    var t := st.(socks := st.socks[s := Sock(Closed, false, false)]);
    if t.sock != Some(s) then t else ScheduleReconnect(BeginBridge(t.(sock := None)))
  }

  /**
   Only an overdue connection attempt is given up. A virtual socket without an open
   channel runs its `onclose` inside `close`, a WebSocket only later.
   */
  function DropOverdue(st: State, overdue: bool, closesAtOnce: bool): State {
    if st.sock.Some? && st.sock.value in st.socks && st.socks[st.sock.value].state == Connecting && overdue then
      var closed := CloseSock(st, st.sock.value);
      (if closesAtOnce then OnDown(closed, st.sock.value) else closed).(sock := None)
    else st
  }

  /** Without a socket the pending reconnect is replaced by one at once. */
  function ConnectIfIdle(st: State, throws: bool): State {
    if st.sock.None? then Connect(st.(reconnectArmed := false), throws) else st
  }

  function KickReconnects(st: State, overdue: bool, closesAtOnce: bool, throws: bool): State {
    ConnectIfIdle(DropOverdue(st.(backoff := BACKOFF_MIN), overdue, closesAtOnce), throws)
  }

  function PollState(st: State, windowMissed: bool, urlThrows: bool): State {
    if Live(st) then StopBridge(st)
    else if st.bridgeInflight || !windowMissed then SchedulePoll(st)
    else if urlThrows then st
    else st.(bridgeInflight := true, polls := st.polls[st.nextPoll := Poll(st.bridgeGen, st.opens, false)],
             nextPoll := st.nextPoll + 1)
  }

  function OnPollData(st: State, p: PollId, hasData: bool): State
    requires p in st.polls
  {
    var t := st.(polls := st.polls[p := st.polls[p].(answered := true)]);
    if st.polls[p].gen != t.bridgeGen || !hasData then t
    else if Live(t) then StopBridge(t)
    else t.(applied := t.applied + [Snapshot(st.polls[p].opens, t.opens, Live(t))])
  }

  function OnPollDone(st: State, p: PollId): State
    requires p in st.polls
  {
    var t := st.(polls := st.polls - {p});
    if st.polls[p].gen != t.bridgeGen then t else SchedulePoll(t.(bridgeInflight := false))
  }

  /** A callback that is not armed or whose handler was detached does nothing. */
  function Step(st: State, e: Event): State {
    match e
    case Start(throws) => if st.started then st else Connect(st.(started := true), throws)
    case ReconnectFires(throws) => if st.reconnectArmed then Connect(st.(reconnectArmed := false), throws) else st
    case ConnectTimeout(s) =>
      if s in st.socks && st.socks[s].connectTimer then
        var t := st.(socks := st.socks[s := st.socks[s].(connectTimer := false)]);
        if t.sock != Some(s) || t.socks[s].state == IsOpen then t else CloseSock(t, s)
      else st
    case Opened(s) =>
      if s in st.socks && st.socks[s].handlers && st.socks[s].state == Connecting then OnOpen(st, s) else st
    case Message(s, forCore) =>
      if s in st.socks && st.socks[s].handlers && st.sock == Some(s) && forCore then
        st.(applied := st.applied + [Frame(s, st.nextSock)])
      else st
    case Down(s) => if s in st.socks && st.socks[s].handlers then OnDown(st, s) else st
    case Kick(overdue, closesAtOnce, throws) =>
      if st.started then KickReconnects(st, overdue, closesAtOnce, throws) else st
    case StaleTick(stale) => if Live(st) && stale then CloseSock(st, st.sock.value) else st
    case StartBridge => BeginBridge(st)
    case PollTimer(windowMissed, urlThrows) =>
      if st.bridgeTimer then PollState(st.(bridgeTimer := false), windowMissed, urlThrows) else st
    case PollData(p, hasData) => if p in st.polls && !st.polls[p].answered then OnPollData(st, p, hasData) else st
    case PollDone(p) => if p in st.polls && st.polls[p].answered then OnPollDone(st, p) else st
  }

  function Run(st: State, events: seq<Event>): State
    decreases events
  {
    if events == [] then st else Run(Step(st, events[0]), events[1..])
  }

  // ------------------------------------------------------------------- invariant

  /** What holds even while a connect is under way inside one callback. */
  ghost predicate SocketBase(st: State) {
    && (forall s :: s in st.socks ==> s < st.nextSock)
    && (st.sock.Some? ==>
       st.sock.value in st.socks && st.socks[st.sock.value].handlers && st.socks[st.sock.value].state != Closed)
    && (st.sock.Some? ==> st.sock.value + 1 == st.nextSock)
    && BACKOFF_MIN <= st.backoff <= BACKOFF_MAX
  }

  ghost predicate SocketInv(st: State) {
    && SocketBase(st)
    && (if st.started then st.sock.Some? != st.reconnectArmed else st.sock.None? && !st.reconnectArmed)
  }

  predicate IsCurrentPoll(st: State, p: PollId) {
    p in st.polls && st.polls[p].gen == st.bridgeGen
  }

  ghost predicate BridgeInv(st: State) {
    && (forall p :: p in st.polls ==> p < st.nextPoll && st.polls[p].gen <= st.bridgeGen)
    && (forall p :: p in st.polls && st.polls[p].gen == st.bridgeGen ==>
       st.bridgeInflight && st.polls[p].opens == st.opens)
    && (forall p, q ::
          p in st.polls && q in st.polls && st.polls[p].gen == st.bridgeGen && st.polls[q].gen == st.bridgeGen ==>
            p == q)
    && (st.bridgeInflight ==> exists p :: p in st.polls && st.polls[p].gen == st.bridgeGen)
  }

  predicate Current(a: Applied) {
    match a
    case Frame(from, dialled) => from + 1 == dialled
    case Snapshot(requestedAt, appliedAt, live) => requestedAt == appliedAt && !live
  }

  ghost predicate LogInv(st: State) {
    forall i :: 0 <= i < |st.applied| ==> Current(st.applied[i])
  }

  lemma ConnectEstablishes(st: State, throws: bool)
    requires SocketBase(st) && st.started && st.sock.None? && !st.reconnectArmed
    ensures SocketInv(Connect(st, throws))
  {
  }

  lemma CloseKeepsInv(st: State, s: SockId)
    requires SocketInv(st)
    ensures SocketInv(CloseSock(st, s))
  {
  }

  lemma OpenKeepsInv(st: State, s: SockId)
    requires SocketInv(st) && s in st.socks && st.socks[s].handlers
    ensures SocketInv(OnOpen(st, s))
  {
    var t := st.(socks := st.socks[s := st.socks[s].(state := IsOpen, connectTimer := false)]);
    assert SocketInv(t);
  }

  lemma DownKeepsInv(st: State, s: SockId)
    requires SocketInv(st) && s in st.socks && st.socks[s].handlers
    ensures SocketInv(OnDown(st, s))
  {
    assert st.sock.Some? ==> st.started;
  }

  lemma DropKeepsBase(st: State, overdue: bool, closesAtOnce: bool)
    requires SocketBase(st)
    ensures var t := DropOverdue(st, overdue, closesAtOnce);
            && SocketBase(t) && t.started == st.started
            && (t.sock.Some? ==> t.sock == st.sock && t.reconnectArmed == st.reconnectArmed)
  {
  }

  lemma KickKeepsInv(st: State, overdue: bool, closesAtOnce: bool, throws: bool)
    requires SocketInv(st) && st.started
    ensures SocketInv(KickReconnects(st, overdue, closesAtOnce, throws))
  {
    var dropped := DropOverdue(st.(backoff := BACKOFF_MIN), overdue, closesAtOnce);
    DropKeepsBase(st.(backoff := BACKOFF_MIN), overdue, closesAtOnce);
    if dropped.sock.None? {
      ConnectEstablishes(dropped.(reconnectArmed := false), throws);
    }
  }

  /** Nothing about the sockets and their reconnect changes. */
  predicate SameSockets(st: State, t: State) {
    && t.started == st.started && t.socks == st.socks && t.nextSock == st.nextSock && t.sock == st.sock
    && t.reconnectArmed == st.reconnectArmed && t.backoff == st.backoff
  }

  lemma PollStateKeepsSockets(st: State, windowMissed: bool, urlThrows: bool)
    ensures SameSockets(st, PollState(st, windowMissed, urlThrows))
  {
  }

  lemma PollDataKeepsSockets(st: State, p: PollId, hasData: bool)
    requires p in st.polls
    ensures SameSockets(st, OnPollData(st, p, hasData))
  {
  }

  lemma PollDoneKeepsSockets(st: State, p: PollId)
    requires p in st.polls
    ensures SameSockets(st, OnPollDone(st, p))
  {
  }

  lemma QuietStepsKeepSockets(st: State, e: Event)
    requires e.Message? || e.StartBridge? || e.PollTimer? || e.PollData? || e.PollDone?
    ensures SameSockets(st, Step(st, e))
  {
    if e.PollTimer? {
      PollStateKeepsSockets(st.(bridgeTimer := false), e.windowMissed, e.urlThrows);
    } else if e.PollData? {
      if e.p in st.polls { PollDataKeepsSockets(st, e.p, e.hasData); }
    } else if e.PollDone? {
      if e.p in st.polls { PollDoneKeepsSockets(st, e.p); }
    }
  }

  lemma TimeoutKeepsInv(st: State, s: SockId)
    requires SocketInv(st)
    ensures SocketInv(Step(st, ConnectTimeout(s)))
  {
    if s in st.socks {
      CloseKeepsInv(st.(socks := st.socks[s := st.socks[s].(connectTimer := false)]), s);
    }
  }

  lemma SocketStepsKeepInv(st: State, e: Event)
    requires SocketInv(st) && (e.Opened? || e.Down? || e.StaleTick?)
    ensures SocketInv(Step(st, e))
  {
    match e
    case Opened(s) => if s in st.socks && st.socks[s].handlers { OpenKeepsInv(st, s); }
    case Down(s) => if s in st.socks && st.socks[s].handlers { DownKeepsInv(st, s); }
    case StaleTick(stale) => if st.sock.Some? { CloseKeepsInv(st, st.sock.value); }
  }

  lemma ConnectStepsKeepInv(st: State, e: Event)
    requires SocketInv(st) && (e.Start? || e.ReconnectFires? || e.Kick?)
    ensures SocketInv(Step(st, e))
  {
    match e
    case Start(throws) => if !st.started { ConnectEstablishes(st.(started := true), throws); }
    case ReconnectFires(throws) => if st.reconnectArmed { ConnectEstablishes(st.(reconnectArmed := false), throws); }
    case Kick(overdue, closesAtOnce, throws) => if st.started { KickKeepsInv(st, overdue, closesAtOnce, throws); }
  }

  lemma StepKeepsSocketInv(st: State, e: Event)
    requires SocketInv(st)
    ensures SocketInv(Step(st, e))
  {
    if e.Start? || e.ReconnectFires? || e.Kick? {
      ConnectStepsKeepInv(st, e);
    } else if e.ConnectTimeout? {
      TimeoutKeepsInv(st, e.s);
    } else if e.Opened? || e.Down? || e.StaleTick? {
      SocketStepsKeepInv(st, e);
    } else {
      QuietStepsKeepSockets(st, e);
    }
  }

  lemma StopBridgeKeepsInv(st: State)
    requires forall p :: p in st.polls ==> p < st.nextPoll && st.polls[p].gen <= st.bridgeGen
    ensures BridgeInv(StopBridge(st))
  {
  }

  lemma PollStateKeepsInv(st: State, windowMissed: bool, urlThrows: bool)
    requires BridgeInv(st)
    ensures BridgeInv(PollState(st, windowMissed, urlThrows))
  {
    if Live(st) {
      StopBridgeKeepsInv(st);
    } else if !st.bridgeInflight && windowMissed && !urlThrows {
      var t := PollState(st, windowMissed, urlThrows);
      assert st.nextPoll in t.polls && t.polls[st.nextPoll].gen == t.bridgeGen;
    }
  }

  lemma PollDataKeepsInv(st: State, p: PollId, hasData: bool)
    requires BridgeInv(st) && p in st.polls
    ensures BridgeInv(OnPollData(st, p, hasData))
  {
    var t := st.(polls := st.polls[p := st.polls[p].(answered := true)]);
    AnsweredKeepsInv(st, p);
    if Live(t) {
      StopBridgeKeepsInv(t);
    }
  }

  lemma AnsweredKeepsInv(st: State, p: PollId)
    requires BridgeInv(st) && p in st.polls
    ensures BridgeInv(st.(polls := st.polls[p := st.polls[p].(answered := true)]))
  {
    var t := st.(polls := st.polls[p := st.polls[p].(answered := true)]);
    assert forall q :: q in st.polls ==> q in t.polls && t.polls[q].gen == st.polls[q].gen;
  }

  lemma PollDoneKeepsInv(st: State, p: PollId)
    requires BridgeInv(st) && p in st.polls
    ensures BridgeInv(OnPollDone(st, p))
  {
    var t := st.(polls := st.polls - {p});
    if st.polls[p].gen != st.bridgeGen && st.bridgeInflight {
      var q :| q in st.polls && st.polls[q].gen == st.bridgeGen;
      assert q in t.polls && t.polls[q].gen == t.bridgeGen;
    }
  }

  predicate SamePolls(st: State, t: State) {
    && t.polls == st.polls && t.nextPoll == st.nextPoll && t.bridgeGen == st.bridgeGen
    && t.bridgeInflight == st.bridgeInflight && t.opens == st.opens
  }

  lemma ConnectKeepsPolls(st: State, throws: bool)
    ensures SamePolls(st, Connect(st, throws))
  {
  }

  lemma KickKeepsPolls(st: State, overdue: bool, closesAtOnce: bool, throws: bool)
    ensures SamePolls(st, KickReconnects(st, overdue, closesAtOnce, throws))
  {
    var dropped := DropOverdue(st.(backoff := BACKOFF_MIN), overdue, closesAtOnce);
    DropKeepsPolls(st.(backoff := BACKOFF_MIN), overdue, closesAtOnce);
    ConnectKeepsPolls(dropped.(reconnectArmed := false), throws);
  }

  lemma DropKeepsPolls(st: State, overdue: bool, closesAtOnce: bool)
    ensures SamePolls(st, DropOverdue(st, overdue, closesAtOnce))
  {
    if st.sock.Some? && st.sock.value in st.socks {
      DownKeepsPolls(CloseSock(st, st.sock.value), st.sock.value);
    }
  }

  lemma DownKeepsPolls(st: State, s: SockId)
    requires s in st.socks
    ensures SamePolls(st, OnDown(st, s))
  {
  }

  lemma ConnectStepsKeepPolls(st: State, e: Event)
    requires e.Start? || e.ReconnectFires? || e.Kick?
    ensures SamePolls(st, Step(st, e))
  {
    match e
    case Start(throws) => ConnectKeepsPolls(st.(started := true), throws);
    case ReconnectFires(throws) => ConnectKeepsPolls(st.(reconnectArmed := false), throws);
    case Kick(overdue, closesAtOnce, throws) => KickKeepsPolls(st, overdue, closesAtOnce, throws);
  }

  lemma TimeoutKeepsPolls(st: State, s: SockId)
    ensures SamePolls(st, Step(st, ConnectTimeout(s)))
  {
  }

  lemma OtherStepsKeepPolls(st: State, e: Event)
    requires !e.Opened? && !e.PollTimer? && !e.PollData? && !e.PollDone?
    ensures SamePolls(st, Step(st, e))
  {
    if e.Start? || e.ReconnectFires? || e.Kick? {
      ConnectStepsKeepPolls(st, e);
    } else if e.ConnectTimeout? {
      TimeoutKeepsPolls(st, e.s);
    } else if e.Down? {
      if e.s in st.socks { DownKeepsPolls(st, e.s); }
    }
  }

  lemma SamePollsKeepInv(st: State, t: State)
    requires BridgeInv(st) && SamePolls(st, t)
    ensures BridgeInv(t)
  {
  }

  /** Closing a late socket leaves the polls; an open stops the bridge. */
  lemma OpenKeepsBridgeInv(st: State, s: SockId)
    requires BridgeInv(st) && s in st.socks
    ensures BridgeInv(OnOpen(st, s))
  {
    var t := st.(socks := st.socks[s := st.socks[s].(state := IsOpen, connectTimer := false)]);
    if t.sock != Some(s) {
      SamePollsKeepInv(st, CloseSock(t, s));
    } else {
      StopBridgeKeepsInv(t);
      StoppedPolls(StopBridge(t), OnOpen(st, s));
    }
  }

  lemma StoppedPolls(t: State, u: State)
    requires BridgeInv(t) && !t.bridgeInflight
    requires u.polls == t.polls && u.nextPoll == t.nextPoll && u.bridgeGen == t.bridgeGen && !u.bridgeInflight
    ensures BridgeInv(u)
  {
  }

  lemma StepKeepsBridgeInv(st: State, e: Event)
    requires BridgeInv(st)
    ensures BridgeInv(Step(st, e))
  {
    match e
    case Opened(s) => if s in st.socks { OpenKeepsBridgeInv(st, s); }
    case PollTimer(windowMissed, urlThrows) => PollStateKeepsInv(st.(bridgeTimer := false), windowMissed, urlThrows);
    case PollData(p, hasData) => if p in st.polls { PollDataKeepsInv(st, p, hasData); }
    case PollDone(p) => if p in st.polls { PollDoneKeepsInv(st, p); }
    case _ => OtherStepsKeepPolls(st, e); SamePollsKeepInv(st, Step(st, e));
  }

  lemma ConnectKeepsLog(st: State, throws: bool)
    ensures Connect(st, throws).applied == st.applied
  {
  }

  lemma SocketStepsKeepLog(st: State, e: Event)
    requires e.Start? || e.ReconnectFires? || e.Kick? || e.ConnectTimeout? || e.StaleTick?
    ensures Step(st, e).applied == st.applied
  {
    match e
    case Start(throws) => ConnectKeepsLog(st.(started := true), throws);
    case ReconnectFires(throws) => ConnectKeepsLog(st.(reconnectArmed := false), throws);
    case Kick(overdue, closesAtOnce, throws) => KickKeepsLog(st, overdue, closesAtOnce, throws);
    case _ =>
  }

  lemma KickKeepsLog(st: State, overdue: bool, closesAtOnce: bool, throws: bool)
    ensures KickReconnects(st, overdue, closesAtOnce, throws).applied == st.applied
  {
    var dropped := DropOverdue(st.(backoff := BACKOFF_MIN), overdue, closesAtOnce);
    ConnectKeepsLog(dropped.(reconnectArmed := false), throws);
  }

  lemma OpenAndDownKeepLog(st: State, e: Event)
    requires e.Opened? || e.Down? || e.StartBridge? || e.PollTimer? || e.PollDone?
    ensures Step(st, e).applied == st.applied
  {
  }

  lemma StepKeepsLogInv(st: State, e: Event)
    requires SocketBase(st) && BridgeInv(st) && LogInv(st)
    ensures LogInv(Step(st, e)) && st.applied <= Step(st, e).applied
  {
    if e.Message? {
      assert Step(st, e).applied == st.applied || Step(st, e).applied == st.applied + [Frame(e.s, st.nextSock)];
    } else if e.PollData? {
      PollDataKeepsLog(st, e.p, e.hasData);
    } else if e.Start? || e.ReconnectFires? || e.Kick? || e.ConnectTimeout? || e.StaleTick? {
      SocketStepsKeepLog(st, e);
    } else {
      OpenAndDownKeepLog(st, e);
    }
  }

  lemma PollDataKeepsLog(st: State, p: PollId, hasData: bool)
    requires BridgeInv(st) && LogInv(st)
    ensures LogInv(Step(st, PollData(p, hasData))) && st.applied <= Step(st, PollData(p, hasData)).applied
  {
  }

  lemma {:induction false} RunKeepsInv(st: State, events: seq<Event>)
    requires SocketInv(st) && BridgeInv(st) && LogInv(st)
    ensures SocketInv(Run(st, events)) && BridgeInv(Run(st, events)) && LogInv(Run(st, events))
    decreases events
  {
    if events != [] {
      StepKeepsSocketInv(st, events[0]);
      StepKeepsBridgeInv(st, events[0]);
      StepKeepsLogInv(st, events[0]);
      RunKeepsInv(Step(st, events[0]), events[1..]);
    }
  }

  // -------------------------------------------------------------------- theorems

  /**
   Between any two callbacks after the first connect, exactly one of "there is a
   current socket" and "a reconnect is armed" holds; the current socket still has
   its handlers, so its end will be seen.
   */
  lemma NeverStranded(events: seq<Event>)
    requires Run(INITIAL, events).started
    ensures var st := Run(INITIAL, events);
            && (st.sock.Some? <==> !st.reconnectArmed)
            && (st.sock.Some? ==>
               st.sock.value in st.socks && st.socks[st.sock.value].handlers && st.socks[st.sock.value].state != Closed)
            && BACKOFF_MIN <= st.backoff <= BACKOFF_MAX
  {
    RunKeepsInv(INITIAL, events);
  }

  /**
   Everything that ever reached the core was current: a frame came from the latest
   socket dialled, so never from a replaced one, and a snapshot had been requested since the last open and was
   applied while no socket was open.
   */
  lemma NothingStaleApplied(events: seq<Event>, i: nat)
    requires i < |Run(INITIAL, events).applied|
    ensures Current(Run(INITIAL, events).applied[i])
  {
    RunKeepsInv(INITIAL, events);
  }

  /** Once a later socket has been dialled, a frame from an earlier one is never applied. */
  lemma ReplacedSocketIsMute(events: seq<Event>, s: SockId, forCore: bool)
    requires s + 1 < Run(INITIAL, events).nextSock
    ensures Step(Run(INITIAL, events), Message(s, forCore)).applied == Run(INITIAL, events).applied
  {
    RunKeepsInv(INITIAL, events);
  }

  /**
   A kick leaves a fresh backoff, and an armed reconnect only if the dial threw; except
   that giving up a virtual socket doubles a backoff already in use once more.
   */
  lemma KickBackoff(events: seq<Event>, overdue: bool, closesAtOnce: bool, throws: bool)
    requires Run(INITIAL, events).started
    ensures var st := Run(INITIAL, events);
            var t := Step(st, Kick(overdue, closesAtOnce, throws));
            var gaveUp := && st.sock.Some? && st.sock.value in st.socks
                          && st.socks[st.sock.value].state == Connecting && overdue;
            var rounds := if !st.everOpened then 0
                          else (if gaveUp && closesAtOnce then 1 else 0) + (if t.reconnectArmed then 1 else 0);
            && (t.reconnectArmed ==> throws && t.sock.None?)
            && t.backoff ==
               (if rounds == 0 then BACKOFF_MIN else if rounds == 1 then 2 * BACKOFF_MIN else 4 * BACKOFF_MIN)
  {
    RunKeepsInv(INITIAL, events);
  }

  /** At most one poll of the current generation is in flight, and the flag says whether there is one. */
  lemma OnePollInFlight(events: seq<Event>, p: PollId, q: PollId)
    ensures var st := Run(INITIAL, events);
            && (IsCurrentPoll(st, p) && IsCurrentPoll(st, q) ==> p == q)
            && (st.bridgeInflight <==> exists r :: r in st.polls && st.polls[r].gen == st.bridgeGen)
  {
    RunKeepsInv(INITIAL, events);
  }

  /** A poll requested before an open can never be applied afterwards, however the socket fares later. */
  lemma OldPollNeverApplied(st: State, events: seq<Event>, p: PollId)
    requires p in st.polls && st.polls[p].gen < st.bridgeGen && p < st.nextPoll
    ensures forall hasData :: Step(Run(st, events), PollData(p, hasData)).applied == Run(st, events).applied
  {
    PollIdsAreFresh(st, events, p);
  }

  predicate PollKept(st: State, t: State, p: PollId) {
    && p < t.nextPoll && t.bridgeGen >= st.bridgeGen
    && (p in t.polls ==> p in st.polls && t.polls[p].gen == st.polls[p].gen)
  }

  lemma PollTimerKeeps(st: State, windowMissed: bool, urlThrows: bool, p: PollId)
    requires p < st.nextPoll
    ensures PollKept(st, PollState(st, windowMissed, urlThrows), p)
  {
  }

  lemma PollAnswerKeeps(st: State, q: PollId, hasData: bool, p: PollId)
    requires p < st.nextPoll && q in st.polls
    ensures PollKept(st, OnPollData(st, q, hasData), p)
  {
  }

  lemma OpenKeepsPoll(st: State, s: SockId, p: PollId)
    requires p < st.nextPoll && s in st.socks
    ensures PollKept(st, OnOpen(st, s), p)
  {
  }

  lemma PollDoneKeeps(st: State, q: PollId, p: PollId)
    requires p < st.nextPoll && q in st.polls
    ensures PollKept(st, OnPollDone(st, q), p)
  {
  }

  lemma PollIdsGrow(st: State, e: Event, p: PollId)
    requires p < st.nextPoll
    ensures PollKept(st, Step(st, e), p)
  {
    if e.Opened? {
      if e.s in st.socks { OpenKeepsPoll(st, e.s, p); }
    } else if e.PollTimer? {
      PollTimerKeeps(st.(bridgeTimer := false), e.windowMissed, e.urlThrows, p);
    } else if e.PollData? {
      if e.p in st.polls { PollAnswerKeeps(st, e.p, e.hasData, p); }
    } else if e.PollDone? {
      if e.p in st.polls { PollDoneKeeps(st, e.p, p); }
    } else {
      OtherStepsKeepPolls(st, e);
    }
  }

  lemma {:induction false} PollIdsAreFresh(st: State, events: seq<Event>, p: PollId)
    requires p < st.nextPoll
    ensures PollKept(st, Run(st, events), p)
    decreases events
  {
    if events != [] {
      PollIdsGrow(st, events[0], p);
      PollIdsAreFresh(Step(st, events[0]), events[1..], p);
    }
  }

  // -------------------------------------------------------------- what does happen

  /** Page state keeps coming: a poll is due or one of the current generation is under way. */
  predicate Bridging(st: State) {
    st.bridgeTimer || st.bridgeInflight
  }

  /** The bridge has no more to do: its socket has opened, or its URL cannot be built. */
  predicate EndsBridge(st: State, e: Event) {
    match e
    case Opened(s) => st.sock == Some(s) && s in st.socks && st.socks[s].handlers && st.socks[s].state == Connecting
    case PollTimer(windowMissed, urlThrows) =>
      st.bridgeTimer && !st.bridgeInflight && windowMissed && urlThrows
    case _ => false
  }

  lemma ConnectStaysDown(st: State, throws: bool)
    requires !Live(st)
    ensures !Live(Connect(st, throws))
    ensures Bridging(Connect(st, throws)) == Bridging(st)
  {
  }

  lemma DropStaysDown(st: State, overdue: bool, closesAtOnce: bool)
    requires !Live(st) && Bridging(st)
    ensures !Live(DropOverdue(st, overdue, closesAtOnce)) && Bridging(DropOverdue(st, overdue, closesAtOnce))
  {
  }

  lemma SocketStepsStayDown(st: State, e: Event)
    requires Bridging(st) && !Live(st) && !EndsBridge(st, e)
    requires e.Start? || e.ReconnectFires? || e.Kick? || e.ConnectTimeout? || e.StaleTick?
    ensures Bridging(Step(st, e)) && !Live(Step(st, e))
  {
    match e
    case Start(throws) => if !st.started { ConnectStaysDown(st.(started := true), throws); }
    case ReconnectFires(throws) => if st.reconnectArmed { ConnectStaysDown(st.(reconnectArmed := false), throws); }
    case Kick(overdue, closesAtOnce, throws) =>
      if st.started {
        DropStaysDown(st.(backoff := BACKOFF_MIN), overdue, closesAtOnce);
        var dropped := DropOverdue(st.(backoff := BACKOFF_MIN), overdue, closesAtOnce);
        ConnectStaysDown(dropped.(reconnectArmed := false), throws);
      }
    case _ =>
  }

  lemma OpenOrDownStaysDown(st: State, e: Event)
    requires Bridging(st) && !Live(st) && !EndsBridge(st, e) && (e.Opened? || e.Down?)
    ensures Bridging(Step(st, e)) && !Live(Step(st, e))
  {
  }

  lemma PollsStayDown(st: State, e: Event)
    requires Bridging(st) && !Live(st) && !EndsBridge(st, e)
    requires e.Message? || e.StartBridge? || e.PollTimer? || e.PollData? || e.PollDone?
    ensures Bridging(Step(st, e)) && !Live(Step(st, e))
  {
  }

  /** With no socket open the bridge stops exactly when one opens or the poll URL throws. */
  lemma BridgeEndsIff(st: State, e: Event)
    requires Bridging(st) && !Live(st)
    ensures Bridging(Step(st, e)) && !Live(Step(st, e)) <==> !EndsBridge(st, e)
  {
    if !EndsBridge(st, e) {
      if e.Opened? || e.Down? {
        OpenOrDownStaysDown(st, e);
      } else if e.Start? || e.ReconnectFires? || e.Kick? || e.ConnectTimeout? || e.StaleTick? {
        SocketStepsStayDown(st, e);
      } else {
        PollsStayDown(st, e);
      }
    }
  }

  ghost predicate NeverEnds(st: State, events: seq<Event>)
    decreases events
  {
    events != [] ==> !EndsBridge(st, events[0]) && NeverEnds(Step(st, events[0]), events[1..])
  }

  lemma {:induction false} BridgeGoesOn(st: State, events: seq<Event>)
    requires Bridging(st) && !Live(st) && NeverEnds(st, events)
    ensures Bridging(Run(st, events)) && !Live(Run(st, events))
    decreases events
  {
    if events != [] {
      BridgeEndsIff(st, events[0]);
      BridgeGoesOn(Step(st, events[0]), events[1..]);
    }
  }

  /**
   Once the current socket has gone down, a poll is due or under way, and stays so along
   every continuation in which no socket opens and no poll URL throws.
   */
  lemma StateKeepsFlowing(past: seq<Event>, s: SockId, future: seq<Event>)
    requires Run(INITIAL, past).sock == Some(s)
    requires NeverEnds(Step(Run(INITIAL, past), Down(s)), future)
    ensures var st := Run(Step(Run(INITIAL, past), Down(s)), future);
            && (st.bridgeTimer || exists p :: IsCurrentPoll(st, p)) && !Live(st)
  {
    RunKeepsInv(INITIAL, past);
    var down := Step(Run(INITIAL, past), Down(s));
    StepKeepsBridgeInv(Run(INITIAL, past), Down(s));
    assert Bridging(down) && !Live(down);
    BridgeGoesOn(down, future);
    RunKeepsBridgeInv(down, future);
    var st := Run(down, future);
    if st.bridgeInflight {
      var p :| p in st.polls && st.polls[p].gen == st.bridgeGen;
      assert IsCurrentPoll(st, p);
    }
  }

  lemma {:induction false} RunKeepsBridgeInv(st: State, events: seq<Event>)
    requires BridgeInv(st)
    ensures BridgeInv(Run(st, events))
    decreases events
  {
    if events != [] {
      StepKeepsBridgeInv(st, events[0]);
      RunKeepsBridgeInv(Step(st, events[0]), events[1..]);
    }
  }

  /** A due timer asks for the state if the socket has had its time, and each poll that ends makes another due. */
  lemma PollsTakeTurns(st: State, p: PollId)
    requires !Live(st)
    ensures var t := Step(st, PollTimer(true, false));
            st.bridgeTimer && !st.bridgeInflight ==>
              && t.bridgeInflight && IsCurrentPoll(t, st.nextPoll)
              && t.polls[st.nextPoll] == Poll(st.bridgeGen, st.opens, false)
    ensures st.bridgeTimer ==> Step(st, PollTimer(false, false)).bridgeTimer
    ensures IsCurrentPoll(st, p) && st.polls[p].answered ==>
              Step(st, PollDone(p)).bridgeTimer && !Step(st, PollDone(p)).bridgeInflight
    ensures if Bridging(st) then Step(st, StartBridge) == st else Step(st, StartBridge) == st.(bridgeTimer := true)
  {
  }

  /** What an event adds to what the core has been given. */
  function Adds(st: State, e: Event): seq<Applied> {
    match e
    case Message(s, forCore) => if forCore && st.sock == Some(s) then [Frame(s, st.nextSock)] else []
    case PollData(p, hasData) =>
      if hasData && IsCurrentPoll(st, p) && !st.polls[p].answered && !Live(st)
      then [Snapshot(st.polls[p].opens, st.opens, false)] else []
    case _ => []
  }

  /** The core gets the frames of the current socket and the current answers while none is open, and no more. */
  lemma AppliedExactly(events: seq<Event>, e: Event)
    ensures var st := Run(INITIAL, events); Step(st, e).applied == st.applied + Adds(st, e)
  {
    RunKeepsInv(INITIAL, events);
    var st := Run(INITIAL, events);
    assert st.applied + [] == st.applied;
    if e.Start? || e.ReconnectFires? || e.Kick? || e.ConnectTimeout? || e.StaleTick? {
      SocketStepsKeepLog(st, e);
    } else if !e.Message? && !e.PollData? {
      OpenAndDownKeepLog(st, e);
    }
  }

  /** A socket just dialled. */
  predicate Dialled(st: State, t: State) {
    && t.sock == Some(st.nextSock) && t.nextSock == st.nextSock + 1 && !t.reconnectArmed
    && t.socks == st.socks[st.nextSock := Sock(Connecting, true, true)]
  }

  /** The first connect and every armed reconnect dial one new socket, unless that throws, and then another is armed. */
  lemma ReconnectDials(events: seq<Event>, throws: bool)
    ensures var st := Run(INITIAL, events);
            && (st.reconnectArmed ==> if throws then Step(st, ReconnectFires(throws)).reconnectArmed
                                      else Dialled(st, Step(st, ReconnectFires(throws))))
            && (!st.started ==> if throws then Step(st, Start(throws)).reconnectArmed
                                else Dialled(st, Step(st, Start(throws))))
  {
    RunKeepsInv(INITIAL, events);
  }

  /** A connect asked for while a socket is open or opening changes nothing; one that is closing is replaced. */
  lemma ConnectWaitsForSocket(st: State, s: SockId)
    requires st.sock == Some(s) && s in st.socks
    ensures var t := Connect(st, false);
            if st.socks[s].state == Connecting || st.socks[s].state == IsOpen then t == st
            else t.sock == Some(st.nextSock) && t.socks == st.socks[st.nextSock := Sock(Connecting, true, true)]
  {
  }

  /** A kick dials unless there is a socket that is open or still has time to open. */
  lemma KickDials(events: seq<Event>, overdue: bool, closesAtOnce: bool)
    requires Run(INITIAL, events).started
    ensures var st := Run(INITIAL, events);
            var t := Step(st, Kick(overdue, closesAtOnce, false));
            var gaveUp := && st.sock.Some? && st.sock.value in st.socks
                          && st.socks[st.sock.value].state == Connecting && overdue;
            && t.sock == (if st.sock.None? || gaveUp then Some(st.nextSock) else st.sock)
            && (gaveUp ==> t.socks[st.sock.value].state == (if closesAtOnce then Closed else Closing))
  {
    RunKeepsInv(INITIAL, events);
  }

  /** A connect that stalls is closed, once; a socket that has opened or been replaced is left alone. */
  lemma StalledConnectCloses(st: State, s: SockId)
    requires s in st.socks && st.socks[s].connectTimer
    ensures Step(st, ConnectTimeout(s)) ==
            st.(socks := st.socks[s := Sock(if st.sock == Some(s) && st.socks[s].state == Connecting then Closing
                                            else st.socks[s].state, st.socks[s].handlers, false)])
  {
  }

  /** An open socket that has fallen silent is closed. */
  lemma SilentSocketCloses(st: State, s: SockId, stale: bool)
    requires s in st.socks && st.sock == Some(s)
    ensures var t := Step(st, StaleTick(stale));
            && t.socks[s].state == (if stale && st.socks[s].state == IsOpen then Closing else st.socks[s].state)
            && t == st.(socks := t.socks) && t.socks == st.socks[s := t.socks[s]]
  {
  }

  /** A replaced socket that opens late is closed and changes nothing else. */
  lemma LateOpenCloses(st: State, s: SockId)
    requires s in st.socks && st.sock != Some(s) && st.socks[s].handlers && st.socks[s].state == Connecting
    ensures Step(st, Opened(s)) == st.(socks := st.socks[s := Sock(Closing, true, false)])
  {
    assert st.socks[s := Sock(IsOpen, true, false)][s := Sock(Closing, true, false)] ==
           st.socks[s := Sock(Closing, true, false)];
  }

  /** A socket that goes down is heard of once: it is closed for good, and a replaced one changes nothing else. */
  lemma DownIsFinal(st: State, s: SockId, forCore: bool)
    requires s in st.socks && st.socks[s].handlers
    ensures var t := Step(st, Down(s));
            && t.socks == st.socks[s := Sock(Closed, false, false)]
            && (st.sock != Some(s) ==> t == st.(socks := t.socks))
            && (st.sock == Some(s) ==> t.sock == None && t.reconnectArmed)
            && Step(t, Opened(s)) == t && Step(t, Down(s)) == t && Step(t, Message(s, forCore)) == t
            && Step(t, ConnectTimeout(s)) == t
  {
  }

  /** Timers that are not armed and polls that are not answered do nothing. */
  lemma UnarmedIsNothing(st: State, s: SockId, p: PollId, windowMissed: bool, throws: bool)
    ensures !st.bridgeTimer ==> Step(st, PollTimer(windowMissed, throws)) == st
    ensures !st.reconnectArmed ==> Step(st, ReconnectFires(throws)) == st
    ensures s in st.socks && !st.socks[s].connectTimer ==> Step(st, ConnectTimeout(s)) == st
    ensures p in st.polls && !st.polls[p].answered ==> Step(st, PollDone(p)) == st
  {
  }

  /** A poll is answered once. */
  lemma AnsweredOnce(st: State, p: PollId, first: bool, second: bool)
    ensures var t := Step(st, PollData(p, first)); Step(t, PollData(p, second)) == t
  {
  }

  /** The current socket's open stops the bridge, resets the backoff and counts. */
  lemma OpenSettles(events: seq<Event>, s: SockId)
    requires var st := Run(INITIAL, events);
             s in st.socks && st.sock == Some(s) && st.socks[s].state == Connecting
    ensures var st := Run(INITIAL, events);
            var t := Step(st, Opened(s));
            && Live(t) && !Bridging(t) && t.backoff == BACKOFF_MIN && t.everOpened && t.opens == st.opens + 1
            && forall p :: !IsCurrentPoll(t, p)
  {
    RunKeepsInv(INITIAL, events);
    var st := Run(INITIAL, events);
    assert forall p :: p in st.polls ==> st.polls[p].gen <= st.bridgeGen;
  }

  function Doubled(n: nat): (d: nat)
    ensures d > 0
  {
    if n == 0 then 1 else 2 * Doubled(n - 1)
  }

  /** The current socket goes down and its reconnect dials, `n` times. */
  function Failures(s: SockId, n: nat): seq<Event>
    decreases n
  {
    if n == 0 then [] else [Down(s)] + ([ReconnectFires(false)] + Failures(s + 1, n - 1))
  }

  lemma RunFirst(st: State, e: Event, rest: seq<Event>)
    ensures Run(st, [e] + rest) == Run(Step(st, e), rest)
  {
    assert ([e] + rest)[1..] == rest;
  }

  /** One failure doubles the backoff up to its limit, once a socket has ever opened. */
  lemma FailureDoubles(st: State, s: SockId)
    requires SocketInv(st) && st.started && st.sock == Some(s)
    ensures var t := Step(Step(st, Down(s)), ReconnectFires(false));
            && SocketInv(t) && t.started && t.sock == Some(s + 1) && t.everOpened == st.everOpened
            && t.backoff == if st.everOpened then Min(2 * st.backoff, BACKOFF_MAX) else st.backoff
  {
    StepKeepsSocketInv(st, Down(s));
    StepKeepsSocketInv(Step(st, Down(s)), ReconnectFires(false));
  }

  /** After `n` failures in a row the backoff is 2^n times what it was, at most ten seconds. */
  lemma {:induction false} BackoffGrows(st: State, s: SockId, n: nat)
    requires SocketInv(st) && st.started && st.sock == Some(s)
    ensures var t := Run(st, Failures(s, n));
            && t.sock == Some(s + n)
            && t.backoff == if st.everOpened then Min(Doubled(n) * st.backoff, BACKOFF_MAX) else st.backoff
    decreases n
  {
    if n > 0 {
      FailureDoubles(st, s);
      var t := Step(Step(st, Down(s)), ReconnectFires(false));
      RunFirst(st, Down(s), [ReconnectFires(false)] + Failures(s + 1, n - 1));
      RunFirst(Step(st, Down(s)), ReconnectFires(false), Failures(s + 1, n - 1));
      BackoffGrows(t, s + 1, n - 1);
      DoublingIsCapped(Doubled(n - 1), st.backoff);
    }
  }

  lemma DoublingIsCapped(d: nat, backoff: nat)
    requires d > 0
    ensures Min(d * Min(2 * backoff, BACKOFF_MAX), BACKOFF_MAX) == Min(2 * d * backoff, BACKOFF_MAX)
  {
    assert d * (2 * backoff) == 2 * d * backoff;
    if 2 * backoff > BACKOFF_MAX {
      assert d * BACKOFF_MAX >= BACKOFF_MAX;
      assert d * (2 * backoff) >= d * BACKOFF_MAX;
    }
  }

  // ------------------------------------------------------------ the code's own state

  class FocusSignal {
    var started: bool
    var socks: map<SockId, Sock>
    var nextSock: SockId
    var sock: Option<SockId>
    var reconnectArmed: bool
    var backoff: nat
    var everOpened: bool
    var bridgeTimer: bool
    var bridgeInflight: bool
    var bridgeGen: nat
    var polls: map<PollId, Poll>
    var nextPoll: PollId
    var opens: nat
    ghost var applied: seq<Applied>

    ghost function View(): State
      reads this
    {
      State(started, socks, nextSock, sock, reconnectArmed, backoff, everOpened,
            bridgeTimer, bridgeInflight, bridgeGen, polls, nextPoll, opens, applied)
    }

    predicate SocketLive()
      reads this
    {
      sock.Some? && sock.value in socks && socks[sock.value].state == IsOpen
    }

    method ScheduleReconnectTimer()
      modifies this`reconnectArmed, this`backoff
      ensures View() == ScheduleReconnect(old(View()))
    {
      if reconnectArmed {
        return;
      }
      reconnectArmed := true;
      if everOpened {
        backoff := Min(backoff * 2, BACKOFF_MAX);
      }
    }

    method ConnectSignal(throws: bool)
      modifies this`socks, this`nextSock, this`sock, this`reconnectArmed, this`backoff
      ensures View() == Connect(old(View()), throws)
    {
      if sock.Some? && sock.value in socks
        && (socks[sock.value].state == Connecting || socks[sock.value].state == IsOpen) {
        return;
      }
      if throws {
        ScheduleReconnectTimer();
        return;
      }
      socks := socks[nextSock := Sock(Connecting, true, true)];
      sock := Some(nextSock);
      nextSock := nextSock + 1;
    }

    method CloseSocket(s: SockId)
      modifies this`socks
      ensures View() == CloseSock(old(View()), s)
    {
      if s in socks && (socks[s].state == Connecting || socks[s].state == IsOpen) {
        socks := socks[s := socks[s].(state := Closing)];
      }
    }

    method StopStateBridge()
      modifies this`bridgeTimer, this`bridgeGen, this`bridgeInflight
      ensures View() == StopBridge(old(View()))
    {
      bridgeTimer := false;
      bridgeGen := bridgeGen + 1;
      bridgeInflight := false;
    }

    method HandleOpen(s: SockId)
      requires s in socks
      modifies this`socks, this`bridgeTimer, this`bridgeGen, this`bridgeInflight, this`everOpened, this`backoff,
               this`opens
      ensures View() == OnOpen(old(View()), s)
    {
      socks := socks[s := socks[s].(state := IsOpen, connectTimer := false)];
      assert View() ==
             old(View()).(socks := old(socks)[s := old(socks)[s].(state := IsOpen, connectTimer := false)]);
      if sock != Some(s) {
        CloseSocket(s);
        return;
      }
      StopStateBridge();
      everOpened := true;
      backoff := BACKOFF_MIN;
      opens := opens + 1;
    }

    method HandleDown(s: SockId)
      requires s in socks
      modifies this
      ensures View() == OnDown(old(View()), s)
    {
      socks := socks[s := Sock(Closed, false, false)];
      if sock != Some(s) {
        return;
      }
      sock := None;
      if !bridgeTimer && !bridgeInflight {
        bridgeTimer := true;
      }
      ScheduleReconnectTimer();
    }

    method GiveUpOverdue(overdue: bool, closesAtOnce: bool)
      modifies this
      ensures View() == DropOverdue(old(View()), overdue, closesAtOnce)
    {
      if sock.Some? && sock.value in socks && socks[sock.value].state == Connecting && overdue {
        var s := sock.value;
        CloseSocket(s);
        if closesAtOnce {
          HandleDown(s);
        }
        sock := None;
      }
    }

    method ConnectUnlessBusy(throws: bool)
      modifies this
      ensures View() == ConnectIfIdle(old(View()), throws)
    {
      if sock.None? {
        reconnectArmed := false;
        ConnectSignal(throws);
      }
    }

    method Kick(overdue: bool, closesAtOnce: bool, throws: bool)
      modifies this
      ensures View() == KickReconnects(old(View()), overdue, closesAtOnce, throws)
    {
      backoff := BACKOFF_MIN;
      GiveUpOverdue(overdue, closesAtOnce);
      ConnectUnlessBusy(throws);
    }

    method PollBridge(windowMissed: bool, urlThrows: bool)
      modifies this
      ensures View() == PollState(old(View()), windowMissed, urlThrows)
    {
      if SocketLive() {
        StopStateBridge();
        return;
      }
      if bridgeInflight || !windowMissed {
        bridgeTimer := true;
        return;
      }
      if urlThrows {
        return;
      }
      polls := polls[nextPoll := Poll(bridgeGen, opens, false)];
      nextPoll := nextPoll + 1;
      bridgeInflight := true;
    }

    method HandlePollData(p: PollId, hasData: bool)
      requires p in polls
      modifies this
      ensures View() == OnPollData(old(View()), p, hasData)
    {
      var gen := polls[p].gen;
      polls := polls[p := polls[p].(answered := true)];
      if gen != bridgeGen || !hasData {
        return;
      }
      if SocketLive() {
        StopStateBridge();
        return;
      }
      applied := applied + [Snapshot(polls[p].opens, opens, Live(View()))];
    }

    method HandlePollDone(p: PollId)
      requires p in polls
      modifies this
      ensures View() == OnPollDone(old(View()), p)
    {
      var gen := polls[p].gen;
      polls := polls - {p};
      if gen != bridgeGen {
        return;
      }
      bridgeInflight := false;
      bridgeTimer := true;
    }
  }
}
