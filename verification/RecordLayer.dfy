/**
 NoiseChannel of noise.js: fragmentation on send, and the receive pipeline of
 promise chain, pending queue, microtask drain and fail-stop, as step functions
 on values. `System` joins a sending peer, a network that may drop, reorder,
 duplicate and inject, and the receiving channel.
 */
module RecordLayer {
  import opened Prelude
  import opened SymbolicCrypto
  import opened Ciphers

  // -------------------------------------------------------------- fragmentation

  /** The slices `send` encrypts: one empty slice for an empty input. */
  function Fragments(input: Bytes): (f: seq<Bytes>)
    ensures |f| > 0
    decreases |input|
  {
    if |input| <= MAX_PLAINTEXT_FRAME then [input]
    else [input[..MAX_PLAINTEXT_FRAME]] + Fragments(input[MAX_PLAINTEXT_FRAME..])
  }

  function Concat(parts: seq<Bytes>): Bytes {
    if parts == [] then [] else parts[0] + Concat(parts[1..])
  }

  function CeilDiv(n: nat, d: nat): nat
    requires d > 0
  {
    (n + d - 1) / d
  }

  /** Fragments join back to the input, each fits one Noise message, and none is wasted. */
  lemma {:induction false} FragmentsPartition(input: Bytes)
    ensures Concat(Fragments(input)) == input
    ensures |Fragments(input)| == Max(1, CeilDiv(|input|, MAX_PLAINTEXT_FRAME))
    ensures forall k :: 0 <= k < |Fragments(input)| ==> |Fragments(input)[k]| + TAG_LENGTH <= MAX_NOISE_MESSAGE
    decreases |input|
  {
    if |input| <= MAX_PLAINTEXT_FRAME {
      assert Concat([input]) == input + Concat([]) == input;
    } else {
      var head, tail := input[..MAX_PLAINTEXT_FRAME], input[MAX_PLAINTEXT_FRAME..];
      FragmentsPartition(tail);
      assert Fragments(input)[1..] == Fragments(tail);
      assert head + tail == input;
    }
  }

  /** Encrypts one fragment after another and stops at the first that cannot be sealed. */
  function SealAll(c: Cipher, parts: seq<Bytes>): (Cipher, seq<Bytes>)
    decreases parts
  {
    if parts == [] then (c, [])
    else
      var (next, r) := Encrypt(c, parts[0], []);
      if r.Err? then (next, [])
      else
        var (last, boxes) := SealAll(next, parts[1..]);
        (last, [r.value] + boxes)
  }

  lemma {:induction false} SealAllCounts(c: Cipher, parts: seq<Bytes>)
    requires c.key.Some?
    ensures |SealAll(c, parts).1| <= |parts|
    ensures SealAll(c, parts).0 == c.(nonce := c.nonce + |SealAll(c, parts).1|)
    decreases parts
  {
    if parts != [] && Encrypt(c, parts[0], []).1.Ok? {
      SealAllCounts(Encrypt(c, parts[0], []).0, parts[1..]);
    }
  }

  lemma {:induction false} SealAllAt(c: Cipher, parts: seq<Bytes>, k: nat)
    requires c.key.Some? && k < |SealAll(c, parts).1|
    ensures k < |parts| && UsableCounter(c.nonce + k)
    ensures SealAll(c, parts).1[k] == Seal(c.key.value, NonceBytes(c.nonce + k), parts[k], [])
    decreases parts
  {
    if k > 0 {
      SealAllAt(Encrypt(c, parts[0], []).0, parts[1..], k - 1);
    }
  }

  /** A send seals every fragment unless the counter runs out, and then all that it still can. */
  lemma {:induction false} SendSealsAll(c: Cipher, parts: seq<Bytes>)
    requires c.key.Some?
    requires forall k :: 0 <= k < |parts| ==> |parts[k]| + TAG_LENGTH <= MAX_NOISE_MESSAGE
    ensures |SealAll(c, parts).1| == Min(|parts|, Max(0, 0x20_0000_0000_0000 - c.nonce))
    decreases parts
  {
    if parts != [] {
      EncryptOkIff(c, parts[0], []);
      if Encrypt(c, parts[0], []).1.Ok? {
        SendSealsAll(Encrypt(c, parts[0], []).0, parts[1..]);
      }
    }
  }

  // ------------------------------------------------------------ receive pipeline

  datatype ReadyState = IsOpen | IsClosing | IsClosed

  /** What a WebSocket event carries; anything but bytes makes the conversion throw. */
  datatype Frame = Data(bytes: Bytes) | NotBytes

  /** What the consumer's handler does when it is given one message. */
  datatype Effect = Keep | Uninstall | Reinstall | Throw

  datatype Channel = Channel(
    receive: Cipher,
    readyState: ReadyState,
    handler: bool,
    failed: bool,
    pending: seq<Bytes>,
    drainScheduled: bool,
    queue: seq<Frame>,
    converting: Option<Frame>,
    rejected: bool,
    delivered: seq<Bytes>)

  function ScheduleDrain(c: Channel): Channel {
    if c.failed || c.drainScheduled || !c.handler || c.pending == [] then c
    else c.(drainScheduled := true)
  }

  function CloseChannel(c: Channel): Channel {
    if c.readyState == IsOpen then c.(readyState := IsClosing) else c
  }

  function Fail(c: Channel): Channel {
    if c.failed then c else CloseChannel(c.(failed := true, pending := []))
  }

  function HandleCiphertext(c: Channel, frame: Frame): Channel {
    if c.failed then c else c.(queue := c.queue + [frame])
  }

  /** The next link of the receive chain starts; a rejected chain starts no link. */
  function BeginLink(c: Channel): Channel {
    if c.rejected || c.converting.Some? || c.queue == [] then c
    else
      var rest := c.(queue := c.queue[1..]);
      if c.failed then rest else rest.(converting := Some(c.queue[0]))
  }

  /** The conversion a link awaited has finished: decrypt and queue, or reject the chain. */
  function EndLink(c: Channel): Channel {
    match c.converting
    case None => c
    case Some(NotBytes) => c.(converting := None, rejected := true)
    case Some(Data(bytes)) =>
      var (cs, r) := Decrypt(c.receive, bytes, []);
      var done := c.(converting := None, receive := cs);
      if r.Err? then done.(rejected := true)
      else if c.failed then done
      else ScheduleDrain(done.(pending := c.pending + [r.value]))
  }

  function ObserveRejection(c: Channel): Channel {
    if c.rejected then Fail(c) else c
  }

  function SetHandler(c: Channel, installed: bool): Channel {
    ScheduleDrain(c.(handler := installed))
  }

  function DrainLoop(c: Channel, effects: seq<Effect>): Channel
    decreases |c.pending|
  {
    if c.failed || !c.handler || c.pending == [] then c
    else
      var given := c.(delivered := c.delivered + [c.pending[0]], pending := c.pending[1..]);
      var effect := if effects == [] then Keep else effects[0];
      var later := if effects == [] then [] else effects[1..];
      match effect
      case Keep => DrainLoop(given, later)
      case Uninstall => DrainLoop(SetHandler(given, false), later)
      case Reinstall => DrainLoop(SetHandler(given, true), later)
      case Throw => given
  }

  function Drain(c: Channel, effects: seq<Effect>): Channel {
    if !c.drainScheduled then c
    else
      var started := c.(drainScheduled := false);
      if c.failed then started.(pending := []) else DrainLoop(started, effects)
  }

  // ------------------------------------------------------------------- progress

  /** How many of `waiting` messages one drain hands over: it stops after a throw or an uninstalled handler. */
  function Calls(waiting: nat, effects: seq<Effect>): (n: nat)
    ensures n <= waiting
  {
    if waiting == 0 then 0
    else if effects == [] then waiting
    else if effects[0] == Uninstall || effects[0] == Throw then 1
    else 1 + Calls(waiting - 1, effects[1..])
  }

  /** The handler is set again in a call that is not the last and leaves messages waiting. */
  function Reinstalls(waiting: nat, effects: seq<Effect>): bool {
    exists k :: 0 <= k < |effects| && k < Calls(waiting, effects) && k + 1 < waiting && effects[k] == Reinstall
  }

  /** What the handler did in the last call of the drain. */
  function LastEffect(waiting: nat, effects: seq<Effect>): Effect {
    var n := Calls(waiting, effects);
    if 0 < n <= |effects| then effects[n - 1] else Keep
  }

  lemma CallsStep(waiting: nat, effects: seq<Effect>)
    requires waiting > 0 && effects != [] && effects[0] != Uninstall && effects[0] != Throw
    ensures Calls(waiting, effects) == 1 + Calls(waiting - 1, effects[1..])
    ensures Reinstalls(waiting, effects) <==>
              (effects[0] == Reinstall && waiting > 1) || Reinstalls(waiting - 1, effects[1..])
    ensures waiting > 1 ==> LastEffect(waiting, effects) == LastEffect(waiting - 1, effects[1..])
  {
    var later := effects[1..];
    forall k | 0 <= k < |later| ensures later[k] == effects[k + 1] {
    }
    if Reinstalls(waiting - 1, later) {
      var k :| 0 <= k < |later| && k < Calls(waiting - 1, later) && k + 1 < waiting - 1 && later[k] == Reinstall;
      assert effects[k + 1] == Reinstall;
    }
    if Reinstalls(waiting, effects) {
      var k :| 0 <= k < |effects| && k < Calls(waiting, effects) && k + 1 < waiting && effects[k] == Reinstall;
      assert k > 0 ==> later[k - 1] == Reinstall;
    }
  }

  /** `d` is what a drain whose handler behaves as `effects` say leaves of `c`. */
  ghost predicate DrainEnds(c: Channel, effects: seq<Effect>, d: Channel) {
    var n := Calls(|c.pending|, effects);
    && d.delivered == c.delivered + c.pending[..n] && d.pending == c.pending[n..]
    && d.handler == (LastEffect(|c.pending|, effects) != Uninstall)
    && d.drainScheduled == (c.drainScheduled || Reinstalls(|c.pending|, effects))
  }

  /** One message handed over. */
  function Given(c: Channel): Channel
    requires c.pending != []
  {
    c.(delivered := c.delivered + [c.pending[0]], pending := c.pending[1..])
  }

  /** A call that stops the loop. */
  lemma StopEnds(c: Channel, effects: seq<Effect>, d: Channel)
    requires c.pending != [] && effects != [] && (effects[0] == Uninstall || effects[0] == Throw)
    requires d == Given(c).(handler := effects[0] == Throw)
    ensures DrainEnds(c, effects, d)
  {
    assert c.pending[..1] == [c.pending[0]];
  }

  /** A call after which the loop goes on. */
  lemma CallThenEnds(c: Channel, effects: seq<Effect>, next: Channel, d: Channel)
    requires c.pending != [] && effects != [] && (effects[0] == Keep || effects[0] == Reinstall)
    requires next.delivered == Given(c).delivered && next.pending == Given(c).pending
    requires next.drainScheduled == (c.drainScheduled || (effects[0] == Reinstall && |c.pending| > 1))
    requires DrainEnds(next, effects[1..], d)
    ensures DrainEnds(c, effects, d)
  {
    CallsStep(|c.pending|, effects);
    var n := Calls(|next.pending|, effects[1..]);
    assert c.pending[..n + 1] == [c.pending[0]] + next.pending[..n] && next.pending[n..] == c.pending[n + 1..];
  }

  /** A handler that always keeps on gets everything. */
  lemma {:induction false} DrainLoopKeeps(c: Channel)
    requires !c.failed && c.handler
    ensures DrainLoop(c, []) == c.(delivered := c.delivered + c.pending, pending := [])
    decreases |c.pending|
  {
    if c.pending == [] {
      assert c.delivered + [] == c.delivered;
    } else {
      DrainLoopKeeps(Given(c));
      assert c.pending == [c.pending[0]] + c.pending[1..];
      assert (c.delivered + [c.pending[0]]) + c.pending[1..] == c.delivered + c.pending;
    }
  }

  /** The loop of a drain in closed form: what it hands over, what it leaves, and whether another one is scheduled. */
  lemma {:induction false} DrainLoopEnds(c: Channel, effects: seq<Effect>)
    requires !c.failed && c.handler
    ensures DrainEnds(c, effects, DrainLoop(c, effects))
    decreases |c.pending|
  {
    if effects == [] || c.pending == [] {
      DrainLoopKeeps(c);
    } else {
      match effects[0]
      case Keep =>
        DrainLoopEnds(Given(c), effects[1..]);
        CallThenEnds(c, effects, Given(c), DrainLoop(c, effects));
      case Reinstall =>
        DrainLoopEnds(SetHandler(Given(c), true), effects[1..]);
        CallThenEnds(c, effects, SetHandler(Given(c), true), DrainLoop(c, effects));
      case Uninstall =>
        assert SetHandler(Given(c), false) == Given(c).(handler := false);
        assert DrainLoop(SetHandler(Given(c), false), effects[1..]) == SetHandler(Given(c), false);
        StopEnds(c, effects, DrainLoop(c, effects));
      case Throw => StopEnds(c, effects, DrainLoop(c, effects));
    }
  }

  // ------------------------------------------------------------------ end to end

  datatype System = System(send: Cipher, sent: seq<Bytes>, wire: seq<Bytes>, chan: Channel)

  datatype Event =
    | Send(input: Bytes)
    | Arrive(frame: Frame)
    | Begin
    | End
    | Observe
    | Install(installed: bool)
    | RunDrain(effects: seq<Effect>)
    | Close
    | SocketClosed

  function Step(s: System, e: Event): System {
    match e
    case Send(input) =>
      var parts := Fragments(input);
      var (cs, boxes) := SealAll(s.send, parts);
      System(cs, s.sent + (if |boxes| <= |parts| then parts[..|boxes|] else []), s.wire + boxes, s.chan)
    case Arrive(frame) => s.(chan := HandleCiphertext(s.chan, frame))
    case Begin => s.(chan := BeginLink(s.chan))
    case End => s.(chan := EndLink(s.chan))
    case Observe => s.(chan := ObserveRejection(s.chan))
    case Install(installed) => s.(chan := SetHandler(s.chan, installed))
    case RunDrain(effects) => s.(chan := Drain(s.chan, effects))
    case Close => s.(chan := CloseChannel(s.chan))
    case SocketClosed => s.(chan := s.chan.(readyState := IsClosed))
  }

  function Run(s: System, events: seq<Event>): System
    decreases events
  {
    if events == [] then s else Run(Step(s, events[0]), events[1..])
  }

  /** The network may invent any frame except a new box under the session key. */
  ghost predicate Unforged(frame: Frame, key: Bytes, wire: seq<Bytes>) {
    forall nonce, plain, ad :: frame == Data(Seal(key, nonce, plain, ad)) ==> frame.bytes in wire
  }

  ghost predicate Allowed(s: System, e: Event) {
    e.Arrive? && s.send.key.Some? ==> Unforged(e.frame, s.send.key.value, s.wire)
  }

  ghost predicate AllowedRun(s: System, events: seq<Event>)
    decreases events
  {
    events != [] ==> Allowed(s, events[0]) && AllowedRun(Step(s, events[0]), events[1..])
  }

  ghost predicate SenderInv(s: System) {
    && s.send.key.Some? && s.send.key == s.chan.receive.key
    && |s.sent| == |s.wire| == s.send.nonce
    && forall k :: 0 <= k < |s.wire| ==>
       UsableCounter(k) && s.wire[k] == Seal(s.send.key.value, NonceBytes(k), s.sent[k], [])
  }

  ghost predicate InFlightUnforged(s: System)
    requires s.send.key.Some?
  {
    && (forall k :: 0 <= k < |s.chan.queue| ==> Unforged(s.chan.queue[k], s.send.key.value, s.wire))
    && (s.chan.converting.Some? ==> Unforged(s.chan.converting.value, s.send.key.value, s.wire))
  }

  /** What is delivered or waiting is exactly what has been authenticated, in order. */
  ghost predicate Inv(s: System) {
    && SenderInv(s) && InFlightUnforged(s)
    && s.chan.receive.nonce <= |s.sent|
    && (s.chan.failed ==> s.chan.rejected && s.chan.pending == [] && s.chan.delivered <= s.sent)
    && (s.chan.rejected ==> s.chan.converting.None?)
    && (!s.chan.failed ==> s.chan.delivered + s.chan.pending == s.sent[..s.chan.receive.nonce])
  }

  /** The only frame that opens at nonce n is the n-th record the peer sent. */
  lemma OpensOnlyNext(s: System, bytes: Bytes)
    requires SenderInv(s) && Unforged(Data(bytes), s.send.key.value, s.wire)
    requires Decrypt(s.chan.receive, bytes, []).1.Ok?
    ensures s.chan.receive.nonce < |s.sent| && bytes == s.wire[s.chan.receive.nonce]
    ensures Decrypt(s.chan.receive, bytes, []) ==
            (s.chan.receive.(nonce := s.chan.receive.nonce + 1), Ok(s.sent[s.chan.receive.nonce]))
  {
    var key, n := s.send.key.value, s.chan.receive.nonce;
    OpenOnlySeal(key, NonceBytes(n), bytes, []);
    var plain := Open(key, NonceBytes(n), bytes, []).value;
    assert Data(bytes) == Data(Seal(key, NonceBytes(n), plain, []));
    var k :| 0 <= k < |s.wire| && s.wire[k] == bytes;
    SealInjective(key, NonceBytes(k), s.sent[k], [], key, NonceBytes(n), plain, []);
    NonceInjective(k, n);
  }

  /** Draining moves messages from `pending` to `delivered` and changes nothing else that matters. */
  lemma {:induction false} DrainLoopMoves(c: Channel, effects: seq<Effect>)
    ensures var d := DrainLoop(c, effects);
            && d.delivered + d.pending == c.delivered + c.pending
            && c.delivered <= d.delivered
            && d.receive == c.receive && d.failed == c.failed && d.rejected == c.rejected
            && d.queue == c.queue && d.converting == c.converting
            && (c.failed ==> d == c)
    decreases |c.pending|
  {
    if !c.failed && c.handler && c.pending != [] {
      var given := c.(delivered := c.delivered + [c.pending[0]], pending := c.pending[1..]);
      var later := if effects == [] then [] else effects[1..];
      assert given.delivered + given.pending == c.delivered + c.pending;
      DrainLoopMoves(given, later);
      DrainLoopMoves(SetHandler(given, false), later);
      DrainLoopMoves(SetHandler(given, true), later);
    }
  }

  lemma UnforgedMonotone(frame: Frame, key: Bytes, wire: seq<Bytes>, more: seq<Bytes>)
    requires Unforged(frame, key, wire)
    ensures Unforged(frame, key, wire + more)
  {
  }

  /** A send appends the sealed fragments to the wire, each at the next nonce. */
  lemma SendKeepsSender(s: System, input: Bytes)
    requires SenderInv(s)
    ensures var t := Step(s, Send(input));
            && SenderInv(t) && s.sent <= t.sent && s.wire <= t.wire && t.chan == s.chan && t.send.key == s.send.key
  {
    var parts := Fragments(input);
    SealAllCounts(s.send, parts);
    var (cs, boxes) := SealAll(s.send, parts);
    var t := Step(s, Send(input));
    forall k | 0 <= k < |t.wire|
      ensures UsableCounter(k) && t.wire[k] == Seal(t.send.key.value, NonceBytes(k), t.sent[k], [])
    {
      if k >= |s.wire| {
        SealAllAt(s.send, parts, k - |s.wire|);
        assert t.wire[k] == boxes[k - |s.wire|] && t.sent[k] == parts[k - |s.wire|];
      }
    }
  }

  /** Frames in flight that were not forged stay so when the wire grows. */
  lemma GrowthKeepsUnforged(s: System, t: System)
    requires s.send.key.Some? && InFlightUnforged(s) && t.chan == s.chan && t.send.key == s.send.key && s.wire <= t.wire
    ensures InFlightUnforged(t)
  {
    var more := t.wire[|s.wire|..];
    assert t.wire == s.wire + more;
    forall f: Frame | Unforged(f, s.send.key.value, s.wire) ensures Unforged(f, s.send.key.value, t.wire) {
      UnforgedMonotone(f, s.send.key.value, s.wire, more);
    }
  }

  lemma SendKeepsInv(s: System, input: Bytes)
    requires Inv(s)
    ensures Inv(Step(s, Send(input)))
    ensures s.sent <= Step(s, Send(input)).sent
  {
    SendKeepsSender(s, input);
    var t := Step(s, Send(input));
    GrowthKeepsUnforged(s, t);
    assert t.sent[..t.chan.receive.nonce] == s.sent[..s.chan.receive.nonce];
  }

  lemma EndKeepsInv(s: System)
    requires Inv(s)
    ensures Inv(Step(s, End))
  {
    var c := s.chan;
    if c.converting.Some? && c.converting.value.Data? && Decrypt(c.receive, c.converting.value.bytes, []).1.Ok? {
      OpensOnlyNext(s, c.converting.value.bytes);
      assert s.sent[..c.receive.nonce + 1] == s.sent[..c.receive.nonce] + [s.sent[c.receive.nonce]];
      assert c.delivered + (c.pending + [s.sent[c.receive.nonce]]) ==
             (c.delivered + c.pending) + [s.sent[c.receive.nonce]];
    }
  }

  lemma BeginKeepsInv(s: System)
    requires Inv(s)
    ensures Inv(Step(s, Begin))
  {
  }

  lemma DrainKeepsInv(s: System, effects: seq<Effect>)
    requires Inv(s)
    ensures Inv(Step(s, RunDrain(effects)))
  {
    DrainLoopMoves(s.chan.(drainScheduled := false), effects);
  }

  lemma StepKeepsInv(s: System, e: Event)
    requires Inv(s) && Allowed(s, e)
    ensures Inv(Step(s, e))
    ensures s.sent <= Step(s, e).sent
  {
    match e
    case Send(input) => SendKeepsInv(s, input);
    case Begin => BeginKeepsInv(s);
    case End => EndKeepsInv(s);
    case Observe =>
      assert !s.chan.failed ==> s.chan.delivered <= s.chan.delivered + s.chan.pending <= s.sent;
    case RunDrain(effects) => DrainKeepsInv(s, effects);
    case _ =>
  }

  lemma {:induction false} RunKeepsInv(s: System, events: seq<Event>)
    requires Inv(s) && AllowedRun(s, events)
    ensures Inv(Run(s, events))
    decreases events
  {
    if events != [] {
      StepKeepsInv(s, events[0]);
      RunKeepsInv(Step(s, events[0]), events[1..]);
    }
  }

  /** The channel the hand-over builds: open, and seeded with the records of the handshake phase. */
  function NewChannel(receive: Cipher, replay: seq<Bytes>): Channel {
    var frames := seq(|replay|, i requires 0 <= i < |replay| => Data(replay[i]));
    Channel(receive, IsOpen, false, false, [], false, frames, None, false, [])
  }

  ghost predicate Initial(s: System, replay: seq<Bytes>) {
    && SenderInv(s) && s.chan == NewChannel(Cipher(s.send.key, 0), replay)
    && forall k :: 0 <= k < |replay| ==> Unforged(Data(replay[k]), s.send.key.value, s.wire)
  }

  lemma InitialInv(s: System, replay: seq<Bytes>)
    requires Initial(s, replay)
    ensures Inv(s)
  {
  }

  /**
   Whatever the peer sends, whatever the network does and however arrivals,
   conversions, handler changes, drains and closes interleave, the consumer sees
   a prefix of the fragments sent.
   */
  lemma DeliveredIsPrefix(s: System, replay: seq<Bytes>, events: seq<Event>)
    requires Initial(s, replay) && AllowedRun(s, events)
    ensures Run(s, events).chan.delivered <= Run(s, events).sent
  {
    InitialInv(s, replay);
    RunKeepsInv(s, events);
    var t := Run(s, events);
    assert !t.chan.failed ==> t.chan.delivered <= t.chan.delivered + t.chan.pending;
  }

  /** Once failed, a channel stays failed and delivers nothing more, from any state. */
  lemma {:induction false} FailStop(s: System, events: seq<Event>)
    requires s.chan.failed
    ensures Run(s, events).chan.failed
    ensures Run(s, events).chan.delivered == s.chan.delivered
    decreases events
  {
    if events != [] {
      if events[0].RunDrain? {
        DrainLoopMoves(s.chan.(drainScheduled := false), events[0].effects);
      }
      FailStop(Step(s, events[0]), events[1..]);
    }
  }

  function Progress(r: ReadyState): nat {
    match r
    case IsOpen => 0
    case IsClosing => 1
    case IsClosed => 2
  }

  lemma StepAdvances(s: System, e: Event)
    ensures Progress(s.chan.readyState) <= Progress(Step(s, e).chan.readyState)
  {
    if e.RunDrain? {
      DrainKeepsReadyState(s.chan.(drainScheduled := false), e.effects);
    }
  }

  /** A channel never opens again. */
  lemma {:induction false} ReadyStateAdvances(s: System, events: seq<Event>)
    ensures Progress(s.chan.readyState) <= Progress(Run(s, events).chan.readyState)
    decreases events
  {
    if events != [] {
      StepAdvances(s, events[0]);
      ReadyStateAdvances(Step(s, events[0]), events[1..]);
    }
  }

  /** What has not been decrypted when a channel fails never is, and nothing more is queued. */
  lemma {:induction false} FailedIsInert(s: System, events: seq<Event>)
    requires s.chan.failed && s.chan.rejected && s.chan.converting.None?
    ensures var t := Run(s, events).chan;
            && t.failed && t.rejected && t.converting.None? && t.receive == s.chan.receive && t.queue == s.chan.queue
    decreases events
  {
    if events != [] {
      if events[0].RunDrain? {
        DrainLoopMoves(s.chan.(drainScheduled := false), events[0].effects);
      }
      FailedIsInert(Step(s, events[0]), events[1..]);
    }
  }

  /** Nothing is delivered, or scheduled to be, before a handler is installed. */
  lemma {:induction false} NothingBeforeHandler(s: System, events: seq<Event>)
    requires !s.chan.handler && !s.chan.drainScheduled
    requires forall i :: 0 <= i < |events| ==> events[i] != Install(true)
    ensures var t := Run(s, events).chan; !t.handler && !t.drainScheduled && t.delivered == s.chan.delivered
    decreases events
  {
    if events != [] {
      NothingBeforeHandler(Step(s, events[0]), events[1..]);
    }
  }

  /** A new channel has no handler and no drain under way. */
  lemma NewChannelWaits(s: System, receive: Cipher, replay: seq<Bytes>, events: seq<Event>)
    requires s.chan == NewChannel(receive, replay)
    requires forall i :: 0 <= i < |events| ==> events[i] != Install(true)
    ensures Run(s, events).chan.delivered == []
  {
    NothingBeforeHandler(s, events);
  }

  /** A failed channel is closing or closed, after any events. */
  lemma {:induction false} FailedCloses(s: System, events: seq<Event>)
    requires s.chan.failed ==> s.chan.readyState != IsOpen
    ensures Run(s, events).chan.failed ==> Run(s, events).chan.readyState != IsOpen
    decreases events
  {
    if events != [] {
      if events[0].RunDrain? {
        DrainKeepsReadyState(s.chan.(drainScheduled := false), events[0].effects);
      }
      FailedCloses(Step(s, events[0]), events[1..]);
    }
  }

  lemma {:induction false} DrainKeepsReadyState(c: Channel, effects: seq<Effect>)
    ensures DrainLoop(c, effects).readyState == c.readyState && DrainLoop(c, effects).failed == c.failed
    decreases |c.pending|
  {
    if !c.failed && c.handler && c.pending != [] {
      var later := if effects == [] then [] else effects[1..];
      DrainKeepsReadyState(Given(c), later);
      DrainKeepsReadyState(SetHandler(Given(c), false), later);
      DrainKeepsReadyState(SetHandler(Given(c), true), later);
    }
  }

  /**
   Whatever the network puts in front of the next link, the channel fails and closes if
   and only if it is not the peer's next record; and then nothing of it is delivered.
   */
  lemma LinkFailsIff(s: System)
    requires Inv(s) && !s.chan.failed && !s.chan.rejected && s.chan.converting.Some?
    ensures var n := s.chan.receive.nonce;
            var t := Step(Step(s, End), Observe).chan;
            && (t.failed <==> !(n < |s.wire| && |s.wire[n]| <= MAX_NOISE_MESSAGE
                                && s.chan.converting.value == Data(s.wire[n])))
            && (t.failed ==> t.readyState != IsOpen && t.pending == [] && t.delivered == s.chan.delivered)
            && (!t.failed ==> t.pending == s.chan.pending + [s.sent[n]])
  {
    var n, frame := s.chan.receive.nonce, s.chan.converting.value;
    if frame.Data? && Decrypt(s.chan.receive, frame.bytes, []).1.Ok? {
      OpensOnlyNext(s, frame.bytes);
    }
    if n < |s.wire| && frame == Data(s.wire[n]) {
      OpenSeal(s.send.key.value, NonceBytes(n), s.sent[n], []);
    }
  }

  // ------------------------------------------------------------------ who is stalled

  /** Messages wait, a handler is there to take them, and nothing will hand them over. */
  predicate Stalled(c: Channel) {
    !c.failed && c.handler && c.pending != [] && !c.drainScheduled
  }

  /** The link being converted ends with a message in the queue. */
  predicate Queues(c: Channel) {
    c.converting.Some? && c.converting.value.Data? && Decrypt(c.receive, c.converting.value.bytes, []).1.Ok?
  }

  /**
   A drain stalls the channel exactly when the handler throws with messages left over and
   was not set again before; setting a handler or queueing a message ends any stall.
   */
  lemma StallsIff(s: System, e: Event)
    ensures var c := s.chan;
            Stalled(Step(s, e).chan) <==>
              match e
              case RunDrain(effects) =>
                if !c.drainScheduled then Stalled(c)
                else && !c.failed && c.handler && Calls(|c.pending|, effects) < |c.pending|
                     && LastEffect(|c.pending|, effects) == Throw && !Reinstalls(|c.pending|, effects)
              case Install(_) => false
              case End => Stalled(c) && !Queues(c)
              case Observe => Stalled(c) && !c.rejected
              case _ => Stalled(c)
  {
    if e.RunDrain? && s.chan.drainScheduled && !s.chan.failed && s.chan.handler {
      DrainLoopEnds(s.chan.(drainScheduled := false), e.effects);
      DrainKeepsReadyState(s.chan.(drainScheduled := false), e.effects);
      if Calls(|s.chan.pending|, e.effects) < |s.chan.pending| {
        StopsEarly(|s.chan.pending|, e.effects);
      }
    }
  }

  /** A drain that leaves messages ended with a throw or an uninstalled handler. */
  lemma {:induction false} StopsEarly(waiting: nat, effects: seq<Effect>)
    requires Calls(waiting, effects) < waiting
    ensures LastEffect(waiting, effects) == Throw || LastEffect(waiting, effects) == Uninstall
    decreases waiting
  {
    if effects != [] && effects[0] != Uninstall && effects[0] != Throw {
      StopsEarly(waiting - 1, effects[1..]);
      CallsStep(waiting, effects);
    }
  }

  /** As long as no handler throws, a channel with messages and a handler always has a drain scheduled. */
  lemma {:induction false} NeverStalled(s: System, events: seq<Event>)
    requires !Stalled(s.chan)
    requires forall i :: 0 <= i < |events| && events[i].RunDrain? ==> Throw !in events[i].effects
    ensures !Stalled(Run(s, events).chan)
    decreases events
  {
    if events != [] {
      StallsIff(s, events[0]);
      NeverStalled(Step(s, events[0]), events[1..]);
    }
  }

  // -------------------------------------------------------- a faithful network

  /** Records not yet decrypted: the link being converted, then the queue. */
  function Undecrypted(c: Channel): seq<Frame> {
    (if c.converting.Some? then [c.converting.value] else []) + c.queue
  }

  function AsFrames(boxes: seq<Bytes>): (f: seq<Frame>)
    ensures |f| == |boxes|
  {
    seq(|boxes|, i requires 0 <= i < |boxes| => Data(boxes[i]))
  }

  /** `arrived` records have come in, unchanged and in order. */
  ghost predicate Faithful(s: System, arrived: nat) {
    && Inv(s) && !s.chan.rejected
    && s.chan.receive.nonce <= arrived <= |s.wire|
    && Undecrypted(s.chan) == AsFrames(s.wire[s.chan.receive.nonce..arrived])
    && forall k :: 0 <= k < |s.wire| ==> |s.wire[k]| <= MAX_NOISE_MESSAGE
  }

  function ArrivedAfter(s: System, arrived: nat, e: Event): nat {
    if e.Arrive? then arrived + 1 else arrived
  }

  ghost predicate InOrder(s: System, arrived: nat, e: Event) {
    e.Arrive? ==> arrived < |s.wire| && e.frame == Data(s.wire[arrived])
  }

  ghost predicate InOrderRun(s: System, arrived: nat, events: seq<Event>)
    decreases events
  {
    events != [] ==>
      && InOrder(s, arrived, events[0])
      && InOrderRun(Step(s, events[0]), ArrivedAfter(s, arrived, events[0]), events[1..])
  }

  function ArrivedAfterAll(s: System, arrived: nat, events: seq<Event>): nat
    decreases events
  {
    if events == [] then arrived
    else ArrivedAfterAll(Step(s, events[0]), ArrivedAfter(s, arrived, events[0]), events[1..])
  }

  lemma InOrderAllowed(s: System, arrived: nat, e: Event)
    requires InOrder(s, arrived, e)
    ensures Allowed(s, e)
  {
  }

  lemma NextToDecrypt(s: System, arrived: nat)
    requires Faithful(s, arrived) && s.chan.converting.Some?
    ensures var n := s.chan.receive.nonce;
            && n < arrived && s.chan.converting.value == Data(s.wire[n])
               && s.chan.queue == AsFrames(s.wire[n + 1..arrived])
  {
    var n := s.chan.receive.nonce;
    assert Undecrypted(s.chan)[0] == AsFrames(s.wire[n..arrived])[0] == Data(s.wire[n]);
    assert Undecrypted(s.chan)[1..] == s.chan.queue;
    assert s.wire[n..arrived][1..] == s.wire[n + 1..arrived];
    assert AsFrames(s.wire[n..arrived])[1..] == AsFrames(s.wire[n..arrived][1..]);
  }

  /** The next record opens. */
  lemma FaithfulDecrypts(s: System, arrived: nat)
    requires Faithful(s, arrived) && s.chan.converting.Some?
    ensures var n := s.chan.receive.nonce;
            && n < arrived && s.chan.converting.value == Data(s.wire[n])
            && Decrypt(s.chan.receive, s.wire[n], []) == (s.chan.receive.(nonce := n + 1), Ok(s.sent[n]))
  {
    var n := s.chan.receive.nonce;
    NextToDecrypt(s, arrived);
    OpenSeal(s.send.key.value, NonceBytes(n), s.sent[n], []);
  }

  lemma EndTakesNext(s: System, arrived: nat)
    requires Faithful(s, arrived) && s.chan.converting.Some?
    ensures var n, t := s.chan.receive.nonce, Step(s, End);
            && t.send == s.send && t.wire == s.wire && t.sent == s.sent && !t.chan.rejected
            && t.chan.receive.nonce == n + 1 <= arrived && Undecrypted(t.chan) == AsFrames(s.wire[n + 1..arrived])
  {
    FaithfulDecrypts(s, arrived);
    NextToDecrypt(s, arrived);
    assert Undecrypted(Step(s, End).chan) == s.chan.queue;
  }

  lemma FaithfulEnd(s: System, arrived: nat)
    requires Faithful(s, arrived)
    ensures Faithful(Step(s, End), arrived)
  {
    EndKeepsInv(s);
    if s.chan.converting.Some? {
      EndTakesNext(s, arrived);
    }
  }

  lemma FaithfulSend(s: System, arrived: nat, input: Bytes)
    requires Faithful(s, arrived)
    ensures Faithful(Step(s, Send(input)), arrived)
  {
    SendKeepsInv(s, input);
    FragmentsPartition(input);
    SealAllCounts(s.send, Fragments(input));
    var t := Step(s, Send(input));
    forall k | 0 <= k < |t.wire| ensures |t.wire[k]| <= MAX_NOISE_MESSAGE {
      if k >= |s.wire| {
        SealAllAt(s.send, Fragments(input), k - |s.wire|);
      }
    }
    assert t.wire[s.chan.receive.nonce..arrived] == s.wire[s.chan.receive.nonce..arrived];
  }

  lemma FaithfulArrive(s: System, arrived: nat)
    requires Faithful(s, arrived) && arrived < |s.wire|
    ensures Faithful(Step(s, Arrive(Data(s.wire[arrived]))), arrived + 1)
  {
    var n, frame := s.chan.receive.nonce, Data(s.wire[arrived]);
    InOrderAllowed(s, arrived, Arrive(frame));
    StepKeepsInv(s, Arrive(frame));
    assert Undecrypted(Step(s, Arrive(frame)).chan) == Undecrypted(s.chan) + [frame];
    assert AsFrames(s.wire[n..arrived + 1]) == AsFrames(s.wire[n..arrived]) + [frame];
  }

  /** Everything but sends, arrivals and decryptions leaves the records in flight alone. */
  lemma QuietStepKeepsRecords(s: System, e: Event)
    requires !s.chan.rejected && !e.Send? && !e.Arrive? && !e.End? && (s.chan.failed ==> s.chan.rejected)
    ensures var t := Step(s, e);
            && t.send == s.send && t.sent == s.sent && t.wire == s.wire && !t.chan.rejected
            && t.chan.receive == s.chan.receive && Undecrypted(t.chan) == Undecrypted(s.chan)
  {
    if e.RunDrain? {
      DrainLoopMoves(s.chan.(drainScheduled := false), e.effects);
    }
  }

  lemma FaithfulStep(s: System, arrived: nat, e: Event)
    requires Faithful(s, arrived) && InOrder(s, arrived, e)
    ensures Faithful(Step(s, e), ArrivedAfter(s, arrived, e))
  {
    if e.Send? {
      FaithfulSend(s, arrived, e.input);
    } else if e.Arrive? {
      FaithfulArrive(s, arrived);
    } else if e.End? {
      FaithfulEnd(s, arrived);
    } else {
      QuietStepKeepsRecords(s, e);
      StepKeepsInv(s, e);
    }
  }

  lemma {:induction false} FaithfulRun(s: System, arrived: nat, events: seq<Event>)
    requires Faithful(s, arrived) && InOrderRun(s, arrived, events)
    ensures Faithful(Run(s, events), ArrivedAfterAll(s, arrived, events))
    decreases events
  {
    if events != [] {
      FaithfulStep(s, arrived, events[0]);
      FaithfulRun(Step(s, events[0]), ArrivedAfter(s, arrived, events[0]), events[1..]);
    }
  }

  lemma InitialFaithful(s: System, replay: seq<Bytes>)
    requires Initial(s, replay) && replay <= s.wire
    requires forall k :: 0 <= k < |s.wire| ==> |s.wire[k]| <= MAX_NOISE_MESSAGE
    ensures Faithful(s, |replay|)
  {
    InitialInv(s, replay);
    assert s.wire[0..|replay|] == replay;
    assert Undecrypted(s.chan) == AsFrames(replay);
  }

  lemma FaithfulDelivers(t: System, arrived: nat)
    requires Faithful(t, arrived)
    ensures !t.chan.failed && !t.chan.rejected && arrived <= |t.sent|
    ensures Undecrypted(t.chan) == [] && t.chan.pending == [] ==> t.chan.delivered == t.sent[..arrived]
  {
    assert |Undecrypted(t.chan)| == arrived - t.chan.receive.nonce;
  }

  /** The conversions still waiting finish, a handler is installed, and the drain that schedules runs. */
  function Settling(undecrypted: nat): seq<Event> {
    if undecrypted == 0 then [Install(true), RunDrain([])] else [Begin] + ([End] + Settling(undecrypted - 1))
  }

  lemma RunFirst(s: System, e: Event, rest: seq<Event>)
    ensures Run(s, [e] + rest) == Run(Step(s, e), rest)
  {
    assert ([e] + rest)[1..] == rest;
  }

  /** With nothing left to decrypt, installing a handler delivers everything. */
  lemma InstallDelivers(s: System, arrived: nat)
    requires Faithful(s, arrived) && Undecrypted(s.chan) == []
    ensures var t := Run(s, [Install(true), RunDrain([])]);
            t.chan.delivered == s.sent[..arrived] && t.chan.pending == [] && t.sent == s.sent
  {
    FaithfulDelivers(s, arrived);
    assert [Install(true), RunDrain([])] == [Install(true)] + ([RunDrain([])] + []);
    RunFirst(s, Install(true), [RunDrain([])] + []);
    var installed := Step(s, Install(true));
    RunFirst(installed, RunDrain([]), []);
    DrainLoopKeeps(installed.chan.(drainScheduled := false));
    assert |Undecrypted(s.chan)| == arrived - s.chan.receive.nonce;
    assert s.chan.delivered + s.chan.pending == s.sent[..arrived];
    assert s.chan.pending == [] ==> s.chan.delivered + [] == s.chan.delivered;
  }

  /** One link, begun and ended, takes one record off the queue. */
  lemma LinkShrinks(s: System, arrived: nat)
    requires Faithful(s, arrived) && Undecrypted(s.chan) != []
    ensures var ended := Step(Step(s, Begin), End);
            && Faithful(ended, arrived) && ended.sent == s.sent
            && |Undecrypted(ended.chan)| == |Undecrypted(s.chan)| - 1
  {
    var begun := Step(s, Begin);
    FaithfulStep(s, arrived, Begin);
    assert begun.chan.converting.Some? && Undecrypted(begun.chan) == Undecrypted(s.chan) && begun.sent == s.sent;
    FaithfulEnd(begun, arrived);
    EndTakesNext(begun, arrived);
  }

  lemma RunLink(s: System, rest: seq<Event>)
    ensures Run(s, [Begin] + ([End] + rest)) == Run(Step(Step(s, Begin), End), rest)
  {
    RunFirst(s, Begin, [End] + rest);
    RunFirst(Step(s, Begin), End, rest);
  }

  ghost predicate Delivers(s: System, events: seq<Event>, arrived: nat) {
    && arrived <= |s.sent|
    && var t := Run(s, events); t.chan.delivered == s.sent[..arrived] && t.chan.pending == [] && t.sent == s.sent
  }

  lemma LaterDelivers(s: System, n: nat, arrived: nat)
    requires n > 0 && Delivers(Step(Step(s, Begin), End), Settling(n - 1), arrived)
    requires Step(Step(s, Begin), End).sent == s.sent
    ensures Delivers(s, Settling(n), arrived)
  {
    RunLink(s, Settling(n - 1));
  }

  /** Wherever a faithful channel is, its conversions, a handler and one drain deliver all that has arrived. */
  lemma {:induction false} SettlingDelivers(s: System, arrived: nat)
    requires Faithful(s, arrived)
    ensures Delivers(s, Settling(|Undecrypted(s.chan)|), arrived)
    decreases |Undecrypted(s.chan)|
  {
    if Undecrypted(s.chan) == [] {
      InstallDelivers(s, arrived);
    } else {
      LinkShrinks(s, arrived);
      SettlingDelivers(Step(Step(s, Begin), End), arrived);
      LaterDelivers(s, |Undecrypted(s.chan)|, arrived);
    }
  }

  /**
   Over a network that loses and invents nothing the channel never fails, has delivered
   every record that arrived once its queues are empty, and empties them as soon as its
   conversions finish and a handler is installed; handshake-phase records included.
   */
  lemma LosslessDelivery(s: System, replay: seq<Bytes>, events: seq<Event>)
    requires Initial(s, replay) && replay <= s.wire
    requires forall k :: 0 <= k < |s.wire| ==> |s.wire[k]| <= MAX_NOISE_MESSAGE
    requires InOrderRun(s, |replay|, events)
    ensures var t := Run(s, events);
            var arrived := ArrivedAfterAll(s, |replay|, events);
            && !t.chan.failed && !t.chan.rejected && arrived <= |t.sent|
            && (Undecrypted(t.chan) == [] && t.chan.pending == [] ==> t.chan.delivered == t.sent[..arrived])
            && Run(t, Settling(|Undecrypted(t.chan)|)).chan.delivered == t.sent[..arrived]
  {
    InitialFaithful(s, replay);
    FaithfulRun(s, |replay|, events);
    FaithfulDelivers(Run(s, events), ArrivedAfterAll(s, |replay|, events));
    SettlingDelivers(Run(s, events), ArrivedAfterAll(s, |replay|, events));
  }

  // -------------------------------------------------------------------- hand-over

  /**
   The temporary handler of `openNoiseWebSocket`: frames wait in a conversion
   chain, the first one converted is the handshake response and the rest are
   kept for replay.
   */
  datatype Opening = Opening(chain: seq<Frame>, response: Option<Bytes>, kept: seq<Bytes>, frameError: bool)

  datatype OpeningEvent = FrameArrives(frame: Frame) | FrameConverts

  function OpeningStep(o: Opening, e: OpeningEvent): Opening {
    match e
    case FrameArrives(frame) => o.(chain := o.chain + [frame])
    case FrameConverts =>
      if o.chain == [] then o
      else
        var rest := o.(chain := o.chain[1..]);
        match o.chain[0]
        case NotBytes => rest.(frameError := true)
        case Data(bytes) => if o.response.None? then rest.(response := Some(bytes)) else rest.(kept := o.kept + [bytes])
  }

  function OpeningRun(o: Opening, events: seq<OpeningEvent>): Opening
    decreases events
  {
    if events == [] then o else OpeningRun(OpeningStep(o, events[0]), events[1..])
  }

  function Arrivals(events: seq<OpeningEvent>): seq<Frame> {
    if events == [] then []
    else (if events[0].FrameArrives? then [events[0].frame] else []) + Arrivals(events[1..])
  }

  /** The frames an opening has seen: the response, the kept records, then the unconverted ones. */
  function Seen(o: Opening): seq<Frame> {
    (if o.response.Some? then [Data(o.response.value)] else []) + AsFrames(o.kept) + o.chain
  }

  ghost predicate OpeningInv(o: Opening) {
    o.response.None? ==> o.kept == []
  }

  lemma OpeningStepSeen(o: Opening, e: OpeningEvent)
    requires OpeningInv(o) && !OpeningStep(o, e).frameError
    ensures OpeningInv(OpeningStep(o, e)) && !o.frameError
    ensures Seen(OpeningStep(o, e)) == Seen(o) + (if e.FrameArrives? then [e.frame] else [])
  {
    var t := OpeningStep(o, e);
    if e.FrameConverts? && o.chain != [] {
      assert o.chain == [o.chain[0]] + o.chain[1..];
      if o.response.Some? {
        assert AsFrames(t.kept) == AsFrames(o.kept) + [o.chain[0]];
      }
    }
  }

  lemma {:induction false} ErrorIsSticky(o: Opening, events: seq<OpeningEvent>)
    requires o.frameError
    ensures OpeningRun(o, events).frameError
    decreases events
  {
    if events != [] {
      ErrorIsSticky(OpeningStep(o, events[0]), events[1..]);
    }
  }

  lemma ConcatAssociative<T>(a: seq<T>, b: seq<T>, c: seq<T>)
    ensures (a + b) + c == a + (b + c)
  {
  }

  lemma {:induction false} OpeningRunSeen(o: Opening, events: seq<OpeningEvent>)
    requires OpeningInv(o) && !OpeningRun(o, events).frameError
    ensures OpeningInv(OpeningRun(o, events))
    ensures Seen(OpeningRun(o, events)) == Seen(o) + Arrivals(events)
    decreases events
  {
    if events != [] {
      if OpeningStep(o, events[0]).frameError {
        ErrorIsSticky(OpeningStep(o, events[0]), events[1..]);
      }
      OpeningStepSeen(o, events[0]);
      OpeningRunSeen(OpeningStep(o, events[0]), events[1..]);
      ConcatAssociative(Seen(o), if events[0].FrameArrives? then [events[0].frame] else [], Arrivals(events[1..]));
    }
  }

  /** `await frameChain`: the conversions waiting finish, with no arrival in between. */
  function AwaitChain(o: Opening): (t: Opening)
    decreases |o.chain|
  {
    if o.chain == [] then o else AwaitChain(OpeningStep(o, FrameConverts))
  }

  lemma {:induction false} AwaitChainSeen(o: Opening)
    requires OpeningInv(o) && !AwaitChain(o).frameError
    ensures OpeningInv(AwaitChain(o)) && AwaitChain(o).chain == [] && !o.frameError
    ensures Seen(AwaitChain(o)) == Seen(o)
    ensures o.response.Some? ==> AwaitChain(o).response == o.response
    decreases |o.chain|
  {
    if o.chain != [] {
      if OpeningStep(o, FrameConverts).frameError {
        AwaitKeepsError(OpeningStep(o, FrameConverts));
      }
      AwaitChainSeen(OpeningStep(o, FrameConverts));
      OpeningStepSeen(o, FrameConverts);
    }
  }

  lemma {:induction false} AwaitKeepsError(o: Opening)
    requires o.frameError
    ensures AwaitChain(o).frameError
    decreases |o.chain|
  {
    if o.chain != [] {
      AwaitKeepsError(OpeningStep(o, FrameConverts));
    }
  }

  const FRESH_OPENING := Opening([], None, [], false)

  /** The state in which `openNoiseWebSocket` builds its channel. */
  function HandedOver(events: seq<OpeningEvent>): Opening {
    AwaitChain(OpeningRun(FRESH_OPENING, events))
  }

  /**
   However frames arrive and convert before the hand-over: unless a frame was not
   bytes, the first one is the response and the channel starts with exactly the
   later ones, in arrival order.
   */
  lemma HandOverReplaysAll(events: seq<OpeningEvent>, receive: Cipher)
    requires !HandedOver(events).frameError && OpeningRun(FRESH_OPENING, events).response.Some?
    ensures var o := HandedOver(events);
            && o.response == OpeningRun(FRESH_OPENING, events).response
            && Arrivals(events) == [Data(o.response.value)] + AsFrames(o.kept)
            && NewChannel(receive, o.kept).queue == Arrivals(events)[1..]
  {
    var reached := OpeningRun(FRESH_OPENING, events);
    if reached.frameError {
      AwaitKeepsError(reached);
    }
    OpeningRunSeen(FRESH_OPENING, events);
    assert Seen(FRESH_OPENING) == [];
    AwaitChainSeen(reached);
    var o := HandedOver(events);
    assert Seen(o) == [Data(o.response.value)] + AsFrames(o.kept);
    assert AsFrames(o.kept) == NewChannel(receive, o.kept).queue;
  }

  /** It fails exactly when some frame that arrived was not bytes. */
  lemma HandOverFailsIff(events: seq<OpeningEvent>)
    ensures HandedOver(events).frameError <==> NotBytes in Arrivals(events)
  {
    FailureIsSeen(FRESH_OPENING, events);
    AwaitFailsIff(OpeningRun(FRESH_OPENING, events));
  }

  lemma {:induction false} FailureIsSeen(o: Opening, events: seq<OpeningEvent>)
    ensures var t := OpeningRun(o, events);
            t.frameError || NotBytes in t.chain <==> o.frameError || NotBytes in o.chain || NotBytes in Arrivals(events)
    decreases events
  {
    if events != [] {
      FailureIsSeen(OpeningStep(o, events[0]), events[1..]);
      if events[0].FrameConverts? && o.chain != [] {
        assert o.chain == [o.chain[0]] + o.chain[1..];
      }
    }
  }

  lemma {:induction false} AwaitFailsIff(o: Opening)
    ensures AwaitChain(o).frameError <==> o.frameError || NotBytes in o.chain
    decreases |o.chain|
  {
    if o.chain != [] {
      assert o.chain == [o.chain[0]] + o.chain[1..];
      AwaitFailsIff(OpeningStep(o, FrameConverts));
    }
  }
}
