/** Handshake, hand-over and record layer together: what a completed `openNoiseWebSocket` guarantees. */
module Session {
  import Prelude
  import opened SymbolicCrypto
  import opened Ciphers
  import H = Handshake
  import R = RecordLayer

  /**
   The initiator has accepted a reply that the responder gave to some message; the reply
   is the first frame of the opening, and no frame was anything but bytes.
   */
  ghost predicate Accepted(i: H.Initiator, ephI: nat, r: H.Responder, message: Bytes, ephR: nat,
                           opening: seq<R.OpeningEvent>) {
    && H.WellFormed(i) && H.WellFormedResponder(r) && H.Respond(r, message, ephR).Ok?
    && H.Finish(H.Start(i, ephI).0, ephI, i.clientSecret, H.Respond(r, message, ephR).value.response).1.Ok?
    && !R.HandedOver(opening).frameError
    && R.OpeningRun(R.FRESH_OPENING, opening).response == Prelude.Some(H.Respond(r, message, ephR).value.response)
  }

  function InitiatorKeys(i: H.Initiator, ephI: nat, response: Bytes): H.Keys
    requires H.Finish(H.Start(i, ephI).0, ephI, i.clientSecret, response).1.Ok?
  {
    H.Finish(H.Start(i, ephI).0, ephI, i.clientSecret, response).1.value
  }

  /** A sender that has sealed `parts` one after another since the handshake, and its peer's new channel. */
  function Direction(send: Cipher, parts: seq<Bytes>, receive: Cipher, kept: seq<Bytes>): R.System {
    var (cs, boxes) := R.SealAll(send, parts);
    R.System(cs, if |boxes| <= |parts| then parts[..|boxes|] else [], boxes, R.NewChannel(receive, kept))
  }

  lemma DirectionSends(send: Cipher, parts: seq<Bytes>, kept: seq<Bytes>)
    requires send.key.Some? && send.nonce == 0
    ensures var s := Direction(send, parts, send, kept);
            R.SenderInv(s) && s.chan == R.NewChannel(Cipher(s.send.key, 0), kept) && s.sent <= parts
  {
    R.SealAllCounts(send, parts);
    var s := Direction(send, parts, send, kept);
    forall k | 0 <= k < |s.wire|
      ensures UsableCounter(k) && s.wire[k] == Seal(s.send.key.value, NonceBytes(k), s.sent[k], [])
    {
      R.SealAllAt(send, parts, k);
    }
  }

  /** The keys of an accepted session are crossed and unused. */
  lemma AcceptedKeys(i: H.Initiator, ephI: nat, r: H.Responder, message: Bytes, ephR: nat)
    requires H.WellFormed(i) && H.WellFormedResponder(r) && H.Respond(r, message, ephR).Ok?
    requires H.Finish(H.Start(i, ephI).0, ephI, i.clientSecret, H.Respond(r, message, ephR).value.response).1.Ok?
    ensures var mine := InitiatorKeys(i, ephI, H.Respond(r, message, ephR).value.response);
            var theirs := H.Respond(r, message, ephR).value.keys;
            && mine.send == theirs.receive && mine.receive == theirs.send
            && mine.send.key.Some? && mine.send.nonce == 0 && mine.receive.key.Some? && mine.receive.nonce == 0
  {
    H.ResponseBinding(i, ephI, r, message, ephR);
    H.Agreement(i, ephI, r, ephR);
  }

  /** No frame kept from before the hand-over is a box of the session that the peer did not send. */
  ghost predicate NoneForged(s: R.System, kept: seq<Bytes>) {
    s.send.key.Some? ==> forall k :: 0 <= k < |kept| ==> R.Unforged(R.Data(kept[k]), s.send.key.value, s.wire)
  }

  /** If the network forges no box, what is delivered is a prefix of what was sent. */
  ghost predicate DeliversPrefix(s: R.System, kept: seq<Bytes>, events: seq<R.Event>) {
    NoneForged(s, kept) && R.AllowedRun(s, events) ==>
      R.Run(s, events).chan.delivered <= R.Run(s, events).sent
  }

  /**
   Against any network: whatever frames arrived before the hand-over and however they
   converted, whatever the pod had sent by then and sends later, and in every
   interleaving, the client's consumer gets a prefix of what the pod sent and the pod's
   a prefix of what the client sent. The network only forges no box.
   */
  lemma AcceptedSessionDelivers(i: H.Initiator, ephI: nat, r: H.Responder, message: Bytes, ephR: nat,
                                opening: seq<R.OpeningEvent>, parts: seq<Bytes>, events: seq<R.Event>)
    requires Accepted(i, ephI, r, message, ephR, opening)
    ensures var mine := InitiatorKeys(i, ephI, H.Respond(r, message, ephR).value.response);
            var theirs := H.Respond(r, message, ephR).value.keys;
            var inbound := Direction(theirs.send, parts, mine.receive, R.HandedOver(opening).kept);
            var outbound := Direction(mine.send, [], theirs.receive, []);
            DeliversPrefix(inbound, R.HandedOver(opening).kept, events) && DeliversPrefix(outbound, [], events)
  {
    AcceptedKeys(i, ephI, r, message, ephR);
    var mine := InitiatorKeys(i, ephI, H.Respond(r, message, ephR).value.response);
    DirectionDelivers(mine.receive, parts, R.HandedOver(opening).kept, events);
    DirectionDelivers(mine.send, [], [], events);
  }

  lemma DirectionDelivers(send: Cipher, parts: seq<Bytes>, kept: seq<Bytes>, events: seq<R.Event>)
    requires send.key.Some? && send.nonce == 0
    ensures var s := Direction(send, parts, send, kept);
            DeliversPrefix(s, kept, events)
  {
    var s := Direction(send, parts, send, kept);
    DirectionSends(send, parts, kept);
    R.SealAllCounts(send, parts);
    if NoneForged(s, kept) && R.AllowedRun(s, events) {
      R.DeliveredIsPrefix(s, kept, events);
    }
  }

  /**
   Over a network that keeps order and loses nothing: if the frames before the hand-over
   were the reply and the pod's first `early` records, the client's channel never fails,
   and once its conversions have finished and the consumer has installed its handler it has
   delivered every record that arrived, those of the handshake phase first.
   */
  lemma AcceptedSessionLosesNothing(i: H.Initiator, ephI: nat, r: H.Responder, message: Bytes, ephR: nat,
                                    opening: seq<R.OpeningEvent>, parts: seq<Bytes>, early: nat, events: seq<R.Event>)
    requires Accepted(i, ephI, r, message, ephR, opening)
    requires forall k :: 0 <= k < |parts| ==> |parts[k]| <= MAX_PLAINTEXT_FRAME
    requires var theirs := H.Respond(r, message, ephR).value.keys;
             var boxes := R.SealAll(theirs.send, parts).1;
             && early <= |boxes|
             && R.Arrivals(opening) == [R.Data(H.Respond(r, message, ephR).value.response)] + R.AsFrames(boxes[..early])
    requires var mine := InitiatorKeys(i, ephI, H.Respond(r, message, ephR).value.response);
             var theirs := H.Respond(r, message, ephR).value.keys;
             R.InOrderRun(Direction(theirs.send, parts, mine.receive, R.HandedOver(opening).kept), early, events)
    ensures var mine := InitiatorKeys(i, ephI, H.Respond(r, message, ephR).value.response);
            var theirs := H.Respond(r, message, ephR).value.keys;
            var s := Direction(theirs.send, parts, mine.receive, R.HandedOver(opening).kept);
            var t := R.Run(s, events);
            var arrived := R.ArrivedAfterAll(s, early, events);
            && !t.chan.failed && !t.chan.rejected && early <= arrived <= |t.sent|
            && (R.Undecrypted(t.chan) == [] && t.chan.pending == [] ==> t.chan.delivered == t.sent[..arrived])
            && R.Run(t, R.Settling(|R.Undecrypted(t.chan)|)).chan.delivered == t.sent[..arrived]
  {
    AcceptedKeys(i, ephI, r, message, ephR);
    var mine := InitiatorKeys(i, ephI, H.Respond(r, message, ephR).value.response);
    var kept := R.HandedOver(opening).kept;
    R.HandOverReplaysAll(opening, mine.receive);
    KeptAreEarly(H.Respond(r, message, ephR).value.response, kept, R.SealAll(mine.receive, parts).1[..early]);
    DirectionLosesNothing(mine.receive, parts, early, events);
  }

  lemma KeptAreEarly(response: Bytes, kept: seq<Bytes>, early: seq<Bytes>)
    requires [R.Data(response)] + R.AsFrames(kept) == [R.Data(response)] + R.AsFrames(early)
    ensures kept == early
  {
    var a, b := [R.Data(response)] + R.AsFrames(kept), [R.Data(response)] + R.AsFrames(early);
    assert |a| == |b|;
    forall k | 0 <= k < |kept| ensures kept[k] == early[k] {
      assert a[k + 1] == R.Data(kept[k]) && b[k + 1] == R.Data(early[k]);
    }
  }

  lemma {:induction false} ArrivedGrows(s: R.System, arrived: nat, events: seq<R.Event>)
    ensures arrived <= R.ArrivedAfterAll(s, arrived, events)
    decreases events
  {
    if events != [] {
      ArrivedGrows(R.Step(s, events[0]), R.ArrivedAfter(s, arrived, events[0]), events[1..]);
    }
  }

  lemma BoxesFit(send: Cipher, parts: seq<Bytes>, k: nat)
    requires send.key.Some? && k < |R.SealAll(send, parts).1|
    requires forall j :: 0 <= j < |parts| ==> |parts[j]| <= MAX_PLAINTEXT_FRAME
    ensures |R.SealAll(send, parts).1[k]| <= MAX_NOISE_MESSAGE
  {
    R.SealAllAt(send, parts, k);
  }

  lemma DirectionLosesNothing(send: Cipher, parts: seq<Bytes>, early: nat, events: seq<R.Event>)
    requires send.key.Some? && send.nonce == 0 && early <= |R.SealAll(send, parts).1|
    requires forall k :: 0 <= k < |parts| ==> |parts[k]| <= MAX_PLAINTEXT_FRAME
    requires R.InOrderRun(Direction(send, parts, send, R.SealAll(send, parts).1[..early]), early, events)
    ensures var s := Direction(send, parts, send, R.SealAll(send, parts).1[..early]);
            var t := R.Run(s, events);
            var arrived := R.ArrivedAfterAll(s, early, events);
            && !t.chan.failed && !t.chan.rejected && early <= arrived <= |t.sent|
            && (R.Undecrypted(t.chan) == [] && t.chan.pending == [] ==> t.chan.delivered == t.sent[..arrived])
            && R.Run(t, R.Settling(|R.Undecrypted(t.chan)|)).chan.delivered == t.sent[..arrived]
  {
    var kept := R.SealAll(send, parts).1[..early];
    var s := Direction(send, parts, send, kept);
    DirectionSends(send, parts, kept);
    R.SealAllCounts(send, parts);
    forall k | 0 <= k < |s.wire| ensures |s.wire[k]| <= MAX_NOISE_MESSAGE {
      BoxesFit(send, parts, k);
    }
    forall k | 0 <= k < |kept| ensures R.Unforged(R.Data(kept[k]), s.send.key.value, s.wire) {
      assert kept[k] == s.wire[k];
    }
    R.LosslessDelivery(s, kept, events);
    ArrivedGrows(s, early, events);
  }
}
