/** The NoiseChannel object, its fields changed in place by sends, arrivals and microtasks. */
module NoiseChannels {
  import opened Prelude
  import opened SymbolicCrypto
  import opened Ciphers
  import R = RecordLayer

  class NoiseChannel {
    const send: CipherState
    const receive: CipherState
    var readyState: R.ReadyState
    var handler: bool
    var failed: bool
    var pendingPlaintexts: seq<Bytes>
    var drainScheduled: bool
    var receiveChain: seq<R.Frame>
    var converting: Option<R.Frame>
    var rejected: bool
    ghost var delivered: seq<Bytes>
    ghost var outgoing: seq<Bytes>

    ghost function View(): R.Channel
      reads this, receive
    {
      R.Channel(receive.View(), readyState, handler, failed, pendingPlaintexts, drainScheduled, receiveChain,
        converting, rejected, delivered)
    }

    /** Replays the records that arrived during the handshake before any later one. */
    constructor (send: CipherState, receive: CipherState, pendingCiphertexts: seq<Bytes>)
      requires send != receive
      ensures this.send == send && this.receive == receive && outgoing == []
      ensures View() == R.NewChannel(receive.View(), pendingCiphertexts)
    {
      this.send := send;
      this.receive := receive;
      readyState, handler, failed := R.IsOpen, false, false;
      pendingPlaintexts, drainScheduled := [], false;
      receiveChain, converting, rejected := [], None, false;
      delivered, outgoing := [], [];
      new;
      for i := 0 to |pendingCiphertexts|
        invariant View() == R.NewChannel(receive.View(), pendingCiphertexts[..i]) && outgoing == []
      {
        HandleCiphertext(R.Data(pendingCiphertexts[i]));
        assert receiveChain == R.NewChannel(receive.View(), pendingCiphertexts[..i + 1]).queue;
      }
      assert pendingCiphertexts[..|pendingCiphertexts|] == pendingCiphertexts;
    }

    /** Seals the input slice by slice; an exhausted nonce stops after the slices already sent. */
    method Send(input: Bytes) returns (r: Result<(), NoiseError>)
      requires send.key.Some? && send != receive
      modifies this`outgoing, send
      ensures readyState != R.IsOpen ==>
              r == Err(ChannelNotOpen) && outgoing == old(outgoing) && send.View() == old(send.View())
      ensures readyState == R.IsOpen ==>
                && send.View() == R.SealAll(old(send.View()), R.Fragments(input)).0
                && outgoing == old(outgoing) + R.SealAll(old(send.View()), R.Fragments(input)).1
                && (r.Ok? <==> |R.SealAll(old(send.View()), R.Fragments(input)).1| == |R.Fragments(input)|)
    {
      if readyState != R.IsOpen {
        return Err(ChannelNotOpen);
      }
      ghost var total := R.SealAll(send.View(), R.Fragments(input));
      ghost var rest := R.Fragments(input);
      ghost var boxes := [];
      var at := 0;
      assert input[0..] == input;
      while at < |input| || (|input| == 0 && at == 0)
        invariant 0 <= at && send.key.Some?
        invariant at == 0 || at < |input| ==> rest == R.Fragments(input[at..])
        invariant at != 0 && at >= |input| ==> rest == []
        invariant outgoing == old(outgoing) + boxes
        invariant total.0 == R.SealAll(send.View(), rest).0
        invariant total.1 == boxes + R.SealAll(send.View(), rest).1
        invariant |R.Fragments(input)| == |boxes| + |rest|
        decreases |input| - at
      {
        var part := if at + MAX_PLAINTEXT_FRAME < |input| then input[at..at + MAX_PLAINTEXT_FRAME] else input[at..];
        assert rest[0] == part;
        R.SealAllCounts(send.View(), rest);
        var sealedPart := send.EncryptWithAd(part, []);
        if sealedPart.Err? {
          return Err(sealedPart.error);
        }
        outgoing := outgoing + [sealedPart.value];
        R.ConcatAssociative(boxes, [sealedPart.value], R.SealAll(send.View(), rest[1..]).1);
        boxes := boxes + [sealedPart.value];
        rest := rest[1..];
        if at + MAX_PLAINTEXT_FRAME < |input| {
          assert input[at..][MAX_PLAINTEXT_FRAME..] == input[at + MAX_PLAINTEXT_FRAME..];
        }
        if |input| == 0 {
          break;
        }
        at := at + MAX_PLAINTEXT_FRAME;
      }
      r := Ok(());
    }

    method HandleCiphertext(frame: R.Frame)
      modifies this`receiveChain
      ensures View() == R.HandleCiphertext(old(View()), frame)
    {
      if failed {
        return;
      }
      receiveChain := receiveChain + [frame];
    }

    method BeginLink()
      modifies this`receiveChain, this`converting
      ensures View() == R.BeginLink(old(View()))
    {
      if rejected || converting.Some? || receiveChain == [] {
        return;
      }
      var frame := receiveChain[0];
      receiveChain := receiveChain[1..];
      if !failed {
        converting := Some(frame);
      }
    }

    method EndLink()
      modifies this`converting, this`rejected, this`pendingPlaintexts, this`drainScheduled, receive
      ensures View() == R.EndLink(old(View()))
    {
      if converting.None? {
        return;
      }
      var frame := converting.value;
      converting := None;
      if frame.NotBytes? {
        rejected := true;
        return;
      }
      var plain := receive.DecryptWithAd(frame.bytes, []);
      if plain.Err? {
        rejected := true;
        return;
      }
      if failed {
        return;
      }
      pendingPlaintexts := pendingPlaintexts + [plain.value];
      ScheduleDrain();
    }

    method ScheduleDrain()
      modifies this`drainScheduled
      ensures View() == R.ScheduleDrain(old(View()))
    {
      if failed || drainScheduled || !handler || pendingPlaintexts == [] {
        return;
      }
      drainScheduled := true;
    }

    method SetOnMessage(installed: bool)
      modifies this`handler, this`drainScheduled
      ensures View() == R.SetHandler(old(View()), installed)
    {
      handler := installed;
      ScheduleDrain();
    }

    /** The drain microtask, for any behaviour of the handler it calls. */
    method Drain(effects: seq<R.Effect>)
      modifies this`drainScheduled, this`pendingPlaintexts, this`handler, this`delivered
      ensures View() == R.Drain(old(View()), effects)
    {
      if !drainScheduled {
        return;
      }
      drainScheduled := false;
      if failed {
        pendingPlaintexts := [];
        return;
      }
      ghost var goal := R.DrainLoop(View(), effects);
      var calls := effects;
      while !failed && handler && pendingPlaintexts != []
        invariant R.DrainLoop(View(), calls) == goal
        decreases |pendingPlaintexts|
      {
        var effect := if calls == [] then R.Keep else calls[0];
        calls := if calls == [] then [] else calls[1..];
        delivered := delivered + [pendingPlaintexts[0]];
        pendingPlaintexts := pendingPlaintexts[1..];
        match effect
        case Keep =>
        case Uninstall => SetOnMessage(false);
        case Reinstall => SetOnMessage(true);
        case Throw => return;
      }
    }

    method Close()
      modifies this`readyState
      ensures View() == R.CloseChannel(old(View()))
    {
      if readyState == R.IsOpen {
        readyState := R.IsClosing;
      }
    }

    method ObserveRejection()
      modifies this`failed, this`pendingPlaintexts, this`readyState
      ensures View() == R.ObserveRejection(old(View()))
    {
      if !rejected || failed {
        return;
      }
      failed := true;
      pendingPlaintexts := [];
      Close();
    }
  }
}
