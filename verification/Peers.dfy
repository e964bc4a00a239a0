/** The handshake objects of noise.js, changing their state in place. */
module Peers {
  import opened Prelude
  import opened SymbolicCrypto
  import opened Ciphers
  import H = Handshake

  class NoiseIKInitiator {
    const config: H.Initiator
    var state: SymmetricState?
    var eph: nat

    constructor (config: H.Initiator)
      ensures this.config == config && state == null
    {
      this.config := config;
      state := null;
      eph := 0;
    }

    /** The checks of the source's constructor, with the binding secret defaulting to empty. */
    static method Create(sessionId: seq<Octet>, podUid: seq<Octet>, channel: seq<Octet>,
                         podPublic: Bytes, clientSecret: nat, clientPublic: Bytes, binding: Option<Bytes>)
      returns (r: Result<NoiseIKInitiator, NoiseError>)
      ensures r.Ok? ==> fresh(r.value) && r.value.state == null && H.WellFormed(r.value.config)
      ensures r.Ok? ==>
                var prologue := H.NoisePrologue(sessionId, podUid, channel);
                && prologue.Ok?
                && r.value.config == H.Initiator(prologue.value, podPublic, clientSecret, clientPublic,
                                                 if binding.None? then [] else binding.value)
      ensures r.Ok? <==> && H.NoisePrologue(sessionId, podUid, channel).Ok? && |podPublic| == 32 && |clientPublic| == 32
                         && (binding.None? || |binding.value| == 0 || |binding.value| == 32)
    {
      var prologue := H.NoisePrologue(sessionId, podUid, channel);
      if prologue.Err? || |podPublic| != 32 || |clientPublic| != 32 {
        return Err(InvalidArgument);
      }
      var secret := if binding.None? then [] else binding.value;
      if |secret| != 0 && |secret| != 32 {
        return Err(InvalidArgument);
      }
      var peer := new NoiseIKInitiator(H.Initiator(prologue.value, podPublic, clientSecret, clientPublic, secret));
      r := Ok(peer);
    }

    method Start(ephemeral: nat) returns (r: Result<Bytes, NoiseError>)
      requires H.WellFormed(config)
      modifies this
      ensures r == H.Start(config, ephemeral).1 && r.Ok?
      ensures state != null && fresh(state) && fresh(state.cs)
      ensures state.View() == H.Start(config, ephemeral).0 && eph == ephemeral
    {
      H.StartShape(config, ephemeral);
      var s := new SymmetricState();
      s.MixHashWith(config.prologue);
      s.MixHashWith(config.podPublic);
      s.MixHashWith(PublicOf(ephemeral));
      s.MixKeyWith(Dh(ephemeral, config.podPublic));
      var sealedKey := s.Write(config.clientPublic);
      s.MixKeyWith(Dh(config.clientSecret, config.podPublic));
      state := s;
      eph := ephemeral;
      var payload := s.Write(config.binding);
      r := Ok(PublicOf(ephemeral) + sealedKey.value + payload.value);
    }

    /** A reply of the wrong shape, or a second call, is refused and changes nothing. */
    method Finish(response: Bytes) returns (r: Result<Keys, NoiseError>)
      modifies this, state, if state == null then {} else {state.cs}
      ensures old(state) == null || |response| != 48 ==> r == Err(InvalidResponse) && state == old(state)
      ensures old(state) != null ==>
                var (transcript, keys) := H.Finish(old(state.View()), old(eph), config.clientSecret, response);
                && r.Ok? == keys.Ok?
                && (r.Ok? ==> && state == null && fresh(r.value.send) && fresh(r.value.receive)
                              && H.Keys(r.value.send.View(), r.value.receive.View()) == keys.value)
                && (r.Err? ==> state == old(state) && state.View() == transcript)
    {
      if state == null || |response| != 48 {
        return Err(InvalidResponse);
      }
      var s := state;
      var remote := response[..32];
      s.MixHashWith(remote);
      s.MixKeyWith(Dh(eph, remote));
      s.MixKeyWith(Dh(config.clientSecret, remote));
      var payload := s.Read(response[32..]);
      if payload.Err? {
        return Err(payload.error);
      }
      if payload.value != [] {
        return Err(UnexpectedPayload);
      }
      var send, receive := s.SplitKeys();
      state := null;
      r := Ok(Keys(send, receive));
    }
  }

  datatype Keys = Keys(send: CipherState, receive: CipherState)

  /** The reference responder, which builds its transcript afresh for every message. */
  method Respond(config: H.Responder, message: Bytes, ephemeral: nat)
    returns (r: Result<(Bytes, Keys), NoiseError>)
    ensures r.Ok? == H.Respond(config, message, ephemeral).Ok?
    ensures r.Err? ==> r.error == H.Respond(config, message, ephemeral).error
    ensures r.Ok? ==>
              var reply := H.Respond(config, message, ephemeral).value;
              && r.value.0 == reply.response && fresh(r.value.1.send) && fresh(r.value.1.receive)
              && H.Keys(r.value.1.send.View(), r.value.1.receive.View()) == reply.keys
  {
    if |message| != 96 && |message| != 128 {
      return Err(InvalidInitiatorMessage);
    }
    var s := new SymmetricState();
    s.MixHashWith(config.prologue);
    s.MixHashWith(config.podPublic);
    var remote := message[..32];
    s.MixHashWith(remote);
    s.MixKeyWith(Dh(config.podSecret, remote));
    var clientKey := s.Read(message[32..80]);
    if clientKey.Err? {
      return Err(clientKey.error);
    }
    if clientKey.value != config.expectedClient {
      return Err(UnboundClientKey);
    }
    s.MixKeyWith(Dh(config.podSecret, clientKey.value));
    var payload := s.Read(message[80..]);
    if payload.Err? {
      return Err(payload.error);
    }
    if payload.value != config.expectedBinding {
      return Err(UnexpectedPayload);
    }
    s.MixHashWith(PublicOf(ephemeral));
    s.MixKeyWith(Dh(ephemeral, remote));
    s.MixKeyWith(Dh(ephemeral, clientKey.value));
    var tag := s.Write([]);
    if tag.Err? {
      return Err(tag.error);
    }
    var receive, send := s.SplitKeys();
    r := Ok((PublicOf(ephemeral) + tag.value, Keys(send, receive)));
  }
}
