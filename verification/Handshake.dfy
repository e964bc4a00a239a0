/**
 Both sides of the Noise IK handshake of noise.js.

 `AcceptIffMatching` decides, for every pair of configurations, whether the
 responder takes the initiator's message; `Agreement` gives the shared keys when
 it does; `ResponseBinding` is the initiator's own guarantee.
 */
module Handshake {
  import opened Prelude
  import opened SymbolicCrypto
  import opened Ciphers

  // -------------------------------------------------------------- prologue

  const RFB: seq<Octet> := Ascii("rfb")
  const CONTROL: seq<Octet> := Ascii("control")

  function PrologueText(sessionId: seq<Octet>, podUid: seq<Octet>, channel: seq<Octet>): seq<Octet> {
    Ascii("popcorn-liveview/v1") + [0] + sessionId + [0] + podUid + [0] + channel
  }

  function NoisePrologue(sessionId: seq<Octet>, podUid: seq<Octet>, channel: seq<Octet>): Result<Bytes, NoiseError> {
    if channel != RFB && channel != CONTROL then Err(InvalidArgument)
    else if sessionId == [] || podUid == [] then Err(InvalidArgument)
    else Ok(Literal(PrologueText(sessionId, podUid, channel)))
  }

  /** An `rfb` prologue is never a `control` prologue, whatever the ids contain. */
  lemma ChannelsNeverShareAPrologue(s1: seq<Octet>, u1: seq<Octet>, s2: seq<Octet>, u2: seq<Octet>)
    ensures PrologueText(s1, u1, RFB) != PrologueText(s2, u2, CONTROL)
  {
    var a, b := PrologueText(s1, u1, RFB), PrologueText(s2, u2, CONTROL);
    assert a[|a| - 1] == RFB[2] == 98;
    assert b[|b| - 1] == CONTROL[6] == 108;
  }

  lemma SplitAtFirstNul(a: seq<Octet>, x: seq<Octet>, b: seq<Octet>, y: seq<Octet>)
    requires a + [0] + x == b + [0] + y
    requires 0 !in a && 0 !in b
    ensures a == b && x == y
  {
    var whole := a + [0] + x;
    assert whole[|a|] == 0 && whole[|b|] == 0;
    assert forall k | 0 <= k < |a| :: whole[k] == a[k];
    assert forall k | 0 <= k < |b| :: whole[k] == b[k];
    assert |a| == |b|;
    assert a == whole[..|a|] && b == whole[..|b|];
    assert x == whole[|a| + 1..] && y == whole[|b| + 1..];
  }

  lemma SplitAtLastNul(a: seq<Octet>, x: seq<Octet>, b: seq<Octet>, y: seq<Octet>)
    requires a + [0] + x == b + [0] + y
    requires 0 !in x && 0 !in y
    ensures a == b && x == y
  {
    var whole := a + [0] + x;
    assert whole[|a|] == 0 && whole[|b|] == 0;
    assert forall k | |a| < k < |whole| :: whole[k] == x[k - |a| - 1];
    assert forall k | |b| < k < |whole| :: whole[k] == y[k - |b| - 1];
    assert |a| == |b|;
    assert a == whole[..|a|] && b == whole[..|b|];
    assert x == whole[|a| + 1..] && y == whole[|b| + 1..];
  }

  lemma NoNulInChannel(c: seq<Octet>)
    requires c == RFB || c == CONTROL
    ensures 0 !in c
  {
  }

  /** Two prologues are one exactly when channels agree and the ids joined by a NUL agree. */
  lemma SamePrologueIff(s1: seq<Octet>, u1: seq<Octet>, c1: seq<Octet>, s2: seq<Octet>, u2: seq<Octet>, c2: seq<Octet>)
    requires (c1 == RFB || c1 == CONTROL) && (c2 == RFB || c2 == CONTROL)
    ensures PrologueText(s1, u1, c1) == PrologueText(s2, u2, c2) <==> c1 == c2 && s1 + [0] + u1 == s2 + [0] + u2
  {
    var head := Ascii("popcorn-liveview/v1") + [0];
    NoNulInChannel(c1);
    NoNulInChannel(c2);
    var a, b := head + (s1 + [0] + u1), head + (s2 + [0] + u2);
    assert PrologueText(s1, u1, c1) == a + [0] + c1;
    assert PrologueText(s2, u2, c2) == b + [0] + c2;
    if PrologueText(s1, u1, c1) == PrologueText(s2, u2, c2) {
      SplitAtLastNul(a, c1, b, c2);
      assert a[|head|..] == s1 + [0] + u1;
      assert b[|head|..] == s2 + [0] + u2;
    }
  }

  /** It is enough that the session ids, or the pod uids, carry no NUL. */
  lemma PrologueInjective(s1: seq<Octet>, u1: seq<Octet>, c1: seq<Octet>, s2: seq<Octet>, u2: seq<Octet>,
                          c2: seq<Octet>)
    requires (c1 == RFB || c1 == CONTROL) && (c2 == RFB || c2 == CONTROL)
    requires (0 !in s1 && 0 !in s2) || (0 !in u1 && 0 !in u2)
    requires PrologueText(s1, u1, c1) == PrologueText(s2, u2, c2)
    ensures s1 == s2 && u1 == u2 && c1 == c2
  {
    SamePrologueIff(s1, u1, c1, s2, u2, c2);
    if 0 !in s1 && 0 !in s2 {
      SplitAtFirstNul(s1, u1, s2, u2);
    } else {
      SplitAtLastNul(s1, u1, s2, u2);
    }
  }

  /** The session id has no NUL after its first octet and the pod uid none before its last. */
  predicate SplitsOneWay(sessionId: seq<Octet>, podUid: seq<Octet>) {
    && (forall p :: 0 < p < |sessionId| ==> sessionId[p] != 0)
    && (forall q :: 0 <= q < |podUid| - 1 ==> podUid[q] != 0)
  }

  /** Another split of the joined ids into two non-empty ones would put a NUL where there is none. */
  lemma OneSplit(s: seq<Octet>, u: seq<Octet>, s2: seq<Octet>, u2: seq<Octet>)
    requires s != [] && u != [] && s2 != [] && u2 != [] && s + [0] + u == s2 + [0] + u2
    requires SplitsOneWay(s, u)
    ensures s == s2 && u == u2
  {
    var whole := s + [0] + u;
    forall k | 0 < k < |whole| - 1 && k != |s| ensures whole[k] != 0 {
      assert whole[k] == if k < |s| then s[k] else u[k - |s| - 1];
    }
    assert whole[|s2|] == 0;
    assert s == whole[..|s|] && s2 == whole[..|s2|];
    assert u == whole[|s| + 1..] && u2 == whole[|s2| + 1..];
  }

  lemma OtherSplit(s: seq<Octet>, u: seq<Octet>) returns (s2: seq<Octet>, u2: seq<Octet>)
    requires s != [] && u != [] && !SplitsOneWay(s, u)
    ensures s2 != [] && u2 != [] && s2 != s && s2 + [0] + u2 == s + [0] + u
  {
    if p :| 0 < p < |s| && s[p] == 0 {
      s2, u2 := s[..p], s[p + 1..] + [0] + u;
      assert s == s[..p] + [0] + s[p + 1..];
    } else {
      var q :| 0 <= q < |u| - 1 && u[q] == 0;
      s2, u2 := s + [0] + u[..q], u[q + 1..];
      assert u == u[..q] + [0] + u[q + 1..];
    }
  }

  /** No other ids get the prologue of these. */
  ghost predicate PrologueIdentifies(s: seq<Octet>, u: seq<Octet>, c: seq<Octet>) {
    forall s2, u2, c2 :: NoisePrologue(s2, u2, c2) == NoisePrologue(s, u, c) ==> s2 == s && u2 == u && c2 == c
  }

  /**
   An accepted prologue belongs to one pair of ids and one channel if and only if the
   session id has no NUL after its first octet and the pod uid none before its last.
   */
  lemma PrologueIdentifiesIff(s: seq<Octet>, u: seq<Octet>, c: seq<Octet>)
    requires NoisePrologue(s, u, c).Ok?
    ensures PrologueIdentifies(s, u, c) <==> SplitsOneWay(s, u)
  {
    if SplitsOneWay(s, u) {
      forall s2, u2, c2 | NoisePrologue(s2, u2, c2) == NoisePrologue(s, u, c)
        ensures s2 == s && u2 == u && c2 == c
      {
        LiteralInjective(PrologueText(s2, u2, c2), PrologueText(s, u, c));
        SamePrologueIff(s2, u2, c2, s, u, c);
        OneSplit(s, u, s2, u2);
      }
    } else {
      var s2, u2 := OtherSplit(s, u);
      SamePrologueIff(s2, u2, c, s, u, c);
      assert NoisePrologue(s2, u2, c) == NoisePrologue(s, u, c);
    }
  }

  /** Ids without NUL are identified by their prologue, whatever the other side's ids contain. */
  lemma NulFreeIdsIdentify(s1: seq<Octet>, u1: seq<Octet>, c1: seq<Octet>, s2: seq<Octet>, u2: seq<Octet>,
                           c2: seq<Octet>)
    requires 0 !in s1 && 0 !in u1
    requires NoisePrologue(s1, u1, c1).Ok? && NoisePrologue(s1, u1, c1) == NoisePrologue(s2, u2, c2)
    ensures s1 == s2 && u1 == u2 && c1 == c2
  {
    PrologueIdentifiesIff(s1, u1, c1);
  }

  /** With a NUL in both kinds of id the code accepts two different pairs with one prologue. */
  lemma PrologueCollidesOnNulIds()
    ensures var s1, u1, s2, u2 := [97, 0, 98], [99], [97], [98, 0, 99];
            s1 != s2 && NoisePrologue(s1, u1, RFB).Ok? && NoisePrologue(s1, u1, RFB) == NoisePrologue(s2, u2, RFB)
  {
    var s1: seq<Octet>, u1: seq<Octet>, s2: seq<Octet>, u2: seq<Octet> := [97, 0, 98], [99], [97], [98, 0, 99];
    assert s1 + [0] + u1 == s2 + [0] + u2;
    SamePrologueIff(s1, u1, RFB, s2, u2, RFB);
  }

  // ------------------------------------------------------------ configurations

  datatype Initiator = Initiator(prologue: Bytes, podPublic: Bytes, clientSecret: nat, clientPublic: Bytes,
                                 binding: Bytes)

  datatype Responder = Responder(prologue: Bytes, podSecret: nat, podPublic: Bytes, expectedClient: Bytes,
                                 expectedBinding: Bytes)

  /** What the initiator's constructor checks. */
  predicate WellFormed(c: Initiator) {
    |c.podPublic| == KEY_LENGTH && |c.clientPublic| == KEY_LENGTH && (|c.binding| == 0 || |c.binding| == 32)
  }

  /** What the responder's constructor checks; the expected secret's length is not among it. */
  predicate WellFormedResponder(c: Responder) {
    |c.podPublic| == KEY_LENGTH && |c.expectedClient| == KEY_LENGTH
  }

  datatype Keys = Keys(send: Cipher, receive: Cipher)

  datatype Reply = Reply(response: Bytes, keys: Keys, transcript: Symmetric)

  // ----------------------------------------------------------------- messages

  function Opening(prologue: Bytes, podPublic: Bytes, ephemeral: Bytes, shared: Bytes): Symmetric {
    MixKey(MixHash(MixHash(MixHash(InitialSymmetric(), prologue), podPublic), ephemeral), shared)
  }

  function Start(c: Initiator, eph: nat): (Symmetric, Result<Bytes, NoiseError>) {
    var s1 := Opening(c.prologue, c.podPublic, PublicOf(eph), Dh(eph, c.podPublic));
    var (s2, sealedKey) := EncryptAndHash(s1, c.clientPublic);
    if sealedKey.Err? then (s2, sealedKey) else
    var s3 := MixKey(s2, Dh(c.clientSecret, c.podPublic));
    var (s4, payload) := EncryptAndHash(s3, c.binding);
    if payload.Err? then (s4, payload) else
    (s4, Ok(PublicOf(eph) + sealedKey.value + payload.value))
  }

  function ReplyTo(s: Symmetric, eph: nat, remoteEphemeral: Bytes, clientStatic: Bytes): Result<Reply, NoiseError> {
    var s1 := MixKey(MixKey(MixHash(s, PublicOf(eph)), Dh(eph, remoteEphemeral)), Dh(eph, clientStatic));
    var (s2, tag) := EncryptAndHash(s1, []);
    if tag.Err? then Err(tag.error) else
    var (first, second) := Split(s2);
    Ok(Reply(PublicOf(eph) + tag.value, Keys(second, first), s2))
  }

  function Respond(c: Responder, message: Bytes, eph: nat): Result<Reply, NoiseError> {
    if |message| != 96 && |message| != 128 then Err(InvalidInitiatorMessage) else
    var remote := message[..32];
    var s1 := Opening(c.prologue, c.podPublic, remote, Dh(c.podSecret, remote));
    var (s2, sealedKey) := DecryptAndHash(s1, message[32..80]);
    if sealedKey.Err? then Err(sealedKey.error) else
    if sealedKey.value != c.expectedClient then Err(UnboundClientKey) else
    var s3 := MixKey(s2, Dh(c.podSecret, sealedKey.value));
    var (s4, payload) := DecryptAndHash(s3, message[80..]);
    if payload.Err? then Err(payload.error) else
    if payload.value != c.expectedBinding then Err(UnexpectedPayload) else
    ReplyTo(s4, eph, remote, sealedKey.value)
  }

  function Finish(s: Symmetric, eph: nat, clientSecret: nat, response: Bytes): (Symmetric, Result<Keys, NoiseError>) {
    if |response| != 48 then (s, Err(InvalidResponse)) else
    var remote := response[..32];
    var s1 := MixKey(MixKey(MixHash(s, remote), Dh(eph, remote)), Dh(clientSecret, remote));
    var (s2, payload) := DecryptAndHash(s1, response[32..]);
    if payload.Err? then (s2, Err(payload.error)) else
    if payload.value != [] then (s2, Err(UnexpectedPayload)) else
    var (send, receive) := Split(s2);
    (s2, Ok(Keys(send, receive)))
  }

  // ------------------------------------------------------------- stage lemmas

  /** With a fresh key, writing a short field succeeds and appends one tag. */
  lemma FreshWrite(s: Symmetric, input: Bytes, data: Bytes)
    requires |data| <= 32
    ensures var keyed := MixKey(s, input);
            var (next, r) := EncryptAndHash(keyed, data);
            && r.Ok? && |r.value| == |data| + TAG_LENGTH
            && r.value == Seal(keyed.cs.key.value, NonceBytes(0), data, keyed.h)
            && next.h == Sha256(keyed.h + r.value) && next.ck == keyed.ck
            && DecryptAndHash(keyed, r.value) == (next, Ok(data))
  {
    DecryptAndHashInverts(MixKey(s, input), data);
  }

  /** A field opens under a fresh key only if key and hash are the writer's. */
  lemma FreshReadIsGenuine(w: Symmetric, winput: Bytes, data: Bytes, r: Symmetric, rinput: Bytes)
    requires |data| <= 32 && |w.h| == |r.h|
    requires DecryptAndHash(MixKey(r, rinput), EncryptAndHash(MixKey(w, winput), data).1.value).1.Ok?
    ensures w.h == r.h && w.ck == r.ck && winput == rinput
    ensures DecryptAndHash(MixKey(r, rinput), EncryptAndHash(MixKey(w, winput), data).1.value).1 == Ok(data)
  {
    var wk, rk := MixKey(w, winput), MixKey(r, rinput);
    FreshWrite(w, winput, data);
    var box := EncryptAndHash(wk, data).1.value;
    OpenOnlySeal(rk.cs.key.value, NonceBytes(0), box, rk.h);
    var plain := Open(rk.cs.key.value, NonceBytes(0), box, rk.h).value;
    SealInjective(wk.cs.key.value, NonceBytes(0), data, wk.h, rk.cs.key.value, NonceBytes(0), plain, rk.h);
    Hkdf2Injective(w.ck, winput, r.ck, rinput);
  }

  /** The opening hash determines the prologue, the pod key and the ephemeral. */
  lemma OpeningInjective(p1: Bytes, k1: Bytes, e1: Bytes, p2: Bytes, k2: Bytes, e2: Bytes)
    requires |k1| == |k2|
    requires Sha256(Sha256(Sha256(InitialSymmetric().h + p1) + k1) + e1) ==
             Sha256(Sha256(Sha256(InitialSymmetric().h + p2) + k2) + e2)
    ensures p1 == p2 && k1 == k2 && e1 == e2
  {
    var h0 := InitialSymmetric().h;
    ShaJoinInjective(Sha256(Sha256(h0 + p1) + k1), e1, Sha256(Sha256(h0 + p2) + k2), e2);
    ShaJoinInjective(Sha256(h0 + p1), k1, Sha256(h0 + p2), k2);
    ShaJoinInjective(h0, p1, h0, p2);
  }

  /** The shape of a well-formed initiator's message. */
  lemma StartShape(c: Initiator, eph: nat)
    requires WellFormed(c)
    ensures var s0 := MixHash(MixHash(MixHash(InitialSymmetric(), c.prologue), c.podPublic), PublicOf(eph));
            var s1 := MixKey(s0, Dh(eph, c.podPublic));
            var (s2, sealedKey) := EncryptAndHash(s1, c.clientPublic);
            var s3 := MixKey(s2, Dh(c.clientSecret, c.podPublic));
            var (s4, payload) := EncryptAndHash(s3, c.binding);
            && sealedKey.Ok? && payload.Ok?
            && Start(c, eph) == (s4, Ok(PublicOf(eph) + sealedKey.value + payload.value))
            && |Start(c, eph).1.value| == 96 + |c.binding|
            && Start(c, eph).1.value[..32] == PublicOf(eph)
            && Start(c, eph).1.value[32..80] == sealedKey.value
            && Start(c, eph).1.value[80..] == payload.value
  {
    var s0 := MixHash(MixHash(MixHash(InitialSymmetric(), c.prologue), c.podPublic), PublicOf(eph));
    var s1 := MixKey(s0, Dh(eph, c.podPublic));
    FreshWrite(s0, Dh(eph, c.podPublic), c.clientPublic);
    var (s2, sealedKey) := EncryptAndHash(s1, c.clientPublic);
    FreshWrite(s2, Dh(c.clientSecret, c.podPublic), c.binding);
    var message := Start(c, eph).1.value;
    assert message[..32] == PublicOf(eph);
    assert message[32..80] == sealedKey.value;
  }

  // ------------------------------------------------------------------ theorems

  /** Everything the two configurations have to share for the handshake to succeed. */
  predicate Matching(i: Initiator, r: Responder) {
    && i.prologue == r.prologue
    && i.podPublic == r.podPublic == PublicOf(r.podSecret)
    && i.clientPublic == r.expectedClient == PublicOf(i.clientSecret)
    && i.binding == r.expectedBinding
  }

  lemma MatchingAccepted(i: Initiator, ephI: nat, r: Responder, ephR: nat)
    requires WellFormed(i) && Matching(i, r)
    ensures var (s, message) := Start(i, ephI);
            message.Ok? && Respond(r, message.value, ephR) == ReplyTo(s, ephR, PublicOf(ephI), i.clientPublic)
  {
    StartShape(i, ephI);
    DhSymmetric(ephI, r.podSecret);
    DhSymmetric(i.clientSecret, r.podSecret);
    var s0 := MixHash(MixHash(MixHash(InitialSymmetric(), i.prologue), i.podPublic), PublicOf(ephI));
    FreshWrite(s0, Dh(ephI, i.podPublic), i.clientPublic);
    var s2 := EncryptAndHash(MixKey(s0, Dh(ephI, i.podPublic)), i.clientPublic).0;
    FreshWrite(s2, Dh(i.clientSecret, i.podPublic), i.binding);
  }

  lemma AcceptedMatches(i: Initiator, ephI: nat, r: Responder, ephR: nat)
    requires WellFormed(i) && WellFormedResponder(r)
    requires Start(i, ephI).1.Ok? && Respond(r, Start(i, ephI).1.value, ephR).Ok?
    ensures Matching(i, r)
  {
    StartShape(i, ephI);
    var e := PublicOf(ephI);
    var w0 := MixHash(MixHash(MixHash(InitialSymmetric(), i.prologue), i.podPublic), e);
    var r0 := MixHash(MixHash(MixHash(InitialSymmetric(), r.prologue), r.podPublic), e);
    FreshReadIsGenuine(w0, Dh(ephI, i.podPublic), i.clientPublic, r0, Dh(r.podSecret, e));
    OpeningInjective(i.prologue, i.podPublic, e, r.prologue, r.podPublic, e);
    DhAgreesOnlyWithOwner(ephI, i.podPublic, r.podSecret);
    var w2 := EncryptAndHash(MixKey(w0, Dh(ephI, i.podPublic)), i.clientPublic).0;
    FreshWrite(w0, Dh(ephI, i.podPublic), i.clientPublic);
    FreshReadIsGenuine(w2, Dh(i.clientSecret, i.podPublic), i.binding, w2, Dh(r.podSecret, i.clientPublic));
    DhAgreesOnlyWithOwner(r.podSecret, i.clientPublic, i.clientSecret);
  }

  /**
   The responder accepts an honest initiator's message if and only if both were
   configured with one prologue, one pod key pair, one client key pair and one
   binding payload.
   */
  lemma AcceptIffMatching(i: Initiator, ephI: nat, r: Responder, ephR: nat)
    requires WellFormed(i) && WellFormedResponder(r)
    ensures Start(i, ephI).1.Ok? && |Start(i, ephI).1.value| == 96 + |i.binding|
    ensures Respond(r, Start(i, ephI).1.value, ephR).Ok? <==> Matching(i, r)
  {
    StartShape(i, ephI);
    var (s, message) := Start(i, ephI);
    if Matching(i, r) {
      MatchingAccepted(i, ephI, r, ephR);
      FreshWrite(MixKey(MixHash(s, PublicOf(ephR)), Dh(ephR, PublicOf(ephI))), Dh(ephR, i.clientPublic), []);
    }
    if Respond(r, message.value, ephR).Ok? {
      AcceptedMatches(i, ephI, r, ephR);
    }
  }

  /** Matching peers finish with one transcript and crossed keys at nonce zero. */
  lemma Agreement(i: Initiator, ephI: nat, r: Responder, ephR: nat)
    requires WellFormed(i) && Matching(i, r)
    ensures var (s, message) := Start(i, ephI);
            && message.Ok? && |message.value| == 96 + |i.binding|
            && var reply := Respond(r, message.value, ephR);
               && reply.Ok? && |reply.value.response| == 48
               && var (transcript, keys) := Finish(s, ephI, i.clientSecret, reply.value.response);
                  && keys.Ok?
                  && transcript == reply.value.transcript
                  && keys.value.send == reply.value.keys.receive
                  && keys.value.receive == reply.value.keys.send
                  && keys.value.send.nonce == keys.value.receive.nonce == 0
                  && keys.value.send.key.Some? && keys.value.receive.key.Some?
  {
    StartShape(i, ephI);
    MatchingAccepted(i, ephI, r, ephR);
    var (s, message) := Start(i, ephI);
    DhSymmetric(ephR, ephI);
    DhSymmetric(ephR, i.clientSecret);
    var mixed := MixKey(MixHash(s, PublicOf(ephR)), Dh(ephR, PublicOf(ephI)));
    FreshWrite(mixed, Dh(ephR, i.clientPublic), []);
    var tag := EncryptAndHash(MixKey(mixed, Dh(ephR, i.clientPublic)), []).1.value;
    var response := PublicOf(ephR) + tag;
    assert response[..32] == PublicOf(ephR) && response[32..] == tag;
  }

  /** What a successful `Respond` computed before it replied. */
  lemma RespondShape(r: Responder, message: Bytes, ephR: nat)
    requires Respond(r, message, ephR).Ok?
    ensures |message| == 96 || |message| == 128
    ensures var remote := message[..32];
            var s1 := Opening(r.prologue, r.podPublic, remote, Dh(r.podSecret, remote));
            var (s2, sealedKey) := DecryptAndHash(s1, message[32..80]);
            var s3 := MixKey(s2, Dh(r.podSecret, r.expectedClient));
            var (s4, payload) := DecryptAndHash(s3, message[80..]);
            && sealedKey == Ok(r.expectedClient) && payload == Ok(r.expectedBinding)
            && s4.h == Sha256(Sha256(s1.h + message[32..80]) + message[80..])
            && Respond(r, message, ephR) == ReplyTo(s4, ephR, remote, r.expectedClient)
  {
  }

  /**
   If the initiator accepts a reply the responder produced for ANY message, that
   message was the initiator's own and the two sides hold crossed keys.
   */
  lemma ResponseBinding(i: Initiator, ephI: nat, r: Responder, message: Bytes, ephR: nat)
    requires WellFormed(i) && WellFormedResponder(r)
    requires Respond(r, message, ephR).Ok?
    requires Finish(Start(i, ephI).0, ephI, i.clientSecret, Respond(r, message, ephR).value.response).1.Ok?
    ensures Start(i, ephI).1 == Ok(message) && Matching(i, r)
    ensures var reply := Respond(r, message, ephR).value;
            var keys := Finish(Start(i, ephI).0, ephI, i.clientSecret, reply.response).1.value;
            keys.send == reply.keys.receive && keys.receive == reply.keys.send
  {
    StartShape(i, ephI);
    RespondShape(r, message, ephR);
    var (s, own) := Start(i, ephI);
    var remote := message[..32];
    var r1 := Opening(r.prologue, r.podPublic, remote, Dh(r.podSecret, remote));
    var r2 := DecryptAndHash(r1, message[32..80]).0;
    var r4 := DecryptAndHash(MixKey(r2, Dh(r.podSecret, r.expectedClient)), message[80..]).0;
    var e := PublicOf(ephR);
    var rm := MixKey(MixHash(r4, e), Dh(ephR, remote));
    var im := MixKey(MixHash(s, e), Dh(ephI, e));
    FreshWrite(rm, Dh(ephR, r.expectedClient), []);
    var tag := EncryptAndHash(MixKey(rm, Dh(ephR, r.expectedClient)), []).1.value;
    assert (e + tag)[..32] == e && (e + tag)[32..] == tag;
    FreshReadIsGenuine(rm, Dh(ephR, r.expectedClient), [], im, Dh(i.clientSecret, e));
    ShaJoinInjective(r4.h, e, s.h, e);
    var i1 := Opening(i.prologue, i.podPublic, PublicOf(ephI), Dh(ephI, i.podPublic));
    var sealedKey := own.value[32..80];
    assert s.h == Sha256(Sha256(i1.h + sealedKey) + own.value[80..]);
    ShaJoinInjective(Sha256(r1.h + message[32..80]), message[80..], Sha256(i1.h + sealedKey), own.value[80..]);
    ShaJoinInjective(r1.h, message[32..80], i1.h, sealedKey);
    OpeningInjective(r.prologue, r.podPublic, remote, i.prologue, i.podPublic, PublicOf(ephI));
    assert message == message[..32] + message[32..80] + message[80..];
    assert own.value == own.value[..32] + own.value[32..80] + own.value[80..];
    AcceptedMatches(i, ephI, r, ephR);
    Agreement(i, ephI, r, ephR);
  }

  /** An initiator opening one channel is refused by a responder serving the other. */
  lemma CrossChannelRefused(s1: seq<Octet>, u1: seq<Octet>, s2: seq<Octet>, u2: seq<Octet>, i: Initiator, ephI: nat,
                            r: Responder, ephR: nat)
    requires WellFormed(i) && WellFormedResponder(r)
    requires NoisePrologue(s1, u1, RFB) == Ok(i.prologue) && NoisePrologue(s2, u2, CONTROL) == Ok(r.prologue)
    ensures Start(i, ephI).1.Ok? && Respond(r, Start(i, ephI).1.value, ephR).Err?
  {
    AcceptIffMatching(i, ephI, r, ephR);
    ChannelsNeverShareAPrologue(s1, u1, s2, u2);
    if i.prologue == r.prologue {
      LiteralInjective(PrologueText(s1, u1, RFB), PrologueText(s2, u2, CONTROL));
    }
  }
}
