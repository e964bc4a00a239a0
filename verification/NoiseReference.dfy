/**
 The handshake written out a second time, as section 5 of the Noise Protocol Framework
 and RFC 5869 have it, over HMAC, SHA-256, Diffie-Hellman and the AEAD alone; and the
 messages and keys of `Handshake` shown to be exactly these.
 */
module NoiseReference {
  import opened Prelude
  import opened SymbolicCrypto
  import opened Ciphers
  import H = Handshake

  const NAME := Ascii("Noise_IK_25519_ChaChaPoly_SHA256")

  const ZERO_NONCE: seq<Octet> := [0, 0, 0, 0, 0, 0, 0, 0, 0, 0, 0, 0]

  /** HKDF-Expand with empty info: T(0) is empty and T(i) = HMAC(prk, T(i - 1) | i). */
  function HkdfBlock(prk: Bytes, i: nat): Bytes
    requires i < 256
  {
    if i == 0 then [] else HmacSha256(prk, HkdfBlock(prk, i - 1) + [Lit(i)])
  }

  function Last<T>(s: seq<T>): T
    requires s != []
  {
    s[|s| - 1]
  }

  /** The chaining key once these agreements have been mixed: the first block of each extraction. */
  function ChainingKey(agreements: seq<Bytes>): Bytes {
    if agreements == [] then Literal(NAME)
    else HkdfBlock(HmacSha256(ChainingKey(agreements[..|agreements| - 1]), Last(agreements)), 1)
  }

  /** The key under which a field after these agreements is sealed: the second block. */
  function FieldKey(agreements: seq<Bytes>): Bytes
    requires agreements != []
  {
    HkdfBlock(HmacSha256(ChainingKey(agreements[..|agreements| - 1]), Last(agreements)), 2)
  }

  /** The handshake hash over everything said so far. */
  function Transcript(said: seq<Bytes>): Bytes {
    if said == [] then Literal(NAME) else Sha256(Transcript(said[..|said| - 1]) + Last(said))
  }

  /** A field: sealed at nonce zero with the transcript as associated data. */
  function Field(agreements: seq<Bytes>, plain: Bytes, said: seq<Bytes>): Bytes
    requires agreements != []
  {
    Seal(FieldKey(agreements), ZERO_NONCE, plain, Transcript(said))
  }

  /** Block `i` of the extraction from the last chaining key and no input. */
  function TransportKey(agreements: seq<Bytes>, i: nat): Bytes
    requires i < 256
  {
    HkdfBlock(HmacSha256(ChainingKey(agreements), []), i)
  }

  lemma TwoBlocks(prk: Bytes)
    ensures HkdfBlock(prk, 1) == HmacSha256(prk, [Lit(1)])
    ensures HkdfBlock(prk, 2) == HmacSha256(prk, HkdfBlock(prk, 1) + [Lit(2)])
  {
    assert HkdfBlock(prk, 0) + [Lit(1)] == [Lit(1)];
  }

  /** Mixing a key takes the first block for the chain and the second for the cipher. */
  lemma MixKeyIsHkdf(s: Symmetric, input: Bytes)
    ensures var prk := HmacSha256(s.ck, input);
            MixKey(s, input) == Symmetric(s.h, HkdfBlock(prk, 1), Cipher(Some(HkdfBlock(prk, 2)), 0))
  {
    TwoBlocks(HmacSha256(s.ck, input));
  }

  lemma SplitIsHkdf(s: Symmetric)
    ensures var prk := HmacSha256(s.ck, []);
            Split(s) == (Cipher(Some(HkdfBlock(prk, 1)), 0), Cipher(Some(HkdfBlock(prk, 2)), 0))
  {
    TwoBlocks(HmacSha256(s.ck, []));
  }

  /** A symmetric state that has mixed these agreements and said these things. */
  ghost predicate Reached(s: Symmetric, agreements: seq<Bytes>, said: seq<Bytes>) {
    s.ck == ChainingKey(agreements) && s.h == Transcript(said)
  }

  lemma SayReaches(s: Symmetric, agreements: seq<Bytes>, said: seq<Bytes>, data: Bytes)
    requires Reached(s, agreements, said)
    ensures Reached(MixHash(s, data), agreements, said + [data])
  {
    assert (said + [data])[..|said|] == said;
  }

  lemma AgreeReaches(s: Symmetric, agreements: seq<Bytes>, said: seq<Bytes>, shared: Bytes)
    requires Reached(s, agreements, said)
    ensures Reached(MixKey(s, shared), agreements + [shared], said)
    ensures MixKey(s, shared).cs == Cipher(Some(FieldKey(agreements + [shared])), 0)
  {
    assert (agreements + [shared])[..|agreements|] == agreements;
    MixKeyIsHkdf(s, shared);
  }

  lemma NonceZero()
    ensures NonceBytes(0) == ZERO_NONCE
  {
    assert LittleEndian(0, 4) == [0] + LittleEndian(0, 3) == [0, 0] + LittleEndian(0, 2) == [0, 0, 0, 0];
    assert LittleEndian(0, 6) == [0] + LittleEndian(0, 5) == [0, 0] + LittleEndian(0, 4);
    assert LittleEndian(0, 8) == [0] + LittleEndian(0, 7) == [0, 0] + LittleEndian(0, 6);
  }

  /** Writing a field right after an agreement says the field and nothing else. */
  lemma FieldReaches(s: Symmetric, agreements: seq<Bytes>, said: seq<Bytes>, shared: Bytes, plain: Bytes)
    requires Reached(s, agreements, said) && |plain| <= 32
    ensures var field := Field(agreements + [shared], plain, said);
            var (next, r) := EncryptAndHash(MixKey(s, shared), plain);
            r == Ok(field) && Reached(next, agreements + [shared], said + [field])
  {
    AgreeReaches(s, agreements, said, shared);
    NonceZero();
    var keyed := MixKey(s, shared);
    SayReaches(keyed, agreements + [shared], said, Field(agreements + [shared], plain, said));
  }

  // ------------------------------------------------------------------ the messages

  /** The first two agreements and what has been said before the first sealed field. */
  function Agreements(c: H.Initiator, eph: nat): seq<Bytes> {
    [Dh(eph, c.podPublic), Dh(c.clientSecret, c.podPublic)]
  }

  function Preamble(c: H.Initiator, eph: nat): seq<Bytes> {
    [c.prologue, c.podPublic, PublicOf(eph)]
  }

  function StaticField(c: H.Initiator, eph: nat): Bytes {
    Field(Agreements(c, eph)[..1], c.clientPublic, Preamble(c, eph))
  }

  function PayloadField(c: H.Initiator, eph: nat): Bytes {
    Field(Agreements(c, eph), c.binding, Preamble(c, eph) + [StaticField(c, eph)])
  }

  lemma PreambleReaches(c: H.Initiator, eph: nat)
    ensures Reached(MixHash(MixHash(MixHash(InitialSymmetric(), c.prologue), c.podPublic), PublicOf(eph)),
                    [], Preamble(c, eph))
  {
    var s0 := InitialSymmetric();
    SayReaches(s0, [], [], c.prologue);
    SayReaches(MixHash(s0, c.prologue), [], [] + [c.prologue], c.podPublic);
    SayReaches(MixHash(MixHash(s0, c.prologue), c.podPublic), [], [] + [c.prologue] + [c.podPublic], PublicOf(eph));
    assert [] + [c.prologue] + [c.podPublic] + [PublicOf(eph)] == Preamble(c, eph);
  }

  /**
   The initiator's message is its ephemeral key, its static key sealed under the second
   block of the first agreement, and the payload sealed under that of the first two, each
   over everything said before it.
   */
  lemma StartIsNoise(c: H.Initiator, eph: nat)
    requires H.WellFormed(c)
    ensures var (s, message) := H.Start(c, eph);
            && message == Ok(PublicOf(eph) + StaticField(c, eph) + PayloadField(c, eph))
            && Reached(s, Agreements(c, eph), Preamble(c, eph) + [StaticField(c, eph)] + [PayloadField(c, eph)])
  {
    H.StartShape(c, eph);
    PreambleReaches(c, eph);
    var s0 := MixHash(MixHash(MixHash(InitialSymmetric(), c.prologue), c.podPublic), PublicOf(eph));
    assert Agreements(c, eph)[..1] == [] + [Dh(eph, c.podPublic)];
    FieldReaches(s0, [], Preamble(c, eph), Dh(eph, c.podPublic), c.clientPublic);
    var s2 := EncryptAndHash(MixKey(s0, Dh(eph, c.podPublic)), c.clientPublic).0;
    assert Agreements(c, eph) == Agreements(c, eph)[..1] + [Dh(c.clientSecret, c.podPublic)];
    FieldReaches(s2, Agreements(c, eph)[..1], Preamble(c, eph) + [StaticField(c, eph)], Dh(c.clientSecret, c.podPublic),
                 c.binding);
  }

  /** The first agreement's extraction, written out down to HMAC. */
  lemma StaticFieldKey(c: H.Initiator, eph: nat)
    ensures var prk := HmacSha256(Literal(NAME), Dh(eph, c.podPublic));
            FieldKey(Agreements(c, eph)[..1]) == HmacSha256(prk, HmacSha256(prk, [Lit(1)]) + [Lit(2)])
  {
    TwoBlocks(HmacSha256(Literal(NAME), Dh(eph, c.podPublic)));
    assert Agreements(c, eph)[..1][..0] == [];
  }

  function AllAgreements(c: H.Initiator, ephI: nat, ephR: nat): seq<Bytes> {
    Agreements(c, ephI) + [Dh(ephR, PublicOf(ephI))] + [Dh(ephR, c.clientPublic)]
  }

  function SaidBeforeReply(c: H.Initiator, ephI: nat, ephR: nat): seq<Bytes> {
    Preamble(c, ephI) + [StaticField(c, ephI)] + [PayloadField(c, ephI)] + [PublicOf(ephR)]
  }

  /**
   The pod's reply to its matching client is its ephemeral key and an empty field under all
   four agreements; the client sends under the first block of the final extraction and the
   pod under the second, both from nonce zero.
   */
  lemma ReplyIsNoise(c: H.Initiator, ephI: nat, r: H.Responder, ephR: nat)
    requires H.WellFormed(c) && H.Matching(c, r)
    ensures H.Start(c, ephI).1.Ok? && H.Respond(r, H.Start(c, ephI).1.value, ephR).Ok?
    ensures var reply := H.Respond(r, H.Start(c, ephI).1.value, ephR).value;
            var all := AllAgreements(c, ephI, ephR);
            var tag := Field(all, [], SaidBeforeReply(c, ephI, ephR));
            && reply.response == PublicOf(ephR) + tag
            && reply.keys.receive == Cipher(Some(TransportKey(all, 1)), 0)
            && reply.keys.send == Cipher(Some(TransportKey(all, 2)), 0)
            && reply.transcript.h == Transcript(SaidBeforeReply(c, ephI, ephR) + [tag])
  {
    H.MatchingAccepted(c, ephI, r, ephR);
    StartIsNoise(c, ephI);
    var s := H.Start(c, ephI).0;
    var two := Agreements(c, ephI);
    var said := Preamble(c, ephI) + [StaticField(c, ephI)] + [PayloadField(c, ephI)];
    SayReaches(s, two, said, PublicOf(ephR));
    var m0 := MixHash(s, PublicOf(ephR));
    AgreeReaches(m0, two, said + [PublicOf(ephR)], Dh(ephR, PublicOf(ephI)));
    var m1 := MixKey(m0, Dh(ephR, PublicOf(ephI)));
    FieldReaches(m1, two + [Dh(ephR, PublicOf(ephI))], said + [PublicOf(ephR)], Dh(ephR, c.clientPublic), []);
    SplitIsHkdf(EncryptAndHash(MixKey(m1, Dh(ephR, c.clientPublic)), []).0);
  }

  // ------------------------------------------------------------------ refusals

  /** What the responder says to an honest initiator it does not match: the first check that fails. */
  function Refusal(i: H.Initiator, r: H.Responder): NoiseError {
    if i.prologue != r.prologue || i.podPublic != r.podPublic || r.podPublic != PublicOf(r.podSecret)
    then AuthenticationFailed
    else if i.clientPublic != r.expectedClient then UnboundClientKey
    else if i.clientPublic != PublicOf(i.clientSecret) then AuthenticationFailed
    else UnexpectedPayload
  }

  /** A field that does not open fails as an authentication, whatever was wrong with it. */
  lemma UnopenedFieldFails(w: Symmetric, winput: Bytes, data: Bytes, r: Symmetric, rinput: Bytes)
    requires |data| <= 32 && |w.h| == |r.h|
    ensures var box := EncryptAndHash(MixKey(w, winput), data).1;
            && box.Ok?
            && DecryptAndHash(MixKey(r, rinput), box.value).1 ==
               (if w.h == r.h && w.ck == r.ck && winput == rinput then Ok(data) else Err(AuthenticationFailed))
  {
    H.FreshWrite(w, winput, data);
    var box := EncryptAndHash(MixKey(w, winput), data).1.value;
    if DecryptAndHash(MixKey(r, rinput), box).1.Ok? {
      H.FreshReadIsGenuine(w, winput, data, r, rinput);
    }
    if w.h == r.h && w.ck == r.ck && winput == rinput {
      assert MixKey(r, rinput) == MixKey(w, winput);
    }
  }

  lemma OpeningAgrees(i: H.Initiator, ephI: nat, r: H.Responder)
    requires H.WellFormed(i) && H.WellFormedResponder(r)
    ensures var e := PublicOf(ephI);
            var w0 := MixHash(MixHash(MixHash(InitialSymmetric(), i.prologue), i.podPublic), e);
            var r0 := MixHash(MixHash(MixHash(InitialSymmetric(), r.prologue), r.podPublic), e);
            w0.h == r0.h && Dh(ephI, i.podPublic) == Dh(r.podSecret, e) <==>
              i.prologue == r.prologue && i.podPublic == r.podPublic == PublicOf(r.podSecret)
  {
    var e := PublicOf(ephI);
    var w0 := MixHash(MixHash(MixHash(InitialSymmetric(), i.prologue), i.podPublic), e);
    var r0 := MixHash(MixHash(MixHash(InitialSymmetric(), r.prologue), r.podPublic), e);
    if w0.h == r0.h {
      H.OpeningInjective(i.prologue, i.podPublic, e, r.prologue, r.podPublic, e);
    }
    if Dh(ephI, i.podPublic) == Dh(r.podSecret, e) {
      DhAgreesOnlyWithOwner(ephI, i.podPublic, r.podSecret);
    }
    if i.podPublic == PublicOf(r.podSecret) {
      DhSymmetric(ephI, r.podSecret);
    }
  }

  /** Every mismatch with an honest initiator is answered with its own error, and no reply is made. */
  lemma RefusalTells(i: H.Initiator, ephI: nat, r: H.Responder, ephR: nat)
    requires H.WellFormed(i) && H.WellFormedResponder(r) && !H.Matching(i, r)
    ensures H.Start(i, ephI).1.Ok? && H.Respond(r, H.Start(i, ephI).1.value, ephR) == Err(Refusal(i, r))
  {
    H.StartShape(i, ephI);
    var e := PublicOf(ephI);
    var w0 := MixHash(MixHash(MixHash(InitialSymmetric(), i.prologue), i.podPublic), e);
    var r0 := MixHash(MixHash(MixHash(InitialSymmetric(), r.prologue), r.podPublic), e);
    UnopenedFieldFails(w0, Dh(ephI, i.podPublic), i.clientPublic, r0, Dh(r.podSecret, e));
    OpeningAgrees(i, ephI, r);
    if i.prologue == r.prologue && i.podPublic == r.podPublic == PublicOf(r.podSecret)
      && i.clientPublic == r.expectedClient
    {
      H.FreshWrite(w0, Dh(ephI, i.podPublic), i.clientPublic);
      var w2 := EncryptAndHash(MixKey(w0, Dh(ephI, i.podPublic)), i.clientPublic).0;
      UnopenedFieldFails(w2, Dh(i.clientSecret, i.podPublic), i.binding, w2, Dh(r.podSecret, i.clientPublic));
      if Dh(i.clientSecret, i.podPublic) == Dh(r.podSecret, i.clientPublic) {
        DhAgreesOnlyWithOwner(r.podSecret, i.clientPublic, i.clientSecret);
      }
      if i.clientPublic == PublicOf(i.clientSecret) {
        DhSymmetric(i.clientSecret, r.podSecret);
      }
    }
  }
}
