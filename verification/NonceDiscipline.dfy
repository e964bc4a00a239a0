/** No key and nonce pair seals two messages, over a whole session with its handshake. */
module NonceDiscipline {
  import opened Prelude
  import opened SymbolicCrypto
  import opened Ciphers
  import H = Handshake

  type Use = (Bytes, seq<Octet>)

  ghost predicate Distinct(log: seq<Use>) {
    forall a, b :: 0 <= a < b < |log| ==> log[a] != log[b]
  }

  // ---------------------------------------------------------- one cipher state

  /** The key and nonce of every box made while `plains` are offered one by one. */
  function SealLog(c: Cipher, plains: seq<Bytes>): seq<Use>
    requires c.key.Some?
    decreases plains
  {
    if plains == [] then []
    else
      var (next, r) := Encrypt(c, plains[0], []);
      (if r.Ok? then [(c.key.value, NonceBytes(c.nonce))] else []) + SealLog(next, plains[1..])
  }

  /** The log counts up from the state's nonce; refused messages use no nonce. */
  lemma {:induction false} SealLogCounts(c: Cipher, plains: seq<Bytes>, k: nat)
    requires c.key.Some? && k < |SealLog(c, plains)|
    ensures UsableCounter(c.nonce + k)
    ensures SealLog(c, plains)[k] == (c.key.value, NonceBytes(c.nonce + k))
    decreases plains
  {
    var (next, r) := Encrypt(c, plains[0], []);
    if r.Err? {
      SealLogCounts(next, plains[1..], k);
    } else if k > 0 {
      SealLogCounts(next, plains[1..], k - 1);
    }
  }

  lemma SealLogDiffers(c: Cipher, plains: seq<Bytes>, a: nat, b: nat)
    requires c.key.Some? && a < b < |SealLog(c, plains)|
    ensures SealLog(c, plains)[a] != SealLog(c, plains)[b]
  {
    SealLogCounts(c, plains, a);
    SealLogCounts(c, plains, b);
    if NonceBytes(c.nonce + a) == NonceBytes(c.nonce + b) {
      NonceInjective(c.nonce + a, c.nonce + b);
    }
  }

  ghost predicate AllUnder(log: seq<Use>, key: Bytes) {
    forall k :: 0 <= k < |log| ==> log[k].0 == key
  }

  lemma SealLogDistinct(c: Cipher, plains: seq<Bytes>)
    requires c.key.Some?
    ensures Distinct(SealLog(c, plains)) && AllUnder(SealLog(c, plains), c.key.value)
  {
    forall a | 0 <= a < |SealLog(c, plains)| ensures SealLog(c, plains)[a].0 == c.key.value {
      SealLogCounts(c, plains, a);
    }
    forall a, b | 0 <= a < b < |SealLog(c, plains)| ensures SealLog(c, plains)[a] != SealLog(c, plains)[b] {
      SealLogDiffers(c, plains, a, b);
    }
  }

  // ------------------------------------------------------------- key hierarchy

  /** How many HMAC steps separate a key from a value that is no HMAC output. */
  ghost function Level(b: Bytes): nat {
    if |b| > 0 && b[0].Part? then ValueLevel(b[0].value) else 0
  }

  ghost function ValueLevel(v: Value): nat {
    if !v.Hmac? then 0
    else if |v.key| > 0 && v.key[0].Part? then 1 + ValueLevel(v.key[0].value)
    else 1
  }

  lemma HmacLevel(key: Bytes, data: Bytes)
    ensures Level(HmacSha256(key, data)) == 1 + Level(key)
  {
    assert HmacSha256(key, data)[0] == Part(Hmac(key, data), 0);
  }

  lemma Hkdf2Level(ck: Bytes, input: Bytes)
    ensures Level(Hkdf2(ck, input).0) == Level(Hkdf2(ck, input).1) == 2 + Level(ck)
    ensures Hkdf2(ck, input).0 != Hkdf2(ck, input).1
  {
    var temp := HmacSha256(ck, input);
    var out1 := HmacSha256(temp, [Lit(1)]);
    HmacLevel(ck, input);
    HmacLevel(temp, [Lit(1)]);
    HmacLevel(temp, out1 + [Lit(2)]);
    assert |[Lit(1)]| < |out1 + [Lit(2)]|;
    if Hkdf2(ck, input).0 == Hkdf2(ck, input).1 {
      SerializeInjective(Hmac(temp, [Lit(1)]), Hmac(temp, out1 + [Lit(2)]));
    }
  }

  lemma MixKeyLevel(s: Symmetric, input: Bytes)
    ensures Level(MixKey(s, input).ck) == Level(MixKey(s, input).cs.key.value) == 2 + Level(s.ck)
  {
    Hkdf2Level(s.ck, input);
  }

  /** The boxes made during the handshake: static key, payload, and the reply's tag. */
  function HandshakeUses(i: H.Initiator, ephI: nat, ephR: nat): seq<Use> {
    var s1 := H.Opening(i.prologue, i.podPublic, PublicOf(ephI), Dh(ephI, i.podPublic));
    var s2 := EncryptAndHash(s1, i.clientPublic).0;
    var s3 := MixKey(s2, Dh(i.clientSecret, i.podPublic));
    var s4 := EncryptAndHash(s3, i.binding).0;
    var s5 := MixKey(MixKey(MixHash(s4, PublicOf(ephR)), Dh(ephR, PublicOf(ephI))), Dh(ephR, i.clientPublic));
    [(s1.cs.key.value, NonceBytes(0)), (s3.cs.key.value, NonceBytes(0)), (s5.cs.key.value, NonceBytes(0))]
  }

  /** `box` is a sealing of `plain` that used this key and nonce. */
  predicate SealedBy(box: Bytes, use: Use, plain: Bytes) {
    && |box| > 0 && box[0].Part? && box[0].value.Box?
    && box == Seal(use.0, use.1, plain, box[0].value.ad)
  }

  lemma SealIsSealedBy(key: Bytes, nonce: seq<Octet>, plain: Bytes, ad: Bytes)
    ensures SealedBy(Seal(key, nonce, plain, ad), (key, nonce), plain)
  {
    assert Seal(key, nonce, plain, ad)[0] == Part(Box(key, nonce, ad, plain), 0);
  }

  /** The listed uses are those of the three sealed fields on the wire: nothing else in either message is a box. */
  lemma HandshakeUsesAreOnTheWire(i: H.Initiator, ephI: nat, r: H.Responder, ephR: nat)
    requires H.WellFormed(i) && H.Matching(i, r)
    ensures H.Start(i, ephI).1.Ok? && H.Respond(r, H.Start(i, ephI).1.value, ephR).Ok?
    ensures var uses := HandshakeUses(i, ephI, ephR);
            var message := H.Start(i, ephI).1.value;
            var response := H.Respond(r, message, ephR).value.response;
            && |message| == 96 + |i.binding| && |response| == 48
            && message[..32] == PublicOf(ephI) && response[..32] == PublicOf(ephR)
            && SealedBy(message[32..80], uses[0], i.clientPublic)
            && SealedBy(message[80..], uses[1], i.binding)
            && SealedBy(response[32..], uses[2], [])
  {
    H.Agreement(i, ephI, r, ephR);
    H.MatchingAccepted(i, ephI, r, ephR);
    H.StartShape(i, ephI);
    var s0 := MixHash(MixHash(MixHash(InitialSymmetric(), i.prologue), i.podPublic), PublicOf(ephI));
    var s1 := MixKey(s0, Dh(ephI, i.podPublic));
    H.FreshWrite(s0, Dh(ephI, i.podPublic), i.clientPublic);
    SealIsSealedBy(s1.cs.key.value, NonceBytes(0), i.clientPublic, s1.h);
    var s2 := EncryptAndHash(s1, i.clientPublic).0;
    var s3 := MixKey(s2, Dh(i.clientSecret, i.podPublic));
    H.FreshWrite(s2, Dh(i.clientSecret, i.podPublic), i.binding);
    SealIsSealedBy(s3.cs.key.value, NonceBytes(0), i.binding, s3.h);
    var m := MixKey(MixHash(H.Start(i, ephI).0, PublicOf(ephR)), Dh(ephR, PublicOf(ephI)));
    var s5 := MixKey(m, Dh(ephR, i.clientPublic));
    H.FreshWrite(m, Dh(ephR, i.clientPublic), []);
    SealIsSealedBy(s5.cs.key.value, NonceBytes(0), [], s5.h);
    var tag := EncryptAndHash(s5, []).1.value;
    assert (PublicOf(ephR) + tag)[..32] == PublicOf(ephR) && (PublicOf(ephR) + tag)[32..] == tag;
  }

  lemma OpeningLevels(i: H.Initiator, ephI: nat, ephR: nat)
    requires H.WellFormed(i)
    ensures var uses := HandshakeUses(i, ephI, ephR);
            Level(uses[0].0) == 2 && Level(uses[1].0) == 4 && Level(H.Start(i, ephI).0.ck) == 4
  {
    H.StartShape(i, ephI);
    var s0 := MixHash(MixHash(MixHash(InitialSymmetric(), i.prologue), i.podPublic), PublicOf(ephI));
    assert s0.ck[0] == Lit(ProtocolName()[0]);
    MixKeyLevel(s0, Dh(ephI, i.podPublic));
    var s1 := MixKey(s0, Dh(ephI, i.podPublic));
    H.FreshWrite(s0, Dh(ephI, i.podPublic), i.clientPublic);
    var s2 := EncryptAndHash(s1, i.clientPublic).0;
    MixKeyLevel(s2, Dh(i.clientSecret, i.podPublic));
    H.FreshWrite(s2, Dh(i.clientSecret, i.podPublic), i.binding);
  }

  /** Four HMAC levels for the reply's key, two more for the transport keys. */
  lemma ReplyLevels(s: Symmetric, ephR: nat, remote: Bytes, clientStatic: Bytes)
    ensures var s1 := MixKey(MixKey(MixHash(s, PublicOf(ephR)), Dh(ephR, remote)), Dh(ephR, clientStatic));
            Level(s1.cs.key.value) == 4 + Level(s.ck)
    ensures var reply := H.ReplyTo(s, ephR, remote, clientStatic);
            && reply.Ok? && var keys := reply.value.keys;
               && keys.send.key.Some? && keys.receive.key.Some? && keys.send.key != keys.receive.key
               && Level(keys.send.key.value) == 6 + Level(s.ck) && Level(keys.receive.key.value) == 6 + Level(s.ck)
  {
    var m0 := MixHash(s, PublicOf(ephR));
    var m1 := MixKey(m0, Dh(ephR, remote));
    MixKeyLevel(m0, Dh(ephR, remote));
    MixKeyLevel(m1, Dh(ephR, clientStatic));
    H.FreshWrite(m1, Dh(ephR, clientStatic), []);
    Hkdf2Level(MixKey(m1, Dh(ephR, clientStatic)).ck, []);
  }

  /** Handshake keys sit at levels 2, 4 and 8 of the hierarchy, transport keys at level 10. */
  lemma KeyLevels(i: H.Initiator, ephI: nat, r: H.Responder, ephR: nat)
    requires H.WellFormed(i) && H.Matching(i, r)
    ensures H.Start(i, ephI).1.Ok? && H.Respond(r, H.Start(i, ephI).1.value, ephR).Ok?
    ensures var uses := HandshakeUses(i, ephI, ephR);
            Level(uses[0].0) == 2 && Level(uses[1].0) == 4 && Level(uses[2].0) == 8
    ensures var keys := H.Respond(r, H.Start(i, ephI).1.value, ephR).value.keys;
            && keys.send.key.Some? && keys.receive.key.Some? && keys.send.key != keys.receive.key
            && Level(keys.send.key.value) == 10 && Level(keys.receive.key.value) == 10
  {
    H.MatchingAccepted(i, ephI, r, ephR);
    H.StartShape(i, ephI);
    OpeningLevels(i, ephI, ephR);
    ReplyLevels(H.Start(i, ephI).0, ephR, PublicOf(ephI), i.clientPublic);
  }

  /** Three logs under keys that differ pairwise hold no pair twice. */
  lemma DistinctUnderKeys(uses: seq<Use>, log1: seq<Use>, key1: Bytes, log2: seq<Use>, key2: Bytes)
    requires Distinct(uses) && Distinct(log1) && Distinct(log2)
    requires AllUnder(log1, key1) && AllUnder(log2, key2) && key1 != key2
    requires forall k :: 0 <= k < |uses| ==> uses[k].0 != key1 && uses[k].0 != key2
    ensures Distinct(uses + log1 + log2)
  {
  }

  /** For any plaintexts offered by either side after the handshake, no pair is used twice. */
  lemma NoNonceReuse(i: H.Initiator, ephI: nat, r: H.Responder, ephR: nat, fromInitiator: seq<Bytes>,
                     fromResponder: seq<Bytes>)
    requires H.WellFormed(i) && H.Matching(i, r)
    ensures H.Start(i, ephI).1.Ok? && H.Respond(r, H.Start(i, ephI).1.value, ephR).Ok?
    ensures var keys := H.Respond(r, H.Start(i, ephI).1.value, ephR).value.keys;
            && keys.send.key.Some? && keys.receive.key.Some?
            && Distinct(HandshakeUses(i, ephI, ephR) + SealLog(keys.receive, fromInitiator)
               + SealLog(keys.send, fromResponder))
  {
    KeyLevels(i, ephI, r, ephR);
    var keys := H.Respond(r, H.Start(i, ephI).1.value, ephR).value.keys;
    UsesDiffer(HandshakeUses(i, ephI, ephR), keys.receive.key.value, keys.send.key.value);
    SealLogDistinct(keys.receive, fromInitiator);
    SealLogDistinct(keys.send, fromResponder);
    DistinctUnderKeys(HandshakeUses(i, ephI, ephR), SealLog(keys.receive, fromInitiator), keys.receive.key.value,
                      SealLog(keys.send, fromResponder), keys.send.key.value);
  }

  lemma UsesDiffer(uses: seq<Use>, key1: Bytes, key2: Bytes)
    requires |uses| == 3 && Level(uses[0].0) == 2 && Level(uses[1].0) == 4 && Level(uses[2].0) == 8
    requires Level(key1) == 10 && Level(key2) == 10
    ensures Distinct(uses)
    ensures forall k :: 0 <= k < |uses| ==> uses[k].0 != key1 && uses[k].0 != key2
  {
  }

  // ------------------------------------------------------------- messages from anyone

  /** The symmetric state a responder replies from, after a message it accepted. */
  function AfterRead(r: H.Responder, message: Bytes): Symmetric
    requires |message| == 96 || |message| == 128
  {
    var remote := message[..32];
    var s2 := DecryptAndHash(H.Opening(r.prologue, r.podPublic, remote, Dh(r.podSecret, remote)), message[32..80]).0;
    DecryptAndHash(MixKey(s2, Dh(r.podSecret, r.expectedClient)), message[80..]).0
  }

  /** The state whose key seals the reply's tag and whose chaining key is split. */
  function ReplyState(s: Symmetric, ephR: nat, remote: Bytes, clientStatic: Bytes): Symmetric {
    MixKey(MixKey(MixHash(s, PublicOf(ephR)), Dh(ephR, remote)), Dh(ephR, clientStatic))
  }

  /** The boxes a responder makes: the tag of its reply, then whatever it sends. */
  function ResponderLog(r: H.Responder, message: Bytes, ephR: nat, plains: seq<Bytes>): seq<Use>
    requires H.Respond(r, message, ephR).Ok? && H.Respond(r, message, ephR).value.keys.send.key.Some?
  {
    H.RespondShape(r, message, ephR);
    var tagKey := ReplyState(AfterRead(r, message), ephR, message[..32], r.expectedClient).cs.key.value;
    [(tagKey, NonceBytes(0))] + SealLog(H.Respond(r, message, ephR).value.keys.send, plains)
  }

  lemma AcceptedLevel(r: H.Responder, message: Bytes, ephR: nat)
    requires H.Respond(r, message, ephR).Ok?
    ensures |message| == 96 || |message| == 128
    ensures Level(AfterRead(r, message).ck) == 4
    ensures H.Respond(r, message, ephR) == H.ReplyTo(AfterRead(r, message), ephR, message[..32], r.expectedClient)
  {
    H.RespondShape(r, message, ephR);
    var remote := message[..32];
    var s0 := MixHash(MixHash(MixHash(InitialSymmetric(), r.prologue), r.podPublic), remote);
    assert s0.ck[0] == Lit(ProtocolName()[0]);
    MixKeyLevel(s0, Dh(r.podSecret, remote));
    var s2 := DecryptAndHash(MixKey(s0, Dh(r.podSecret, remote)), message[32..80]).0;
    MixKeyLevel(s2, Dh(r.podSecret, r.expectedClient));
  }

  /**
   Whoever sent the message a responder accepted, no key and nonce pair of its reply and
   of anything it sends afterwards is used twice, and its two transport keys differ.
   */
  lemma ResponderNeverReuses(r: H.Responder, message: Bytes, ephR: nat, plains: seq<Bytes>)
    requires H.Respond(r, message, ephR).Ok?
    ensures var keys := H.Respond(r, message, ephR).value.keys;
            && keys.send.key.Some? && keys.receive.key.Some? && keys.send.key != keys.receive.key
            && Distinct(ResponderLog(r, message, ephR, plains))
  {
    AcceptedLevel(r, message, ephR);
    ReplyLevels(AfterRead(r, message), ephR, message[..32], r.expectedClient);
    SealLogDistinct(H.Respond(r, message, ephR).value.keys.send, plains);
  }

  // ------------------------------------------------------------------ several sessions

  lemma MixKeyInjective(s1: Symmetric, in1: Bytes, s2: Symmetric, in2: Bytes)
    requires MixKey(s1, in1).ck == MixKey(s2, in2).ck || MixKey(s1, in1).cs.key == MixKey(s2, in2).cs.key
    ensures s1.ck == s2.ck && in1 == in2
  {
    Hkdf2Injective(s1.ck, in1, s2.ck, in2);
  }

  /** The tag key and the two transport keys of a reply determine everything mixed into them. */
  lemma ReplyKeysInjective(s1: Symmetric, e1: nat, p1: Bytes, c1: Bytes, s2: Symmetric, e2: nat, p2: Bytes, c2: Bytes)
    requires ReplyState(s1, e1, p1, c1).ck == ReplyState(s2, e2, p2, c2).ck
             || ReplyState(s1, e1, p1, c1).cs.key == ReplyState(s2, e2, p2, c2).cs.key
    ensures s1.ck == s2.ck && Dh(e1, p1) == Dh(e2, p2) && Dh(e1, c1) == Dh(e2, c2)
  {
    var m1, m2 := MixKey(MixHash(s1, PublicOf(e1)), Dh(e1, p1)), MixKey(MixHash(s2, PublicOf(e2)), Dh(e2, p2));
    MixKeyInjective(m1, Dh(e1, c1), m2, Dh(e2, c2));
    MixKeyInjective(MixHash(s1, PublicOf(e1)), Dh(e1, p1), MixHash(s2, PublicOf(e2)), Dh(e2, p2));
  }

  lemma ReplySplits(s: Symmetric, ephR: nat, remote: Bytes, clientStatic: Bytes)
    ensures var reply := H.ReplyTo(s, ephR, remote, clientStatic);
            && reply.Ok?
            && var pair := Hkdf2(ReplyState(s, ephR, remote, clientStatic).ck, []);
               reply.value.keys.receive.key == Some(pair.0) && reply.value.keys.send.key == Some(pair.1)
  {
    H.FreshWrite(MixKey(MixHash(s, PublicOf(ephR)), Dh(ephR, remote)), Dh(ephR, clientStatic), []);
  }

  /** The three keys a reply brings: the tag's and the two of the transport. */
  ghost predicate ReplyKey(s: Symmetric, ephR: nat, remote: Bytes, clientStatic: Bytes, key: Bytes) {
    var last := ReplyState(s, ephR, remote, clientStatic);
    last.cs.key == Some(key) || Hkdf2(last.ck, []).0 == key || Hkdf2(last.ck, []).1 == key
  }

  /** A key that two replies share was made from the same secrets. */
  lemma SharedReplyKey(s1: Symmetric, e1: nat, p1: Bytes, c1: Bytes, s2: Symmetric, e2: nat, p2: Bytes, c2: Bytes,
                       key: Bytes)
    requires Level(s1.ck) == Level(s2.ck)
    requires ReplyKey(s1, e1, p1, c1, key) && ReplyKey(s2, e2, p2, c2, key)
    ensures s1.ck == s2.ck && Dh(e1, p1) == Dh(e2, p2) && Dh(e1, c1) == Dh(e2, c2)
  {
    var l1, l2 := ReplyState(s1, e1, p1, c1), ReplyState(s2, e2, p2, c2);
    ReplyKeyLevel(s1, e1, p1, c1);
    ReplyKeyLevel(s2, e2, p2, c2);
    if l1.cs.key == Some(key) {
      assert l2.cs.key == Some(key);
    } else {
      SplitKeysDiffer(l1.ck, l2.ck, key);
    }
    ReplyKeysInjective(s1, e1, p1, c1, s2, e2, p2, c2);
  }

  lemma ReplyKeyLevel(s: Symmetric, ephR: nat, remote: Bytes, clientStatic: Bytes)
    ensures var last := ReplyState(s, ephR, remote, clientStatic);
            && Level(last.cs.key.value) == 4 + Level(s.ck)
            && Level(Hkdf2(last.ck, []).0) == Level(Hkdf2(last.ck, []).1) == 6 + Level(s.ck)
  {
    var m0 := MixHash(s, PublicOf(ephR));
    MixKeyLevel(m0, Dh(ephR, remote));
    MixKeyLevel(MixKey(m0, Dh(ephR, remote)), Dh(ephR, clientStatic));
    Hkdf2Level(ReplyState(s, ephR, remote, clientStatic).ck, []);
  }

  /** The first output of one split is never the second output of another. */
  lemma SplitKeysDiffer(ck1: Bytes, ck2: Bytes, key: Bytes)
    requires Hkdf2(ck1, []).0 == key || Hkdf2(ck1, []).1 == key
    requires Hkdf2(ck2, []).0 == key || Hkdf2(ck2, []).1 == key
    ensures ck1 == ck2
  {
    var t1, t2 := HmacSha256(ck1, []), HmacSha256(ck2, []);
    var o1, o2 := HmacSha256(t1, [Lit(1)]), HmacSha256(t2, [Lit(1)]);
    assert |[Lit(1)]| < |o1 + [Lit(2)]| && |[Lit(1)]| < |o2 + [Lit(2)]|;
    if o1 == key {
      if o2 != key {
        SerializeInjective(Hmac(t1, [Lit(1)]), Hmac(t2, o2 + [Lit(2)]));
      } else {
        Hkdf2Injective(ck1, [], ck2, []);
      }
    } else if o2 == key {
      SerializeInjective(Hmac(t2, [Lit(1)]), Hmac(t1, o1 + [Lit(2)]));
    } else {
      Hkdf2Injective(ck1, [], ck2, []);
    }
  }

  /** Every key a responder seals or opens with after accepting `message`. */
  ghost predicate ResponderKey(r: H.Responder, message: Bytes, ephR: nat, key: Bytes)
    requires H.Respond(r, message, ephR).Ok?
  {
    H.RespondShape(r, message, ephR);
    ReplyKey(AfterRead(r, message), ephR, message[..32], r.expectedClient, key)
  }

  /**
   One responder, any two messages it accepted, replayed or not: replies with different
   ephemerals share no key.
   */
  lemma RepliesShareNoKey(r: H.Responder, m1: Bytes, e1: nat, m2: Bytes, e2: nat, key: Bytes)
    requires H.Respond(r, m1, e1).Ok? && H.Respond(r, m2, e2).Ok? && e1 != e2
    ensures !(ResponderKey(r, m1, e1, key) && ResponderKey(r, m2, e2, key))
  {
    AcceptedLevel(r, m1, e1);
    AcceptedLevel(r, m2, e2);
    if ResponderKey(r, m1, e1, key) && ResponderKey(r, m2, e2, key) {
      SharedReplyKey(AfterRead(r, m1), e1, m1[..32], r.expectedClient,
                     AfterRead(r, m2), e2, m2[..32], r.expectedClient, key);
      DhDetermines(e1, r.expectedClient, e2, r.expectedClient);
    }
  }

  /** Every key of a session opened by `i`: those of its message and those of the reply. */
  ghost predicate SessionKey(i: H.Initiator, ephI: nat, ephR: nat, key: Bytes) {
    var uses := HandshakeUses(i, ephI, ephR);
    key == uses[0].0 || key == uses[1].0 || ReplyKey(H.Start(i, ephI).0, ephR, PublicOf(ephI), i.clientPublic, key)
  }

  /** The two keys of the initiator's message, and its chaining key, determine the first agreement. */
  lemma OpeningDetermines(i: H.Initiator, e1: nat, j: H.Initiator, e2: nat, ephR1: nat, ephR2: nat)
    requires H.WellFormed(i) && H.WellFormed(j)
    requires || HandshakeUses(i, e1, ephR1)[0].0 == HandshakeUses(j, e2, ephR2)[0].0
             || HandshakeUses(i, e1, ephR1)[1].0 == HandshakeUses(j, e2, ephR2)[1].0
             || H.Start(i, e1).0.ck == H.Start(j, e2).0.ck
    ensures Dh(e1, i.podPublic) == Dh(e2, j.podPublic)
  {
    H.StartShape(i, e1);
    H.StartShape(j, e2);
    var a0 := MixHash(MixHash(MixHash(InitialSymmetric(), i.prologue), i.podPublic), PublicOf(e1));
    var b0 := MixHash(MixHash(MixHash(InitialSymmetric(), j.prologue), j.podPublic), PublicOf(e2));
    var a1, b1 := MixKey(a0, Dh(e1, i.podPublic)), MixKey(b0, Dh(e2, j.podPublic));
    H.FreshWrite(a0, Dh(e1, i.podPublic), i.clientPublic);
    H.FreshWrite(b0, Dh(e2, j.podPublic), j.clientPublic);
    var a2, b2 := EncryptAndHash(a1, i.clientPublic).0, EncryptAndHash(b1, j.clientPublic).0;
    H.FreshWrite(a2, Dh(i.clientSecret, i.podPublic), i.binding);
    H.FreshWrite(b2, Dh(j.clientSecret, j.podPublic), j.binding);
    if a1.cs.key != b1.cs.key {
      MixKeyInjective(a2, Dh(i.clientSecret, i.podPublic), b2, Dh(j.clientSecret, j.podPublic));
    }
    MixKeyInjective(a0, Dh(e1, i.podPublic), b0, Dh(e2, j.podPublic));
  }

  /** The first key of an opening is made of nothing but its first agreement. */
  lemma AgreementGivesFirstKey(i: H.Initiator, e1: nat, ephR1: nat, j: H.Initiator, e2: nat, ephR2: nat)
    requires H.WellFormed(i) && H.WellFormed(j) && Dh(e1, i.podPublic) == Dh(e2, j.podPublic)
    ensures HandshakeUses(i, e1, ephR1)[0].0 == HandshakeUses(j, e2, ephR2)[0].0
  {
    H.StartShape(i, e1);
    H.StartShape(j, e2);
  }

  lemma SharedKeyNeedsAgreement(i: H.Initiator, e1: nat, ephR1: nat, j: H.Initiator, e2: nat, ephR2: nat, key: Bytes)
    requires H.WellFormed(i) && H.WellFormed(j)
    requires SessionKey(i, e1, ephR1, key) && SessionKey(j, e2, ephR2, key)
    ensures Dh(e1, i.podPublic) == Dh(e2, j.podPublic)
  {
    SharedKeysCorrespond(i, e1, ephR1, j, e2, ephR2, key);
    if ReplyKey(H.Start(i, e1).0, ephR1, PublicOf(e1), i.clientPublic, key) {
      OpeningLevels(i, e1, ephR1);
      OpeningLevels(j, e2, ephR2);
      SharedReplyKey(H.Start(i, e1).0, ephR1, PublicOf(e1), i.clientPublic,
                     H.Start(j, e2).0, ephR2, PublicOf(e2), j.clientPublic, key);
    }
    OpeningDetermines(i, e1, j, e2, ephR1, ephR2);
  }

  /** Sessions of any clients with any pods share a key if and only if their first agreements coincide. */
  lemma SessionsShareKeyIff(i: H.Initiator, e1: nat, ephR1: nat, j: H.Initiator, e2: nat, ephR2: nat)
    requires H.WellFormed(i) && H.WellFormed(j)
    ensures (exists key :: SessionKey(i, e1, ephR1, key) && SessionKey(j, e2, ephR2, key)) <==>
              Dh(e1, i.podPublic) == Dh(e2, j.podPublic)
  {
    if key :| SessionKey(i, e1, ephR1, key) && SessionKey(j, e2, ephR2, key) {
      SharedKeyNeedsAgreement(i, e1, ephR1, j, e2, ephR2, key);
    }
    if Dh(e1, i.podPublic) == Dh(e2, j.podPublic) {
      AgreementGivesFirstKey(i, e1, ephR1, j, e2, ephR2);
      assert SessionKey(i, e1, ephR1, HandshakeUses(i, e1, ephR1)[0].0);
      assert SessionKey(j, e2, ephR2, HandshakeUses(i, e1, ephR1)[0].0);
    }
  }

  /** Each client's ephemeral secret is the secret of the other's pod. */
  predicate Swapped(i: H.Initiator, e1: nat, j: H.Initiator, e2: nat) {
    i.podPublic == PublicOf(e2) && j.podPublic == PublicOf(e1)
  }

  /**
   With different ephemerals, none of them a pod's own secret, they share no key at all,
   so no pair of one is ever a pair of the other.
   */
  lemma SessionsShareNoKey(i: H.Initiator, e1: nat, ephR1: nat, j: H.Initiator, e2: nat, ephR2: nat, key: Bytes)
    requires H.WellFormed(i) && H.WellFormed(j) && e1 != e2 && !Swapped(i, e1, j, e2)
    ensures !(SessionKey(i, e1, ephR1, key) && SessionKey(j, e2, ephR2, key))
  {
    if SessionKey(i, e1, ephR1, key) && SessionKey(j, e2, ephR2, key) {
      SharedKeyNeedsAgreement(i, e1, ephR1, j, e2, ephR2, key);
      DhDetermines(e1, i.podPublic, e2, j.podPublic);
    }
  }

  lemma SessionKeyLevel(i: H.Initiator, ephI: nat, ephR: nat, key: Bytes)
    requires H.WellFormed(i) && SessionKey(i, ephI, ephR, key)
    ensures Level(key) == 2 <==> key == HandshakeUses(i, ephI, ephR)[0].0
    ensures Level(key) == 4 <==> key == HandshakeUses(i, ephI, ephR)[1].0
    ensures Level(key) >= 8 <==> ReplyKey(H.Start(i, ephI).0, ephR, PublicOf(ephI), i.clientPublic, key)
  {
    OpeningLevels(i, ephI, ephR);
    ReplyKeyLevel(H.Start(i, ephI).0, ephR, PublicOf(ephI), i.clientPublic);
  }

  /** A key of two sessions has the same place in both, by its depth. */
  lemma SharedKeysCorrespond(i: H.Initiator, e1: nat, ephR1: nat, j: H.Initiator, e2: nat, ephR2: nat, key: Bytes)
    requires H.WellFormed(i) && H.WellFormed(j) && SessionKey(i, e1, ephR1, key) && SessionKey(j, e2, ephR2, key)
    ensures key == HandshakeUses(i, e1, ephR1)[0].0 <==> key == HandshakeUses(j, e2, ephR2)[0].0
    ensures key == HandshakeUses(i, e1, ephR1)[1].0 <==> key == HandshakeUses(j, e2, ephR2)[1].0
    ensures ReplyKey(H.Start(i, e1).0, ephR1, PublicOf(e1), i.clientPublic, key) <==>
            ReplyKey(H.Start(j, e2).0, ephR2, PublicOf(e2), j.clientPublic, key)
  {
    SessionKeyLevel(i, e1, ephR1, key);
    SessionKeyLevel(j, e2, ephR2, key);
  }

  /** Every use of a session: its handshake, then what either side sends. */
  function SessionLog(i: H.Initiator, ephI: nat, r: H.Responder, ephR: nat,
                      fromInitiator: seq<Bytes>, fromResponder: seq<Bytes>): seq<Use>
    requires H.WellFormed(i) && H.Matching(i, r)
  {
    KeyLevels(i, ephI, r, ephR);
    var keys := H.Respond(r, H.Start(i, ephI).1.value, ephR).value.keys;
    HandshakeUses(i, ephI, ephR) + SealLog(keys.receive, fromInitiator) + SealLog(keys.send, fromResponder)
  }

  lemma LogUsesSessionKeys(i: H.Initiator, ephI: nat, r: H.Responder, ephR: nat,
                           fromInitiator: seq<Bytes>, fromResponder: seq<Bytes>, k: nat)
    requires H.WellFormed(i) && H.Matching(i, r)
    requires k < |SessionLog(i, ephI, r, ephR, fromInitiator, fromResponder)|
    ensures SessionKey(i, ephI, ephR, SessionLog(i, ephI, r, ephR, fromInitiator, fromResponder)[k].0)
  {
    KeyLevels(i, ephI, r, ephR);
    H.MatchingAccepted(i, ephI, r, ephR);
    H.StartShape(i, ephI);
    ReplySplits(H.Start(i, ephI).0, ephR, PublicOf(ephI), i.clientPublic);
    var keys := H.Respond(r, H.Start(i, ephI).1.value, ephR).value.keys;
    SealLogDistinct(keys.receive, fromInitiator);
    SealLogDistinct(keys.send, fromResponder);
    HandshakeUsesSessionKeys(i, ephI, ephR);
  }

  lemma HandshakeUsesSessionKeys(i: H.Initiator, ephI: nat, ephR: nat)
    requires H.WellFormed(i)
    ensures forall k :: 0 <= k < 3 ==> SessionKey(i, ephI, ephR, HandshakeUses(i, ephI, ephR)[k].0)
  {
    H.StartShape(i, ephI);
  }

  /** Two sessions with different ephemerals: over both of them no pair is used twice. */
  lemma NoReuseAcrossSessions(i: H.Initiator, e1: nat, r: H.Responder, ephR1: nat, a1: seq<Bytes>, b1: seq<Bytes>,
                              j: H.Initiator, e2: nat, q: H.Responder, ephR2: nat, a2: seq<Bytes>, b2: seq<Bytes>)
    requires H.WellFormed(i) && H.Matching(i, r) && H.WellFormed(j) && H.Matching(j, q)
    requires e1 != e2 && !Swapped(i, e1, j, e2)
    ensures Distinct(SessionLog(i, e1, r, ephR1, a1, b1) + SessionLog(j, e2, q, ephR2, a2, b2))
  {
    NoNonceReuse(i, e1, r, ephR1, a1, b1);
    NoNonceReuse(j, e2, q, ephR2, a2, b2);
    var one, two := SessionLog(i, e1, r, ephR1, a1, b1), SessionLog(j, e2, q, ephR2, a2, b2);
    forall x, y | 0 <= x < |one| && 0 <= y < |two| ensures one[x].0 != two[y].0 {
      LogUsesSessionKeys(i, e1, r, ephR1, a1, b1, x);
      LogUsesSessionKeys(j, e2, q, ephR2, a2, b2, y);
      SessionsShareNoKey(i, e1, ephR1, j, e2, ephR2, one[x].0);
    }
  }
}
