/**
 The cryptographic primitives of noise.js as symbolic values.

 A wire byte is either a literal octet or one byte of a cryptographic value, so
 joining and slicing byte strings is ordinary sequence arithmetic while hashes,
 keys and sealed boxes stay injective constructors. Diffie-Hellman is symmetric
 by construction, and a box opens only under its own key, nonce and associated
 data.
 */
module SymbolicCrypto {
  import opened Prelude

  type Octet = b: int | 0 <= b < 256

  datatype Byte = Lit(octet: Octet) | Part(value: Value, index: nat)

  type Bytes = seq<Byte>

  datatype Value =
    | PublicKey(secret: nat)
    | Sha(input: seq<Byte>)
    | Hmac(key: seq<Byte>, data: seq<Byte>)
    | Shared(lo: nat, hi: nat)
    | SharedWithJunk(secret: nat, point: seq<Byte>)
    | Box(key: seq<Byte>, nonce: seq<Octet>, ad: seq<Byte>, plain: seq<Byte>)

  const KEY_LENGTH := 32
  const TAG_LENGTH := 16

  /** Length on the wire: a box is its plaintext and a tag, all else is 32 bytes. */
  function Size(v: Value): (n: nat)
    ensures n > 0
  {
    if v.Box? then |v.plain| + TAG_LENGTH else KEY_LENGTH
  }

  function Serialize(v: Value): (b: Bytes)
    ensures |b| == Size(v)
  {
    seq(Size(v), (i: nat) => Part(v, i))
  }

  function Literal(s: seq<Octet>): (b: Bytes)
    ensures |b| == |s|
  {
    seq(|s|, i requires 0 <= i < |s| => Lit(s[i]))
  }

  /** The UTF-8 encoding of an ASCII text. */
  function Ascii(text: string): (s: seq<Octet>)
    ensures |s| == |text|
  {
    seq(|text|, i requires 0 <= i < |text| => (text[i] as int) % 256)
  }

  function Sha256(input: Bytes): Bytes {
    Serialize(Sha(input))
  }

  function HmacSha256(key: Bytes, data: Bytes): Bytes {
    Serialize(Hmac(key, data))
  }

  function PublicOf(secret: nat): Bytes {
    Serialize(PublicKey(secret))
  }

  predicate IsPublicKey(point: Bytes) {
    |point| > 0 && point[0].Part? && point[0].value.PublicKey? && point == Serialize(point[0].value)
  }

  function Agreement(secret: nat, point: Bytes): Value {
    if IsPublicKey(point) then
      var other := point[0].value.secret;
      Shared(Min(secret, other), Max(secret, other))
    else
      SharedWithJunk(secret, point)
  }

  /** Diffie-Hellman. A point that is nobody's public key yields a secret nobody shares. */
  function Dh(secret: nat, point: Bytes): Bytes {
    Serialize(Agreement(secret, point))
  }

  function Seal(key: Bytes, nonce: seq<Octet>, plain: Bytes, ad: Bytes): Bytes {
    Serialize(Box(key, nonce, ad, plain))
  }

  function Open(key: Bytes, nonce: seq<Octet>, cipher: Bytes, ad: Bytes): Option<Bytes> {
    if && |cipher| > 0 && cipher[0].Part? && cipher[0].value.Box?
       && cipher == Serialize(cipher[0].value)
       && cipher[0].value.key == key && cipher[0].value.nonce == nonce && cipher[0].value.ad == ad
    then Some(cipher[0].value.plain)
    else None
  }

  function Hkdf2(chainingKey: Bytes, input: Bytes): (Bytes, Bytes) {
    var temp := HmacSha256(chainingKey, input);
    var out1 := HmacSha256(temp, [Lit(1)]);
    (out1, HmacSha256(temp, out1 + [Lit(2)]))
  }

  lemma SerializeInjective(v: Value, w: Value)
    requires Serialize(v) == Serialize(w)
    ensures v == w
  {
    assert Serialize(v)[0] == Part(v, 0);
    assert Serialize(w)[0] == Part(w, 0);
  }

  lemma LiteralInjective(s: seq<Octet>, t: seq<Octet>)
    requires Literal(s) == Literal(t)
    ensures s == t
  {
    assert |s| == |t|;
    forall i | 0 <= i < |s| ensures s[i] == t[i] {
      assert Literal(s)[i] == Lit(s[i]);
      assert Literal(t)[i] == Lit(t[i]);
    }
  }

  /** Hashing a 32-byte state joined with data loses neither the state nor the data. */
  lemma ShaJoinInjective(h1: Bytes, d1: Bytes, h2: Bytes, d2: Bytes)
    requires |h1| == |h2|
    requires Sha256(h1 + d1) == Sha256(h2 + d2)
    ensures h1 == h2 && d1 == d2
  {
    SerializeInjective(Sha(h1 + d1), Sha(h2 + d2));
    assert h1 == (h1 + d1)[..|h1|] && h2 == (h2 + d2)[..|h2|];
    assert d1 == (h1 + d1)[|h1|..] && d2 == (h2 + d2)[|h2|..];
  }

  lemma Hkdf2Injective(ck1: Bytes, in1: Bytes, ck2: Bytes, in2: Bytes)
    requires Hkdf2(ck1, in1).0 == Hkdf2(ck2, in2).0 || Hkdf2(ck1, in1).1 == Hkdf2(ck2, in2).1
    ensures ck1 == ck2 && in1 == in2
  {
    var t1, t2 := HmacSha256(ck1, in1), HmacSha256(ck2, in2);
    var o1, o2 := HmacSha256(t1, [Lit(1)]), HmacSha256(t2, [Lit(1)]);
    if o1 == o2 {
      SerializeInjective(Hmac(t1, [Lit(1)]), Hmac(t2, [Lit(1)]));
    } else {
      SerializeInjective(Hmac(t1, o1 + [Lit(2)]), Hmac(t2, o2 + [Lit(2)]));
    }
    SerializeInjective(Hmac(ck1, in1), Hmac(ck2, in2));
  }

  lemma PublicOfIsPublicKey(secret: nat)
    ensures IsPublicKey(PublicOf(secret)) && PublicOf(secret)[0].value == PublicKey(secret)
  {
    assert PublicOf(secret)[0] == Part(PublicKey(secret), 0);
  }

  lemma DhSymmetric(a: nat, b: nat)
    ensures Dh(a, PublicOf(b)) == Dh(b, PublicOf(a))
  {
    PublicOfIsPublicKey(a);
    PublicOfIsPublicKey(b);
  }

  /** The secrets agree only when the point is the public half of the other secret. */
  lemma DhAgreesOnlyWithOwner(a: nat, point: Bytes, b: nat)
    requires Dh(a, point) == Dh(b, PublicOf(a))
    ensures point == PublicOf(b)
  {
    PublicOfIsPublicKey(a);
    var right := Shared(Min(b, a), Max(b, a));
    assert Dh(b, PublicOf(a)) == Serialize(right);
    if IsPublicKey(point) {
      var other := point[0].value.secret;
      SerializeInjective(Shared(Min(a, other), Max(a, other)), right);
      assert other == b;
    } else {
      SerializeInjective(SharedWithJunk(a, point), right);
    }
  }

  /** Agreements that coincide are of one secret, or of two with each other's public keys. */
  lemma DhDetermines(a: nat, p: Bytes, b: nat, q: Bytes)
    requires Dh(a, p) == Dh(b, q)
    ensures a == b || (p == PublicOf(b) && q == PublicOf(a))
  {
    SerializeInjective(Agreement(a, p), Agreement(b, q));
  }

  lemma OpenSeal(key: Bytes, nonce: seq<Octet>, plain: Bytes, ad: Bytes)
    ensures Open(key, nonce, Seal(key, nonce, plain, ad), ad) == Some(plain)
  {
    assert Seal(key, nonce, plain, ad)[0] == Part(Box(key, nonce, ad, plain), 0);
  }

  /** A box opens exactly under the parameters it was sealed with. */
  lemma OpenOnlySeal(key: Bytes, nonce: seq<Octet>, cipher: Bytes, ad: Bytes)
    requires Open(key, nonce, cipher, ad).Some?
    ensures cipher == Seal(key, nonce, Open(key, nonce, cipher, ad).value, ad)
  {
  }

  lemma SealInjective(k1: Bytes, n1: seq<Octet>, p1: Bytes, a1: Bytes, k2: Bytes, n2: seq<Octet>, p2: Bytes, a2: Bytes)
    requires Seal(k1, n1, p1, a1) == Seal(k2, n2, p2, a2)
    ensures k1 == k2 && n1 == n2 && p1 == p2 && a1 == a2
  {
    SerializeInjective(Box(k1, n1, a1, p1), Box(k2, n2, a2, p2));
  }
}
