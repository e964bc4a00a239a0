/**
 Counter nonces, CipherState and SymmetricState of noise.js. The classes change
 their fields in place as the source does; each method is proved against a
 function on values, and the laws are lemmas about those functions.
 */
module Ciphers {
  import opened Prelude
  import opened SymbolicCrypto

  const MAX_NOISE_MESSAGE := 65535
  const MAX_PLAINTEXT_FRAME := MAX_NOISE_MESSAGE - TAG_LENGTH
  const MAX_SAFE_INTEGER := 0x1F_FFFF_FFFF_FFFF
  const NONCE_LIMIT := 0x100_0000_0000_0000

  datatype NoiseError =
    | NonceExhausted
    | MessageTooLong
    | AuthenticationFailed
    | InvalidArgument
    | InvalidInitiatorMessage
    | UnboundClientKey
    | UnexpectedPayload
    | InvalidResponse
    | ChannelNotOpen

  // ---------------------------------------------------------------- nonces

  /** The `width` low-order bytes of `n`, least significant first. */
  function LittleEndian(n: nat, width: nat): (b: seq<Octet>)
    ensures |b| == width
  {
    if width == 0 then [] else [n % 256] + LittleEndian(n / 256, width - 1)
  }

  function FromLittleEndian(b: seq<Octet>): nat {
    if b == [] then 0 else b[0] + 256 * FromLittleEndian(b[1..])
  }

  function Power256(width: nat): (p: nat)
    ensures p > 0
  {
    if width == 0 then 1 else 256 * Power256(width - 1)
  }

  lemma {:induction false} LittleEndianRoundTrip(n: nat, width: nat)
    requires n < Power256(width)
    ensures FromLittleEndian(LittleEndian(n, width)) == n
  {
    if width > 0 {
      LittleEndianRoundTrip(n / 256, width - 1);
      assert LittleEndian(n, width)[1..] == LittleEndian(n / 256, width - 1);
    }
  }

  function NonceBytes(counter: nat): (b: seq<Octet>)
    ensures |b| == 12
  {
    [0, 0, 0, 0] + LittleEndian(counter, 8)
  }

  /** `Number.isSafeInteger` is the binding bound: the later 2^56 comparison never decides. */
  predicate UsableCounter(counter: int) {
    0 <= counter <= MAX_SAFE_INTEGER && counter < NONCE_LIMIT
  }

  lemma SafeIntegerBoundDecides(counter: int)
    ensures UsableCounter(counter) <==> 0 <= counter <= MAX_SAFE_INTEGER
    ensures UsableCounter(MAX_SAFE_INTEGER) && !UsableCounter(MAX_SAFE_INTEGER + 1)
  {
  }

  lemma Power256Of8()
    ensures Power256(8) > MAX_SAFE_INTEGER
  {
    assert Power256(4) == 256 * Power256(3) == 256 * (256 * (256 * (256 * Power256(0))));
    assert Power256(8) == 256 * (256 * (256 * (256 * Power256(4))));
  }

  /** The last eight nonce bytes decode to the counter, so distinct counters have distinct nonces. */
  lemma NonceDecodes(counter: nat)
    requires UsableCounter(counter)
    ensures FromLittleEndian(NonceBytes(counter)[4..]) == counter
    ensures NonceBytes(counter)[..4] == [0, 0, 0, 0]
  {
    Power256Of8();
    LittleEndianRoundTrip(counter, 8);
    assert NonceBytes(counter)[4..] == LittleEndian(counter, 8);
  }

  lemma NonceInjective(a: nat, b: nat)
    requires UsableCounter(a) && UsableCounter(b)
    requires NonceBytes(a) == NonceBytes(b)
    ensures a == b
  {
    NonceDecodes(a);
    NonceDecodes(b);
  }

  function ShiftRight(n: nat, bytes: nat): nat {
    if bytes == 0 then n else ShiftRight(n / 256, bytes - 1)
  }

  lemma {:induction false} ShiftOnce(n: nat, bytes: nat)
    ensures ShiftRight(n, bytes) / 256 == ShiftRight(n, bytes + 1)
  {
    if bytes > 0 {
      ShiftOnce(n / 256, bytes - 1);
    }
  }

  lemma {:induction false} LittleEndianAt(n: nat, width: nat, i: nat)
    requires i < width
    ensures LittleEndian(n, width)[i] == ShiftRight(n, i) % 256
  {
    if i > 0 {
      LittleEndianAt(n / 256, width - 1, i - 1);
    }
  }

  method NonceFor(counter: int) returns (r: Result<seq<Octet>, NoiseError>)
    ensures r.Ok? <==> UsableCounter(counter)
    ensures r.Ok? ==> r.value == NonceBytes(counter)
    ensures r.Err? ==> r.error == NonceExhausted
  {
    if !(0 <= counter <= MAX_SAFE_INTEGER) || counter >= NONCE_LIMIT {
      return Err(NonceExhausted);
    }
    var out := new Octet[12](_ => 0);
    var n: nat := counter;
    for i := 4 to 12
      invariant n == ShiftRight(counter, i - 4)
      invariant forall k :: 0 <= k < 4 ==> out[k] == 0
      invariant forall k :: 4 <= k < i ==> out[k] == ShiftRight(counter, k - 4) % 256
    {
      out[i] := n % 256;
      ShiftOnce(counter, i - 4);
      n := n / 256;
    }
    forall k | 4 <= k < 12 ensures out[k] == NonceBytes(counter)[k] {
      LittleEndianAt(counter, 8, k - 4);
    }
    assert out[..] == NonceBytes(counter);
    r := Ok(out[..]);
  }

  // ---------------------------------------------------------- cipher state

  datatype Cipher = Cipher(key: Option<Bytes>, nonce: nat)

  /** What sealing `plain` under `c` yields; the counter moves only when a box is made. */
  function Encrypt(c: Cipher, plain: Bytes, ad: Bytes): (Cipher, Result<Bytes, NoiseError>) {
    if |plain| > MAX_PLAINTEXT_FRAME then (c, Err(MessageTooLong))
    else if c.key.None? then (c, Ok(plain))
    else if !UsableCounter(c.nonce) then (c, Err(NonceExhausted))
    else (c.(nonce := c.nonce + 1), Ok(Seal(c.key.value, NonceBytes(c.nonce), plain, ad)))
  }

  function Decrypt(c: Cipher, cipher: Bytes, ad: Bytes): (Cipher, Result<Bytes, NoiseError>) {
    if |cipher| > MAX_NOISE_MESSAGE then (c, Err(MessageTooLong))
    else if c.key.None? then (c, Ok(cipher))
    else if !UsableCounter(c.nonce) then (c, Err(NonceExhausted))
    else
      match Open(c.key.value, NonceBytes(c.nonce), cipher, ad)
      case None => (c, Err(AuthenticationFailed))
      case Some(plain) => (c.(nonce := c.nonce + 1), Ok(plain))
  }

  /** A peer in the same state opens every box, and both counters move together. */
  lemma DecryptEncrypt(c: Cipher, plain: Bytes, ad: Bytes)
    requires c.key.Some? && Encrypt(c, plain, ad).1.Ok?
    ensures Decrypt(c, Encrypt(c, plain, ad).1.value, ad) == (Encrypt(c, plain, ad).0, Ok(plain))
    ensures |Encrypt(c, plain, ad).1.value| == |plain| + TAG_LENGTH <= MAX_NOISE_MESSAGE
  {
    OpenSeal(c.key.value, NonceBytes(c.nonce), plain, ad);
  }

  /** Sealing fails only on a plaintext over 65519 bytes or a spent counter, and a keyless state passes text through. */
  lemma EncryptOkIff(c: Cipher, plain: Bytes, ad: Bytes)
    ensures var (next, r) := Encrypt(c, plain, ad);
            && (r.Ok? <==> |plain| <= 65519 && (c.key.Some? ==> c.nonce < 0x20_0000_0000_0000))
            && (r.Ok? && c.key.None? ==> r.value == plain)
            && next == c.(nonce := c.nonce + if r.Ok? && c.key.Some? then 1 else 0)
  {
  }

  class CipherState {
    var key: Option<Bytes>
    var nonce: nat

    ghost function View(): Cipher
      reads this
    {
      Cipher(key, nonce)
    }

    constructor (key: Option<Bytes>)
      ensures View() == Cipher(key, 0)
    {
      this.key := key;
      this.nonce := 0;
    }

    method EncryptWithAd(plain: Bytes, ad: Bytes) returns (r: Result<Bytes, NoiseError>)
      modifies this
      ensures (View(), r) == Encrypt(old(View()), plain, ad)
      ensures r.Err? ==> View() == old(View())
    {
      if |plain| > MAX_PLAINTEXT_FRAME {
        return Err(MessageTooLong);
      }
      if key.None? {
        return Ok(plain);
      }
      var n := NonceFor(nonce);
      if n.Err? {
        return Err(n.error);
      }
      r := Ok(Seal(key.value, n.value, plain, ad));
      nonce := nonce + 1;
    }

    method DecryptWithAd(cipher: Bytes, ad: Bytes) returns (r: Result<Bytes, NoiseError>)
      modifies this
      ensures (View(), r) == Decrypt(old(View()), cipher, ad)
      ensures r.Err? ==> View() == old(View())
    {
      if |cipher| > MAX_NOISE_MESSAGE {
        return Err(MessageTooLong);
      }
      if key.None? {
        return Ok(cipher);
      }
      var n := NonceFor(nonce);
      if n.Err? {
        return Err(n.error);
      }
      var plain := Open(key.value, n.value, cipher, ad);
      if plain.None? {
        return Err(AuthenticationFailed);
      }
      nonce := nonce + 1;
      r := Ok(plain.value);
    }
  }

  // ------------------------------------------------------- symmetric state

  datatype Symmetric = Symmetric(h: Bytes, ck: Bytes, cs: Cipher)

  /** The protocol name is exactly 32 bytes, so it is the initial hash unhashed. */
  function ProtocolName(): (s: seq<Octet>)
    ensures |s| == KEY_LENGTH
  {
    Ascii("Noise_IK_25519_ChaChaPoly_SHA256")
  }

  function InitialSymmetric(): Symmetric {
    Symmetric(Literal(ProtocolName()), Literal(ProtocolName()), Cipher(None, 0))
  }

  function MixHash(s: Symmetric, data: Bytes): Symmetric {
    s.(h := Sha256(s.h + data))
  }

  function MixKey(s: Symmetric, input: Bytes): Symmetric {
    var pair := Hkdf2(s.ck, input);
    Symmetric(s.h, pair.0, Cipher(Some(pair.1), 0))
  }

  function EncryptAndHash(s: Symmetric, data: Bytes): (Symmetric, Result<Bytes, NoiseError>) {
    var (cs, r) := Encrypt(s.cs, data, s.h);
    if r.Err? then (s, r) else (MixHash(s.(cs := cs), r.value), r)
  }

  function DecryptAndHash(s: Symmetric, data: Bytes): (Symmetric, Result<Bytes, NoiseError>) {
    var (cs, r) := Decrypt(s.cs, data, s.h);
    if r.Err? then (s, r) else (MixHash(s.(cs := cs), data), r)
  }

  function Split(s: Symmetric): (Cipher, Cipher) {
    var pair := Hkdf2(s.ck, []);
    (Cipher(Some(pair.0), 0), Cipher(Some(pair.1), 0))
  }

  /** Reading back what an identical state wrote leaves both states identical. */
  lemma DecryptAndHashInverts(s: Symmetric, data: Bytes)
    requires s.cs.key.Some? && EncryptAndHash(s, data).1.Ok?
    ensures DecryptAndHash(s, EncryptAndHash(s, data).1.value) == (EncryptAndHash(s, data).0, Ok(data))
  {
    DecryptEncrypt(s.cs, data, s.h);
  }

  class SymmetricState {
    var h: Bytes
    var ck: Bytes
    var cs: CipherState

    ghost function View(): Symmetric
      reads this, cs
    {
      Symmetric(h, ck, cs.View())
    }

    constructor ()
      ensures View() == InitialSymmetric() && fresh(cs)
    {
      h := Literal(ProtocolName());
      ck := Literal(ProtocolName());
      cs := new CipherState(None);
    }

    method MixHashWith(data: Bytes)
      modifies this`h
      ensures View() == MixHash(old(View()), data)
    {
      h := Sha256(h + data);
    }

    method MixKeyWith(input: Bytes)
      modifies this`ck, this`cs
      ensures View() == MixKey(old(View()), input) && fresh(cs)
    {
      var pair := Hkdf2(ck, input);
      ck := pair.0;
      cs := new CipherState(Some(pair.1));
    }

    method Write(data: Bytes) returns (r: Result<Bytes, NoiseError>)
      modifies this`h, cs
      ensures (View(), r) == EncryptAndHash(old(View()), data)
    {
      r := cs.EncryptWithAd(data, h);
      if r.Ok? {
        MixHashWith(r.value);
      }
    }

    method Read(data: Bytes) returns (r: Result<Bytes, NoiseError>)
      modifies this`h, cs
      ensures (View(), r) == DecryptAndHash(old(View()), data)
    {
      r := cs.DecryptWithAd(data, h);
      if r.Ok? {
        MixHashWith(data);
      }
    }

    method SplitKeys() returns (first: CipherState, second: CipherState)
      ensures fresh(first) && fresh(second) && first != second
      ensures (first.View(), second.View()) == Split(View())
    {
      var pair := Hkdf2(ck, []);
      first := new CipherState(Some(pair.0));
      second := new CipherState(Some(pair.1));
    }
  }
}
