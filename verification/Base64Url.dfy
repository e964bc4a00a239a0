/**
 The base64url pair of noise.js (section 5 of RFC 4648): the platform's `btoa`
 and `atob` with the alphabet and padding rewritten on either side.
 */
module Base64Url {
  import opened Prelude
  import opened SymbolicCrypto

  type Sextet = d: int | 0 <= d < 64

  // --------------------------------------------------------------- alphabets

  function StdDigit(d: Sextet): char {
    if d < 26 then ('A' as int + d) as char
    else if d < 52 then ('a' as int + d - 26) as char
    else if d < 62 then ('0' as int + d - 52) as char
    else if d == 62 then '+' else '/'
  }

  function StdValue(c: char): Option<Sextet> {
    if 'A' <= c <= 'Z' then Some(c as int - 'A' as int)
    else if 'a' <= c <= 'z' then Some(c as int - 'a' as int + 26)
    else if '0' <= c <= '9' then Some(c as int - '0' as int + 52)
    else if c == '+' then Some(62)
    else if c == '/' then Some(63)
    else None
  }

  predicate UrlSafe(c: char) {
    'A' <= c <= 'Z' || 'a' <= c <= 'z' || '0' <= c <= '9' || c == '-' || c == '_'
  }

  function ToUrlChar(c: char): char {
    if c == '+' then '-' else if c == '/' then '_' else c
  }

  function FromUrlChar(c: char): char {
    if c == '-' then '+' else if c == '_' then '/' else c
  }

  function ToUrl(s: string): (t: string)
    ensures |t| == |s|
  {
    seq(|s|, i requires 0 <= i < |s| => ToUrlChar(s[i]))
  }

  function FromUrl(s: string): (t: string)
    ensures |t| == |s|
  {
    seq(|s|, i requires 0 <= i < |s| => FromUrlChar(s[i]))
  }

  function StdText(d: seq<Sextet>): (s: string)
    ensures |s| == |d|
  {
    seq(|d|, i requires 0 <= i < |d| => StdDigit(d[i]))
  }

  function UrlText(d: seq<Sextet>): (s: string)
    ensures |s| == |d|
  {
    ToUrl(StdText(d))
  }

  // ------------------------------------------------------- the platform's pair

  // Three bytes and four digits, both cut from the same 24 bits.

  function Digit0(x: Octet): Sextet { x / 4 }
  function Digit1(x: Octet, y: Octet): Sextet { x % 4 * 16 + y / 16 }
  function Digit2(y: Octet, z: Octet): Sextet { y % 16 * 4 + z / 64 }
  function Digit3(z: Octet): Sextet { z % 64 }

  function Byte0(a: Sextet, b: Sextet): Octet { a * 4 + b / 16 }
  function Byte1(b: Sextet, c: Sextet): Octet { b % 16 * 16 + c / 4 }
  function Byte2(c: Sextet, d: Sextet): Octet { c % 4 * 64 + d }

  function Btoa(b: seq<Octet>): string {
    if |b| == 0 then ""
    else if |b| == 1 then StdText([Digit0(b[0]), Digit1(b[0], 0)]) + "=="
    else if |b| == 2 then StdText([Digit0(b[0]), Digit1(b[0], b[1]), Digit2(b[1], 0)]) + "="
    else StdText([Digit0(b[0]), Digit1(b[0], b[1]), Digit2(b[1], b[2]), Digit3(b[2])]) + Btoa(b[3..])
  }

  predicate AllDigits(s: string) {
    forall i :: 0 <= i < |s| ==> StdValue(s[i]).Some?
  }

  function Digits(s: string): (d: seq<Sextet>)
    requires AllDigits(s)
    ensures |d| == |s|
  {
    seq(|s|, i requires 0 <= i < |s| => StdValue(s[i]).value)
  }

  /** Four digits make three bytes; two or three left over make one or two and drop the spare bits. */
  function Pack(d: seq<Sextet>): seq<Octet> {
    if |d| >= 4 then [Byte0(d[0], d[1]), Byte1(d[1], d[2]), Byte2(d[2], d[3])] + Pack(d[4..])
    else if |d| == 3 then [Byte0(d[0], d[1]), Byte1(d[1], d[2])]
    else if |d| == 2 then [Byte0(d[0], d[1])]
    else []
  }

  function DropPadding(s: string): string {
    if |s| % 4 != 0 || |s| == 0 || s[|s| - 1] != '=' then s
    else if s[|s| - 2] == '=' then s[..|s| - 2]
    else s[..|s| - 1]
  }

  function Atob(s: string): Option<seq<Octet>> {
    var t := DropPadding(s);
    if |t| % 4 == 1 || !AllDigits(t) then None else Some(Pack(Digits(t)))
  }

  // ------------------------------------------------------------- the functions

  function StripPadding(s: string): string {
    if s != [] && s[|s| - 1] == '=' then StripPadding(s[..|s| - 1]) else s
  }

  function Encode(b: seq<Octet>): string {
    StripPadding(ToUrl(Btoa(b)))
  }

  function PadCount(n: nat): nat {
    (4 - n % 4) % 4
  }

  function Padding(n: nat): (s: string)
    ensures |s| == n
  {
    seq(n, _ => '=')
  }

  predicate AcceptedText(s: string) {
    s != "" && forall i :: 0 <= i < |s| ==> UrlSafe(s[i])
  }

  function Decode(s: string): Option<seq<Octet>> {
    if !AcceptedText(s) then None
    else Atob(FromUrl(s) + Padding(PadCount(|s|)))
  }

  method BytesToBase64Url(value: array<Octet>) returns (text: string)
    ensures text == Encode(value[..])
  {
    var s: seq<Octet> := [];
    for i := 0 to value.Length
      invariant s == value[..i]
    {
      s := s + [value[i]];
    }
    assert s == value[..];
    text := StripPadding(ToUrl(Btoa(s)));
  }

  // ------------------------------------------------------------------ the laws

  /** The digits of a byte string, without padding. */
  function Unpack(b: seq<Octet>): (d: seq<Sextet>)
    ensures |d| == (4 * |b| + 2) / 3
  {
    if |b| == 0 then []
    else if |b| == 1 then [Digit0(b[0]), Digit1(b[0], 0)]
    else if |b| == 2 then [Digit0(b[0]), Digit1(b[0], b[1]), Digit2(b[1], 0)]
    else [Digit0(b[0]), Digit1(b[0], b[1]), Digit2(b[1], b[2]), Digit3(b[2])] + Unpack(b[3..])
  }

  lemma BytesComeBack(x: Octet, y: Octet, z: Octet)
    ensures Byte0(Digit0(x), Digit1(x, y)) == x
    ensures Byte1(Digit1(x, y), Digit2(y, z)) == y
    ensures Byte2(Digit2(y, z), Digit3(z)) == z
  {
  }

  lemma PackGroup(a: Sextet, b: Sextet, c: Sextet, d: Sextet, rest: seq<Sextet>)
    ensures Pack([a, b, c, d] + rest) == [Byte0(a, b), Byte1(b, c), Byte2(c, d)] + Pack(rest)
  {
    assert ([a, b, c, d] + rest)[4..] == rest;
  }

  lemma PackTwo(a: Sextet, b: Sextet)
    ensures Pack([a, b]) == [Byte0(a, b)]
  {
  }

  lemma PackThree(a: Sextet, b: Sextet, c: Sextet)
    ensures Pack([a, b, c]) == [Byte0(a, b), Byte1(b, c)]
  {
  }

  lemma PackUnpackGroup(x: Octet, y: Octet, z: Octet, rest: seq<Octet>)
    requires Pack(Unpack(rest)) == rest
    ensures Pack(Unpack([x, y, z] + rest)) == [x, y, z] + rest
  {
    UnpackGroup(x, y, z, rest);
    PackGroup(Digit0(x), Digit1(x, y), Digit2(y, z), Digit3(z), Unpack(rest));
    BytesComeBack(x, y, z);
  }

  lemma PackUnpackOne(x: Octet)
    ensures Pack(Unpack([x])) == [x]
  {
    BytesComeBack(x, 0, 0);
    PackTwo(Digit0(x), Digit1(x, 0));
  }

  lemma PackUnpackTwo(x: Octet, y: Octet)
    ensures Pack(Unpack([x, y])) == [x, y]
  {
    BytesComeBack(x, y, 0);
    PackThree(Digit0(x), Digit1(x, y), Digit2(y, 0));
  }

  lemma {:induction false} PackUnpack(b: seq<Octet>)
    ensures Pack(Unpack(b)) == b
  {
    if |b| >= 3 {
      PackUnpack(b[3..]);
      PackUnpackGroup(b[0], b[1], b[2], b[3..]);
      assert b == [b[0], b[1], b[2]] + b[3..];
    } else if |b| == 2 {
      PackUnpackTwo(b[0], b[1]);
      assert b == [b[0], b[1]];
    } else if |b| == 1 {
      PackUnpackOne(b[0]);
      assert b == [b[0]];
    }
  }

  /** Whole groups, then two or three digits whose spare bits are zero, or nothing. */
  predicate Canonical(d: seq<Sextet>) {
    if |d| >= 4 then Canonical(d[4..])
    else if |d| == 3 then d[2] % 4 == 0
    else if |d| == 2 then d[1] % 16 == 0
    else d == []
  }

  lemma GroupRoundTrip(a: Sextet, b: Sextet, c: Sextet, d: Sextet)
    ensures Digit0(Byte0(a, b)) == a
    ensures Digit1(Byte0(a, b), Byte1(b, c)) == b
    ensures Digit2(Byte1(b, c), Byte2(c, d)) == c
    ensures Digit3(Byte2(c, d)) == d
    ensures Digit1(Byte0(a, b), 0) == b <==> b % 16 == 0
    ensures Digit2(Byte1(b, c), 0) == c <==> c % 4 == 0
  {
  }

  lemma UnpackGroup(x: Octet, y: Octet, z: Octet, rest: seq<Octet>)
    ensures Unpack([x, y, z] + rest) == [Digit0(x), Digit1(x, y), Digit2(y, z), Digit3(z)] + Unpack(rest)
  {
    assert ([x, y, z] + rest)[3..] == rest;
  }

  lemma GroupComesBack(a: Sextet, b: Sextet, c: Sextet, d: Sextet, rest: seq<Octet>)
    ensures Unpack([Byte0(a, b), Byte1(b, c), Byte2(c, d)] + rest) == [a, b, c, d] + Unpack(rest)
  {
    GroupRoundTrip(a, b, c, d);
    UnpackGroup(Byte0(a, b), Byte1(b, c), Byte2(c, d), rest);
  }

  lemma UnpackPackGroup(a: Sextet, b: Sextet, c: Sextet, d: Sextet, rest: seq<Sextet>)
    ensures Unpack(Pack([a, b, c, d] + rest)) == [a, b, c, d] + rest <==> Unpack(Pack(rest)) == rest
  {
    PackGroup(a, b, c, d, rest);
    GroupComesBack(a, b, c, d, Pack(rest));
    PrefixCancels([a, b, c, d], Unpack(Pack(rest)), rest);
  }

  /** Digits survive packing exactly when they are canonical. */
  lemma {:induction false} UnpackPack(d: seq<Sextet>)
    ensures Unpack(Pack(d)) == d <==> Canonical(d)
  {
    if |d| >= 4 {
      assert d == [d[0], d[1], d[2], d[3]] + d[4..];
      UnpackPack(d[4..]);
      UnpackPackGroup(d[0], d[1], d[2], d[3], d[4..]);
    } else if |d| == 3 {
      UnpackPackThree(d, d);
    } else if |d| == 2 {
      UnpackPackTwo(d, d);
    } else {
      FewDigits(d);
    }
  }

  lemma UnpackPackThree(d: seq<Sextet>, e: seq<Sextet>)
    requires |d| == 3 && e == [d[0], d[1], d[2]]
    ensures Unpack(Pack(e)) == e <==> Canonical(e)
  {
    ThreeDigits(d[0], d[1], d[2]);
    CanonicalThree(d[0], d[1], d[2]);
  }

  lemma UnpackPackTwo(d: seq<Sextet>, e: seq<Sextet>)
    requires |d| == 2 && e == [d[0], d[1]]
    ensures Unpack(Pack(e)) == e <==> Canonical(e)
  {
    TwoDigits(d[0], d[1]);
    CanonicalTwo(d[0], d[1]);
  }

  lemma FewDigits(d: seq<Sextet>)
    requires |d| < 2
    ensures Unpack(Pack(d)) == [] && (Canonical(d) <==> d == [])
  {
  }

  lemma CanonicalThree(a: Sextet, b: Sextet, c: Sextet)
    ensures Canonical([a, b, c]) <==> c % 4 == 0
  {
  }

  lemma CanonicalTwo(a: Sextet, b: Sextet)
    ensures Canonical([a, b]) <==> b % 16 == 0
  {
  }

  lemma ThreeDigits(a: Sextet, b: Sextet, c: Sextet)
    ensures Unpack(Pack([a, b, c])) == [a, b, c] <==> c % 4 == 0
  {
    GroupRoundTrip(a, b, c, 0);
    assert Pack([a, b, c]) == [Byte0(a, b), Byte1(b, c)];
    assert Unpack([Byte0(a, b), Byte1(b, c)]) == [a, b, Digit2(Byte1(b, c), 0)];
  }

  lemma TwoDigits(a: Sextet, b: Sextet)
    ensures Unpack(Pack([a, b])) == [a, b] <==> b % 16 == 0
  {
    GroupRoundTrip(a, b, 0, 0);
    assert Pack([a, b]) == [Byte0(a, b)];
    assert Unpack([Byte0(a, b)]) == [a, Digit1(Byte0(a, b), 0)];
  }

  lemma PrefixCancels(a: seq<Sextet>, x: seq<Sextet>, y: seq<Sextet>)
    ensures a + x == a + y <==> x == y
  {
    assert (a + x)[|a|..] == x && (a + y)[|a|..] == y;
  }

  lemma DigitRoundTrip(d: Sextet)
    ensures StdValue(StdDigit(d)) == Some(d)
    ensures FromUrlChar(ToUrlChar(StdDigit(d))) == StdDigit(d)
    ensures UrlSafe(ToUrlChar(StdDigit(d))) && ToUrlChar(StdDigit(d)) != '='
  {
  }

  lemma DigitOfValue(c: char)
    requires StdValue(c).Some?
    ensures StdDigit(StdValue(c).value) == c
  {
  }

  lemma {:induction false} StripPaddingAfter(x: string, y: string)
    requires y != [] && y[0] != '='
    ensures StripPadding(x + y) == x + StripPadding(y)
    decreases |y|
  {
    if y[|y| - 1] == '=' {
      assert (x + y)[..|x + y| - 1] == x + y[..|y| - 1];
      StripPaddingAfter(x, y[..|y| - 1]);
    }
  }

  lemma ToUrlConcat(x: string, y: string)
    ensures ToUrl(x + y) == ToUrl(x) + ToUrl(y)
  {
  }

  lemma StdTextConcat(d: seq<Sextet>, e: seq<Sextet>)
    ensures StdText(d + e) == StdText(d) + StdText(e)
  {
  }

  /** Rewriting one whole group leaves the stripping to what follows it. */
  lemma StripGroup(head: seq<Sextet>, rest: seq<Octet>)
    requires head != []
    ensures StripPadding(ToUrl(StdText(head) + Btoa(rest))) == UrlText(head) + Encode(rest)
  {
    ToUrlConcat(StdText(head), Btoa(rest));
    if rest == [] {
      ShortTail(head, 0);
      assert UrlText(head) + Padding(0) == UrlText(head);
      assert UrlText(head) + ToUrl("") == UrlText(head);
      assert Encode(rest) == "";
    } else {
      var tail := ToUrl(Btoa(rest));
      assert tail[0] == ToUrlChar(StdDigit(Digit0(rest[0])));
      DigitRoundTrip(Digit0(rest[0]));
      StripPaddingAfter(UrlText(head), tail);
    }
  }

  /** Digits followed by padding signs encode to the digits alone. */
  lemma StripAfterDigits(d: seq<Sextet>, n: nat)
    requires d != []
    ensures StripPadding(ToUrl(StdText(d) + Padding(n))) == UrlText(d)
  {
    ShortTail(d, n);
    ToUrlConcat(StdText(d), Padding(n));
    assert ToUrl(Padding(n)) == Padding(n);
  }

  lemma EncodeOne(x: Octet)
    ensures Encode([x]) == UrlText(Unpack([x]))
  {
    StripAfterDigits([Digit0(x), Digit1(x, 0)], 2);
    assert Padding(2) == "==";
  }

  lemma EncodeTwo(x: Octet, y: Octet)
    ensures Encode([x, y]) == UrlText(Unpack([x, y]))
  {
    StripAfterDigits([Digit0(x), Digit1(x, y), Digit2(y, 0)], 1);
    assert Padding(1) == "=";
  }

  lemma {:induction false} EncodeIsDigits(b: seq<Octet>)
    ensures Encode(b) == UrlText(Unpack(b))
  {
    if |b| == 0 {
    } else if |b| == 1 {
      assert b == [b[0]];
      EncodeOne(b[0]);
    } else if |b| == 2 {
      assert b == [b[0], b[1]];
      EncodeTwo(b[0], b[1]);
    } else {
      var head := [Digit0(b[0]), Digit1(b[0], b[1]), Digit2(b[1], b[2]), Digit3(b[2])];
      EncodeIsDigits(b[3..]);
      StripGroup(head, b[3..]);
      StdTextConcat(head, Unpack(b[3..]));
      ToUrlConcat(StdText(head), StdText(Unpack(b[3..])));
    }
  }

  /** Padding after digits is exactly what stripping removes. */
  lemma {:induction false} ShortTail(d: seq<Sextet>, n: nat)
    requires d != []
    ensures StripPadding(UrlText(d) + Padding(n)) == UrlText(d)
  {
    var s := UrlText(d) + Padding(n);
    if n == 0 {
      DigitRoundTrip(d[|d| - 1]);
      assert s == UrlText(d);
    } else {
      assert s[..|s| - 1] == UrlText(d) + Padding(n - 1);
      ShortTail(d, n - 1);
    }
  }

  lemma UrlTextReadsBack(d: seq<Sextet>)
    ensures forall i :: 0 <= i < |d| ==> UrlSafe(UrlText(d)[i])
    ensures FromUrl(UrlText(d)) == StdText(d)
    ensures AllDigits(StdText(d)) && Digits(StdText(d)) == d
  {
    forall i | 0 <= i < |d|
      ensures UrlSafe(UrlText(d)[i]) && FromUrlChar(UrlText(d)[i]) == StdText(d)[i]
              && StdValue(StdText(d)[i]) == Some(d[i]) {
      DigitRoundTrip(d[i]);
    }
  }

  lemma PadCountFills(n: nat)
    ensures (n + PadCount(n)) % 4 == 0
    ensures PadCount(n) == match n % 4 case 0 => 0 case 1 => 3 case 2 => 2 case _ => 1
  {
  }

  lemma DropNone(s: string)
    requires s != "" && s[|s| - 1] != '='
    ensures DropPadding(s + Padding(0)) == s
  {
    assert s + Padding(0) == s;
  }

  lemma DropOne(s: string)
    requires s != "" && s[|s| - 1] != '=' && (|s| + 1) % 4 == 0
    ensures DropPadding(s + Padding(1)) == s
  {
    var padded := s + Padding(1);
    assert padded[|padded| - 1] == '=' && padded[|padded| - 2] == s[|s| - 1];
    assert padded[..|padded| - 1] == s;
  }

  /** Two signs come off; of three the first stays. */
  lemma DropTwo(s: string, k: nat)
    requires k >= 2 && (|s| + k) % 4 == 0
    ensures DropPadding(s + Padding(k)) == s + Padding(k - 2)
  {
    var padded := s + Padding(k);
    assert padded[|padded| - 1] == '=' && padded[|padded| - 2] == '=';
    assert padded[..|padded| - 2] == s + Padding(k - 2);
  }

  /** `padEnd` adds at most two signs that `atob` takes off again, or a third that it rejects. */
  lemma PaddingComesOff(s: string)
    requires s != "" && s[|s| - 1] != '='
    ensures |s| % 4 != 1 ==> DropPadding(s + Padding(PadCount(|s|))) == s
    ensures |s| % 4 == 1 ==> DropPadding(s + Padding(PadCount(|s|))) == s + "="
  {
    PadCountFills(|s|);
    var k := PadCount(|s|);
    if k == 0 {
      DropNone(s);
    } else if k == 1 {
      DropOne(s);
    } else {
      DropTwo(s, k);
      assert s + Padding(0) == s && s + Padding(1) == s + "=";
    }
  }

  /** Decoding any digits of a possible length yields their packing. */
  lemma DecodeDigits(d: seq<Sextet>)
    requires d != [] && |d| % 4 != 1
    ensures Decode(UrlText(d)) == Some(Pack(d))
  {
    UrlTextReadsBack(d);
    DigitRoundTrip(d[|d| - 1]);
    PaddingComesOff(StdText(d));
  }

  /** Exactly the non-empty byte strings survive: the empty text is refused. */
  lemma RoundTrip(b: seq<Octet>)
    ensures Decode(Encode(b)) == Some(b) <==> b != []
    ensures |Encode(b)| == (4 * |b| + 2) / 3
    ensures forall i :: 0 <= i < |Encode(b)| ==> UrlSafe(Encode(b)[i])
  {
    EncodeIsDigits(b);
    var d := Unpack(b);
    UrlTextReadsBack(d);
    if b != [] {
      DecodeDigits(d);
      PackUnpack(b);
    }
  }

  function UrlDigits(s: string): (d: seq<Sextet>)
    requires AcceptedText(s)
    ensures |d| == |s|
  {
    seq(|s|, i requires 0 <= i < |s| => StdValue(FromUrlChar(s[i])).value)
  }

  lemma UrlDigitsSpell(s: string)
    requires AcceptedText(s)
    ensures UrlText(UrlDigits(s)) == s
  {
    forall i | 0 <= i < |s| ensures UrlText(UrlDigits(s))[i] == s[i] {
      DigitOfValue(FromUrlChar(s[i]));
    }
  }

  lemma UrlTextInjective(d: seq<Sextet>, e: seq<Sextet>)
    requires UrlText(d) == UrlText(e)
    ensures d == e
  {
    assert |d| == |e|;
    forall i | 0 <= i < |d| ensures d[i] == e[i] {
      assert UrlText(d)[i] == UrlText(e)[i];
      DigitRoundTrip(d[i]);
      DigitRoundTrip(e[i]);
    }
  }

  /**
   The decoder takes every alphabet text whose length is not 1 modulo 4; it is
   the only text of its bytes exactly when its spare bits are zero.
   */
  lemma DecodeDomain(s: string)
    requires AcceptedText(s)
    ensures Decode(s).Some? <==> |s| % 4 != 1
    ensures Decode(s).Some? ==> (Encode(Decode(s).value) == s <==> Canonical(UrlDigits(s)))
  {
    UrlDigitsSpell(s);
    var d := UrlDigits(s);
    if |s| % 4 == 1 {
      UrlTextReadsBack(d);
      DigitRoundTrip(d[|d| - 1]);
      PaddingComesOff(StdText(d));
      assert (StdText(d) + "=")[|d|] == '=';
    } else {
      DecodeDigits(d);
      EncodeIsDigits(Pack(d));
      UnpackPack(d);
      if UrlText(Unpack(Pack(d))) == UrlText(d) {
        UrlTextInjective(Unpack(Pack(d)), d);
      }
    }
  }
}
