/**
 DSSE envelopes with one signature: the pre-authentication encoding of the DSSE protocol
 (version 1.0.2, section "Signature Definition") and strict base64 (RFC 4648, sections 3.5,
 4 and 5).
 */
module Dsse {
  import opened Wrappers
  import opened Bytes

  datatype Error = InvalidPayloadType | InvalidBase64 | InvalidKey | InvalidPayload | UntrustedKey | InvalidSignature

  // ----- Pre-authentication encoding -------------------------------------------------------------

  const DSSE_V1: Octets := Ascii("DSSEv1 ")

  predicate IsPayloadType(t: Octets) { t != [] && forall b <- t :: b < 128 }

  function Framed(payload: Octets): Octets { Decimal(|payload|) + [SPACE] + payload }

  function Encoding(t: Octets, payload: Octets): Octets {
    DSSE_V1 + (Decimal(|t|) + [SPACE] + (t + ([SPACE] + Framed(payload))))
  }

  function Pae(t: Octets, payload: Octets): Result<Octets, Error> {
    if !IsPayloadType(t) then Err(InvalidPayloadType) else Ok(Encoding(t, payload))
  }

  /** The encoding determines both the type, spaces and all, and the payload. */
  lemma PaeInjective(t1: Octets, p1: Octets, t2: Octets, p2: Octets)
    requires Encoding(t1, p1) == Encoding(t2, p2)
    ensures t1 == t2 && p1 == p2
  {
    hide Decimal;
    var r1, r2 := [SPACE] + Framed(p1), [SPACE] + Framed(p2);
    assert r1[1..] == Framed(p1) && r2[1..] == Framed(p2);
    hide Framed;
    HeadsAgree(DSSE_V1, Decimal(|t1|) + [SPACE] + (t1 + r1), DSSE_V1, Decimal(|t2|) + [SPACE] + (t2 + r2));
    DecimalsAgree(|t1|, t1 + r1, |t2|, t2 + r2);
    HeadsAgree(t1, r1, t2, r2);
    FramedInjective(p1, p2);
  }

  lemma FramedInjective(p1: Octets, p2: Octets)
    requires Framed(p1) == Framed(p2)
    ensures p1 == p2
  {
    DecimalsAgree(|p1|, p1, |p2|, p2);
  }

  lemma OneDigit(n: nat)
    requires n < 10
    ensures Decimal(n) == [(48 + n) as Byte]
  {
  }

  const HELLO_TYPE: Octets := Ascii("http://example.com/HelloWorld")
  const HELLO: Octets := Ascii("hello world")

  lemma HelloLengths()
    ensures |HELLO_TYPE| == 29 && |HELLO| == 11 && forall b <- HELLO_TYPE :: b < 128
  {
    hide Ascii;
  }

  /** The example of the DSSE protocol, section "Test Vectors": "DSSEv1 29 http://example.com/HelloWorld 11 hello world". */
  lemma EncodingOfHello()
    ensures Pae(HELLO_TYPE, HELLO) == Ok(Ascii("DSSEv1 ") + [50, 57, 32] + HELLO_TYPE + [32, 49, 49, 32] + HELLO)
  {
    HelloLengths();
    hide HELLO_TYPE, HELLO, Ascii;
    OneDigit(2);
    OneDigit(1);
    assert Decimal(29) == [50, 57] && Decimal(11) == [49, 49];
    hide Decimal, DSSE_V1;
    EncodingOfTwo(HELLO_TYPE, HELLO, [50, 57], [49, 49]);
    assert [50, 57] + [32] == [50, 57, 32] && [32] + [49, 49] + [32] == [32, 49, 49, 32];
  }

  lemma EncodingOfTwo(t: Octets, payload: Octets, m: Octets, n: Octets)
    requires t != [] && (forall b <- t :: b < 128) && Decimal(|t|) == m && Decimal(|payload|) == n
    ensures Pae(t, payload) == Ok(DSSE_V1 + (m + [32]) + t + ([32] + n + [32]) + payload)
  {
    hide Decimal, Ascii, DSSE_V1;
    Regroup(DSSE_V1, m, t, n, payload);
  }

  lemma Regroup(v: Octets, m: Octets, t: Octets, n: Octets, payload: Octets)
    ensures v + (m + [32] + (t + ([32] + (n + [32] + payload)))) == v + (m + [32]) + t + ([32] + n + [32]) + payload
  {
    assert [32] + (n + [32] + payload) == ([32] + n + [32]) + payload;
    assert t + (([32] + n + [32]) + payload) == (t + ([32] + n + [32])) + payload;
    assert m + [32] + ((t + ([32] + n + [32])) + payload) == (m + [32]) + t + ([32] + n + [32]) + payload;
  }

  // ----- Base64 --------------------------------------------------------------------------------------

  datatype Alphabet = Standard | UrlSafe

  type Sextet = n: int | 0 <= n < 64

  function Symbol(n: Sextet, a: Alphabet): char {
    if n < 26 then 'A' + n as char
    else if n < 52 then 'a' + (n - 26) as char
    else if n < 62 then '0' + (n - 52) as char
    else if n == 62 then (if a.Standard? then '+' else '-')
    else if a.Standard? then '/' else '_'
  }

  function SymbolValue(c: char, a: Alphabet): Option<Sextet> {
    if 'A' <= c <= 'Z' then Some((c as int - 'A' as int) as Sextet)
    else if 'a' <= c <= 'z' then Some((c as int - 'a' as int + 26) as Sextet)
    else if '0' <= c <= '9' then Some((c as int - '0' as int + 52) as Sextet)
    else if c == (if a.Standard? then '+' else '-') then Some(62)
    else if c == (if a.Standard? then '/' else '_') then Some(63)
    else None
  }

  lemma SymbolRoundTrip(n: Sextet, a: Alphabet)
    ensures SymbolValue(Symbol(n, a), a) == Some(n) && Symbol(n, a) != '='
  {
  }

  /** Padded base64. */
  function Base64(s: Octets, a: Alphabet): string {
    if s == [] then ""
    else if |s| == 1 then
      [Symbol(s[0] / 4, a), Symbol(s[0] % 4 * 16, a), '=', '=']
    else if |s| == 2 then
      [Symbol(s[0] / 4, a), Symbol(s[0] % 4 * 16 + s[1] / 16, a), Symbol(s[1] % 16 * 4, a), '=']
    else
      [Symbol(s[0] / 4, a), Symbol(s[0] % 4 * 16 + s[1] / 16, a), Symbol(s[1] % 16 * 4 + s[2] / 64, a), Symbol(s[2] % 64, a)]
      + Base64(s[3..], a)
  }

  /** Decodes groups of four; the bits a final short group does not use are ignored. */
  function Decode(v: string, a: Alphabet): Option<Octets> {
    if v == "" then Some([])
    else if |v| < 4 then None
    else
      var x, y, z, w := SymbolValue(v[0], a), SymbolValue(v[1], a), SymbolValue(v[2], a), SymbolValue(v[3], a);
      if x.None? || y.None? then None
      else
        var first := (x.value * 4 + y.value / 16) as Byte;
        if v[2..] == "==" then Some([first])
        else if z.None? then None
        else
          var second := (y.value % 16 * 16 + z.value / 4) as Byte;
          if v[3..] == "=" then Some([first, second])
          else if w.None? then None
          else
            var third := (z.value % 4 * 64 + w.value) as Byte;
            var rest := Decode(v[4..], a);
            if rest.None? then None else Some([first, second, third] + rest.value)
  }

  lemma DecodeFull(x: Sextet, y: Sextet, z: Sextet, w: Sextet, u: string, a: Alphabet)
    requires Decode(u, a).Some?
    ensures Decode([Symbol(x, a), Symbol(y, a), Symbol(z, a), Symbol(w, a)] + u, a)
            == Some([(x * 4 + y / 16) as Byte, (y % 16 * 16 + z / 4) as Byte, (z % 4 * 64 + w) as Byte] + Decode(u, a).value)
  {
    SymbolRoundTrip(x, a);
    SymbolRoundTrip(y, a);
    SymbolRoundTrip(z, a);
    SymbolRoundTrip(w, a);
    hide Symbol, SymbolValue;
    var v := [Symbol(x, a), Symbol(y, a), Symbol(z, a), Symbol(w, a)] + u;
    assert v[0] == Symbol(x, a) && v[1] == Symbol(y, a) && v[2] == Symbol(z, a) && v[3] == Symbol(w, a);
    assert v[2..][0] == Symbol(z, a) && v[3..][0] == Symbol(w, a) && v[4..] == u;
  }

  lemma DecodeTwo(x: Sextet, y: Sextet, z: Sextet, a: Alphabet)
    ensures Decode([Symbol(x, a), Symbol(y, a), Symbol(z, a), '='], a)
            == Some([(x * 4 + y / 16) as Byte, (y % 16 * 16 + z / 4) as Byte])
  {
    SymbolRoundTrip(x, a);
    SymbolRoundTrip(y, a);
    SymbolRoundTrip(z, a);
    hide Symbol, SymbolValue;
    var v := [Symbol(x, a), Symbol(y, a), Symbol(z, a), '='];
    assert v[2..][0] == Symbol(z, a) && v[3..] == "=";
  }

  /** The three bytes of a group come back from its four sextets. */
  lemma BitsAgree(p: Byte, q: Byte, r: Byte)
    ensures p / 4 * 4 + (p % 4 * 16 + q / 16) / 16 == p
    ensures (p % 4 * 16 + q / 16) % 16 * 16 + (q % 16 * 4 + r / 64) / 4 == q
    ensures (q % 16 * 4 + r / 64) % 4 * 64 + r % 64 == r
  {
  }

  lemma GroupOfNone(a: Alphabet)
    ensures Decode(Base64([], a), a) == Some([]) && Base64([], a) == ""
  {
  }

  lemma GroupOfOne(p: Byte, a: Alphabet)
    ensures Decode(Base64([p], a), a) == Some([p]) && |Base64([p], a)| == 4
  {
    SymbolRoundTrip(p / 4, a);
    SymbolRoundTrip(p % 4 * 16, a);
    hide Symbol, SymbolValue;
    assert Base64([p], a)[2..] == "==";
  }

  lemma GroupOfTwo(p: Byte, q: Byte, a: Alphabet)
    ensures Decode(Base64([p, q], a), a) == Some([p, q]) && |Base64([p, q], a)| == 4
  {
    DecodeTwo(p / 4, p % 4 * 16 + q / 16, q % 16 * 4, a);
    BitsAgree(p, q, 0);
  }

  lemma GroupOfThree(p: Byte, q: Byte, r: Byte, rest: Octets, a: Alphabet)
    requires Decode(Base64(rest, a), a) == Some(rest)
    ensures Decode(Base64([p, q, r] + rest, a), a) == Some([p, q, r] + rest)
    ensures |Base64([p, q, r] + rest, a)| == 4 + |Base64(rest, a)|
  {
    hide Decode;
    assert ([p, q, r] + rest)[3..] == rest;
    DecodeFull(p / 4, p % 4 * 16 + q / 16, q % 16 * 4 + r / 64, r % 64, Base64(rest, a), a);
    BitsAgree(p, q, r);
  }

  lemma {:induction false} Base64RoundTrip(s: Octets, a: Alphabet)
    ensures Decode(Base64(s, a), a) == Some(s)
    ensures |Base64(s, a)| == 4 * ((|s| + 2) / 3)
    decreases |s|
  {
    hide Decode, Base64;
    if s == [] {
      GroupOfNone(a);
    } else if |s| == 1 {
      GroupOfOne(s[0], a);
      assert s == [s[0]];
    } else if |s| == 2 {
      GroupOfTwo(s[0], s[1], a);
      assert s == [s[0], s[1]];
    } else {
      Base64RoundTrip(s[3..], a);
      GroupOfThree(s[0], s[1], s[2], s[3..], a);
      assert s == [s[0], s[1], s[2]] + s[3..];
    }
  }

  /** The longest example of RFC 4648, section 10, its beginnings, and bytes in which the two alphabets differ. */
  lemma Base64Examples()
    ensures Base64([102], Standard) == "Zg==" && Base64([102, 111], Standard) == "Zm8="
    ensures Base64([102, 111, 111, 98, 97, 114], Standard) == "Zm9vYmFy"
    ensures Base64([251, 255], Standard) == "+/8=" && Base64([251, 255], UrlSafe) == "-_8="
  {
    var foobar: Octets := [102, 111, 111, 98, 97, 114];
    var bar: Octets := [98, 97, 114];
    assert foobar[3..] == bar && bar[3..] == [];
    assert Base64(bar, Standard) == "YmFy" + Base64([], Standard);
    assert Base64(foobar, Standard) == "Zm9v" + Base64(bar, Standard);
  }

  predicate HasSpace(v: string) { exists c <- v :: c in " \t\n\r" }

  /** `_b64_decode`: canonical standard base64 of at most `maximum` bytes. */
  function B64Decode(v: string, maximum: nat): Result<Octets, Error> {
    if v == "" || HasSpace(v) then Err(InvalidBase64)
    else
      match Decode(v, Standard)
      case None => Err(InvalidBase64)
      case Some(s) => if |s| > maximum || Base64(s, Standard) != v then Err(InvalidBase64) else Ok(s)
  }

  lemma {:induction false} Base64HasNoSpace(s: Octets, a: Alphabet)
    ensures !HasSpace(Base64(s, a))
    decreases |s|
  {
    if |s| >= 3 {
      Base64HasNoSpace(s[3..], a);
      var v := Base64(s, a);
      forall c <- v
        ensures c !in " \t\n\r"
      {
        if c !in v[..4] { assert c in v[4..] && v[4..] == Base64(s[3..], a); }
      }
    }
  }

  /** Decoding accepts exactly the canonical encodings of nonempty strings within the limit. */
  lemma StrictBase64(v: string, maximum: nat, s: Octets)
    ensures B64Decode(v, maximum) == Ok(s) <==> s != [] && |s| <= maximum && v == Base64(s, Standard)
  {
    Base64RoundTrip(s, Standard);
    Base64HasNoSpace(s, Standard);
  }

  function StripPadding(v: string): string {
    if v != "" && v[|v| - 1] == '=' then StripPadding(v[..|v| - 1]) else v
  }

  function Base64UrlNoPad(s: Octets): string { StripPadding(Base64(s, UrlSafe)) }

  function Padding(n: nat): string { if n % 4 == 0 then "" else if n % 4 == 1 then "===" else if n % 4 == 2 then "==" else "=" }

  /** `_b64url_decode`: canonical unpadded base64url, of a given length when one is expected. */
  function B64UrlDecode(v: string, expected: Option<nat>): Result<Octets, Error> {
    if v == "" || HasSpace(v) || '=' in v then Err(InvalidBase64)
    else
      match Decode(v + Padding(|v|), UrlSafe)
      case None => Err(InvalidBase64)
      case Some(s) =>
        if Base64UrlNoPad(s) != v then Err(InvalidBase64)
        else if expected.Some? && |s| != expected.value then Err(InvalidKey)
        else Ok(s)
  }

  /** What remains of padded base64: no padding, and the length tells how much of it was there. */
  ghost predicate Stripped(v: string, padded: string) {
    '=' !in v && v + Padding(|v|) == padded && (padded != "" ==> v != "")
  }

  lemma StripNone()
    ensures Stripped(StripPadding(""), "")
  {
  }

  lemma StripOne(x: char, y: char)
    requires x != '=' && y != '='
    ensures Stripped(StripPadding([x, y, '=', '=']), [x, y, '=', '='])
  {
    var v := [x, y, '=', '='];
    assert v[..3] == [x, y, '='] && [x, y, '='][..2] == [x, y];
    assert StripPadding([x, y]) == [x, y];
    assert StripPadding([x, y, '=']) == [x, y];
  }

  lemma StripTwo(x: char, y: char, z: char)
    requires x != '=' && y != '=' && z != '='
    ensures Stripped(StripPadding([x, y, z, '=']), [x, y, z, '='])
  {
    assert [x, y, z, '='][..3] == [x, y, z];
    assert StripPadding([x, y, z]) == [x, y, z];
  }

  lemma StripFour(front: string, back: string)
    requires |front| == 4 && '=' !in front && Stripped(StripPadding(back), back)
    ensures Stripped(StripPadding(front + back), front + back)
  {
    StripAppends(front, back);
    var v := StripPadding(back);
    assert |front + v| % 4 == |v| % 4;
    assert front + v + Padding(|v|) == front + (v + Padding(|v|));
  }

  /** Stripping removes exactly the padding that the length calls for. */
  lemma {:induction false} StrippedShape(s: Octets, a: Alphabet)
    ensures Stripped(StripPadding(Base64(s, a)), Base64(s, a))
    decreases |s|
  {
    hide Stripped, StripPadding;
    if s == [] {
      StripNone();
    } else {
      SymbolRoundTrip(s[0] / 4, a);
      if |s| == 1 {
        SymbolRoundTrip(s[0] % 4 * 16, a);
        hide Symbol, SymbolValue;
        StripOne(Symbol(s[0] / 4, a), Symbol(s[0] % 4 * 16, a));
      } else {
        SymbolRoundTrip(s[0] % 4 * 16 + s[1] / 16, a);
        if |s| == 2 {
          SymbolRoundTrip(s[1] % 16 * 4, a);
          hide Symbol, SymbolValue;
          StripTwo(Symbol(s[0] / 4, a), Symbol(s[0] % 4 * 16 + s[1] / 16, a), Symbol(s[1] % 16 * 4, a));
        } else {
          SymbolRoundTrip(s[1] % 16 * 4 + s[2] / 64, a);
          SymbolRoundTrip(s[2] % 64, a);
          hide Symbol, SymbolValue;
          StrippedShape(s[3..], a);
          StripFour([Symbol(s[0] / 4, a), Symbol(s[0] % 4 * 16 + s[1] / 16, a), Symbol(s[1] % 16 * 4 + s[2] / 64, a), Symbol(s[2] % 64, a)],
                    Base64(s[3..], a));
        }
      }
    }
  }

  lemma {:induction false} StripAppends(front: string, back: string)
    requires front != "" && front[|front| - 1] != '='
    ensures StripPadding(front + back) == front + StripPadding(back)
    decreases |back|
  {
    if back == "" {
      assert front + back == front;
    } else if back[|back| - 1] == '=' {
      assert (front + back)[..|front + back| - 1] == front + back[..|back| - 1];
      StripAppends(front, back[..|back| - 1]);
    }
  }

  lemma StrictBase64Url(v: string, expected: Option<nat>, s: Octets)
    ensures B64UrlDecode(v, expected) == Ok(s)
            <==> s != [] && v == Base64UrlNoPad(s) && (expected.Some? ==> |s| == expected.value)
  {
    if s != [] && v == Base64UrlNoPad(s) {
      StrippedShape(s, UrlSafe);
      Base64RoundTrip(s, UrlSafe);
      Base64HasNoSpace(s, UrlSafe);
      assert forall c <- v :: c in v + Padding(|v|);
    }
    StrippedShape([], UrlSafe);
  }

  // ----- Envelopes --------------------------------------------------------------------------------------

  type Key = string

  /** Signing and verification; a key stands for both halves of a pair and for its thumbprint. */
  datatype Scheme = Scheme(sign: (Key, Octets) -> Octets, verify: (Key, Octets, Octets) -> bool)

  /** Signatures are deterministic, have 64 bytes, and verify only what was signed. */
  ghost predicate Ideal(c: Scheme) {
    && (forall k, m :: |c.sign(k, m)| == 64)
    && (forall k, m, s :: c.verify(k, m, s) <==> s == c.sign(k, m))
  }

  datatype Envelope = Envelope(payloadType: Octets, payload: string, keyId: Key, sig: string)

  function Sign(c: Scheme, t: Octets, payload: Octets, key: Key, maximum: nat): Result<Envelope, Error> {
    if payload == [] || |payload| > maximum then Err(InvalidPayload)
    else
      match Pae(t, payload)
      case Err(error) => Err(error)
      case Ok(message) => Ok(Envelope(t, Base64(payload, Standard), key, Base64(c.sign(key, message), Standard)))
  }

  function Verify(c: Scheme, e: Envelope, expected: Octets, trusted: Key, maximum: nat): Result<Octets, Error> {
    if e.payloadType != expected then Err(InvalidPayloadType)
    else if e.keyId != trusted then Err(UntrustedKey)
    else
      match B64Decode(e.payload, maximum)
      case Err(error) => Err(error)
      case Ok(payload) =>
        match B64Decode(e.sig, 128)
        case Err(error) => Err(error)
        case Ok(signature) =>
          if |signature| != 64 then Err(InvalidSignature)
          else
            match Pae(e.payloadType, payload)
            case Err(error) => Err(error)
            case Ok(message) => if c.verify(trusted, message, signature) then Ok(payload) else Err(InvalidSignature)
  }

  /** A nonempty payload within the limit is signed under any nonempty ASCII type, and nothing else is. */
  lemma SigningIsAccepted(c: Scheme, t: Octets, payload: Octets, key: Key, maximum: nat)
    ensures var r := Sign(c, t, payload, key, maximum);
            && (r.Ok? <==> 1 <= |payload| <= maximum && t != [] && forall b <- t :: b <= 127)
            && (r.Ok? ==> r.value.payloadType == t && r.value.keyId == key
                          && r.value.payload == Base64(payload, Standard)
                          && r.value.sig == Base64(c.sign(key, Encoding(t, payload)), Standard))
  {
  }

  /** The signature text stands for 64 bytes that the scheme verifies for this type and payload. */
  ghost predicate IsSigned(c: Scheme, sig: string, key: Key, t: Octets, payload: Octets) {
    exists s: Octets :: |s| == 64 && sig == Base64(s, Standard) && c.verify(key, Encoding(t, payload), s)
  }

  /** With any scheme, exactly which envelopes verify, and to which payload. */
  lemma VerifyMeans(c: Scheme, e: Envelope, expected: Octets, trusted: Key, maximum: nat, payload: Octets)
    ensures Verify(c, e, expected, trusted, maximum) == Ok(payload)
            <==> e.payloadType == expected && e.keyId == trusted && expected != [] && (forall b <- expected :: b <= 127)
                 && 1 <= |payload| <= maximum && e.payload == Base64(payload, Standard)
                 && IsSigned(c, e.sig, trusted, expected, payload)
  {
    hide Base64, Encoding;
    StrictBase64(e.payload, maximum, payload);
    var signature := B64Decode(e.sig, 128);
    if signature.Ok? { StrictBase64(e.sig, 128, signature.value); }
    forall s: Octets | |s| == 64 && e.sig == Base64(s, Standard) ensures signature == Ok(s) { StrictBase64(e.sig, 128, s); }
    hide B64Decode;
  }

  /** Under an ideal scheme verification accepts exactly what signing produces, and returns the exact payload. */
  lemma VerifyInvertsSign(c: Scheme, e: Envelope, t: Octets, key: Key, maximum: nat, payload: Octets)
    requires Ideal(c)
    ensures Verify(c, e, t, key, maximum) == Ok(payload) <==> Sign(c, t, payload, key, maximum) == Ok(e)
  {
    StrictBase64(e.payload, maximum, payload);
    StrictBase64(e.sig, 128, c.sign(key, Encoding(t, payload)));
    var decoded := B64Decode(e.payload, maximum);
    if decoded.Ok? {
      StrictBase64(e.payload, maximum, decoded.value);
      var signature := B64Decode(e.sig, 128);
      if signature.Ok? { StrictBase64(e.sig, 128, signature.value); }
    }
  }

  /**
   A signature made for one type and payload is accepted under another type or payload only when two
   different messages of the key share a signature: the encoding itself never confuses them.
   */
  lemma SignatureBinds(c: Scheme, e: Envelope, t: Octets, payload: Octets, t': Octets, payload': Octets, key: Key, maximum: nat)
    requires Ideal(c) && Verify(c, e, t', key, maximum) == Ok(payload')
    requires e.sig == Base64(c.sign(key, Encoding(t, payload)), Standard)
    ensures (t == t' && payload == payload')
            || (Encoding(t, payload) != Encoding(t', payload')
                && c.sign(key, Encoding(t, payload)) == c.sign(key, Encoding(t', payload')))
  {
    var signature := c.sign(key, Encoding(t, payload));
    StrictBase64(e.sig, 128, signature);
    StrictBase64(e.payload, maximum, payload');
    if Encoding(t, payload) == Encoding(t', payload') { PaeInjective(t, payload, t', payload'); }
  }
}
