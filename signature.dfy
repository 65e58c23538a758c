/**
 * The signature gate in front of the interaction endpoint: the public key
 * and the signature arrive as hexadecimal text and are decoded into bytes
 * (`hexToUint8Array`), the signed message is the UTF-8 encoding of the
 * timestamp header followed by the raw body, and any exception on the way
 * (odd-length hex, a key the crypto library refuses, a failing verify)
 * yields "not valid" instead of propagating.
 *
 * Ed25519 itself (RFC 8032) and the Web Crypto key import are not modelled:
 * they are the oracle `Crypto`.
 */
module Signature {
  import opened Wrappers
  import opened Text

  newtype byte = x: int | 0 <= x < 256

  // ---------------------------------------------------------------------------
  // parseInt(pair, 16) stored into a Uint8Array
  // ---------------------------------------------------------------------------

  /** The longest prefix of `s` made of hexadecimal digits. */
  function HexPrefix(s: string): (r: string)
    ensures |r| <= |s| && r == s[..|r|]
    ensures forall i :: 0 <= i < |r| ==> IsHexDigit(r[i])
    ensures |r| < |s| ==> !IsHexDigit(s[|r|])
  {
    if s != [] && IsHexDigit(s[0]) then [s[0]] + HexPrefix(s[1..]) else []
  }

  function HexDigitsValue(s: string): nat
    requires forall i :: 0 <= i < |s| ==> IsHexDigit(s[i])
  {
    if s == [] then 0 else HexDigitsValue(s[..|s| - 1]) * 16 + HexValue(s[|s| - 1])
  }

  /**
   * `parseInt(s, 16)`: leading white space is skipped, one sign is read, a
   * `0x`/`0X` prefix is dropped, and then the longest run of hexadecimal
   * digits is read; None stands for NaN (no digit at all).
   */
  function ParseIntHex(s: string): (r: Option<int>)
  {
    var u := TrimStart(s);
    var negative := u != [] && u[0] == '-';
    var v := if u != [] && (u[0] == '-' || u[0] == '+') then u[1..] else u;
    var w := if |v| >= 2 && v[0] == '0' && (v[1] == 'x' || v[1] == 'X') then v[2..] else v;
    var digits := HexPrefix(w);
    if digits == [] then None
    else Some(if negative then -(HexDigitsValue(digits) as int) else HexDigitsValue(digits))
  }

  /** Storing a number into a `Uint8Array`: NaN becomes 0, anything else is taken modulo 256. */
  function ToUint8(v: Option<int>): byte {
    match v
    case None => 0
    case Some(n) => if 0 <= n < 256 then n as byte else (n % 256) as byte
  }

  /** The byte `hexToUint8Array` stores for the pair of characters at `2 * k`. */
  function PairByte(hex: string, k: nat): byte
    requires 2 * k + 2 <= |hex|
  {
    ToUint8(ParseIntHex(hex[2 * k..2 * k + 2]))
  }

  /** Two hexadecimal digits (other than `0x`) read as the number they spell in base 16. */
  lemma ParseIntHexOfTwoDigits(t: string)
    requires |t| == 2 && IsHexDigit(t[0]) && IsHexDigit(t[1])
    requires !(t[0] == '0' && (t[1] == 'x' || t[1] == 'X'))
    ensures ParseIntHex(t) == Some(16 * HexValue(t[0]) + HexValue(t[1]))
  {
    assert !IsSpace(t[0]);
    assert TrimStart(t) == t;
    assert HexPrefix(t[1..]) == t[1..] by {
      assert t[1..][1..] == [];
    }
    assert HexPrefix(t) == t;
    assert t[..1] == [t[0]] && t[..1][..0] == [];
    assert HexDigitsValue(t[..1]) == HexValue(t[0]);
  }

  /** Two hexadecimal digits give the byte they spell in base 16. */
  lemma PairOfHexDigits(hex: string, k: nat)
    requires 2 * k + 2 <= |hex| && IsHexDigit(hex[2 * k]) && IsHexDigit(hex[2 * k + 1])
    requires !(hex[2 * k] == '0' && (hex[2 * k + 1] == 'x' || hex[2 * k + 1] == 'X'))
    ensures PairByte(hex, k) as int == 16 * HexValue(hex[2 * k]) + HexValue(hex[2 * k + 1])
  {
    var t := hex[2 * k..2 * k + 2];
    assert t[0] == hex[2 * k] && t[1] == hex[2 * k + 1];
    ParseIntHexOfTwoDigits(t);
    var n := 16 * HexValue(t[0]) + HexValue(t[1]);
    assert 0 <= n < 256;
    assert PairByte(hex, k) == ToUint8(Some(n));
  }

  /** What the decoder stores for every pair: the model of the whole loop. */
  ghost predicate DecodedFrom(hex: string, bytes: seq<byte>) {
    |hex| % 2 == 0 && |bytes| == |hex| / 2
    && forall k :: 0 <= k < |bytes| ==> bytes[k] == PairByte(hex, k)
  }

  /**
   * `hexToUint8Array`: None when the length is odd (the source throws);
   * otherwise a fresh array with one byte per character pair.
   */
  method HexToBytes(hex: string) returns (r: Option<array<byte>>)
    ensures r.None? <==> |hex| % 2 != 0
    ensures r.Some? ==> fresh(r.value) && DecodedFrom(hex, r.value[..])
  {
    if |hex| % 2 != 0 {
      return None;
    }
    var bytes := new byte[|hex| / 2];
    var i := 0;
    while i < |hex|
      invariant 0 <= i <= |hex| && i % 2 == 0
      invariant forall k :: 0 <= k < i / 2 ==> bytes[k] == PairByte(hex, k)
    {
      bytes[i / 2] := ToUint8(ParseIntHex(hex[i..i + 2]));
      i := i + 2;
    }
    r := Some(bytes);
  }

  /** The decoded bytes, as a value (what `hexToUint8Array` returns when it does not throw). */
  function DecodeHex(hex: string): (r: Option<seq<byte>>)
    ensures r.None? <==> |hex| % 2 != 0
    ensures r.Some? ==> DecodedFrom(hex, r.value)
  {
    if |hex| % 2 != 0 then None
    else Some(seq(|hex| / 2, k requires 0 <= k < |hex| / 2 => PairByte(hex, k)))
  }

  /** Lower-case hexadecimal text of a byte string: how a key or signature is transmitted. */
  function EncodeHex(bytes: seq<byte>): (hex: string)
    ensures |hex| == 2 * |bytes|
  {
    if bytes == [] then []
    else [HexChar(bytes[0] as int / 16), HexChar(bytes[0] as int % 16)] + EncodeHex(bytes[1..])
  }

  lemma {:induction false} EncodeHexAt(bytes: seq<byte>, k: nat)
    requires k < |bytes|
    ensures EncodeHex(bytes)[2 * k] == HexChar(bytes[k] as int / 16)
    ensures EncodeHex(bytes)[2 * k + 1] == HexChar(bytes[k] as int % 16)
  {
    if k > 0 {
      EncodeHexAt(bytes[1..], k - 1);
    }
  }

  /** Decoding the hex text of any byte string gives the byte string back. */
  lemma {:induction false} DecodeEncodeHex(bytes: seq<byte>)
    ensures DecodeHex(EncodeHex(bytes)) == Some(bytes)
  {
    var hex := EncodeHex(bytes);
    var d := DecodeHex(hex).value;
    forall k | 0 <= k < |bytes| ensures d[k] == bytes[k] {
      var b := bytes[k] as int;
      EncodeHexAt(bytes, k);
      assert HexValue(hex[2 * k]) == b / 16 && HexValue(hex[2 * k + 1]) == b % 16;
      PairOfHexDigits(hex, k);
      assert 16 * (b / 16) + b % 16 == b;
    }
    assert d == bytes;
  }

  // ---------------------------------------------------------------------------
  // TextEncoder.encode: UTF-8
  // ---------------------------------------------------------------------------

  /** The UTF-8 encoding of one character (RFC 3629, section 3). */
  function EncodeChar(c: char): (r: seq<byte>)
    ensures 1 <= |r| <= 4
  {
    var n := c as int;
    var q1 := n / 64;
    var q2 := q1 / 64;
    var q3 := q2 / 64;
    if n < 0x80 then [n as byte]
    else if n < 0x800 then [(0xC0 + q1) as byte, (0x80 + n % 64) as byte]
    else if n < 0x10000 then [(0xE0 + q2) as byte, (0x80 + q1 % 64) as byte, (0x80 + n % 64) as byte]
    else [(0xF0 + q3) as byte, (0x80 + q2 % 64) as byte, (0x80 + q1 % 64) as byte, (0x80 + n % 64) as byte]
  }

  /** `new TextEncoder().encode(s)`. */
  function Utf8(s: string): seq<byte> {
    if s == [] then [] else EncodeChar(s[0]) + Utf8(s[1..])
  }

  /** Encoding a concatenation encodes each part in turn. */
  lemma {:induction false} Utf8Concat(a: string, b: string)
    ensures Utf8(a + b) == Utf8(a) + Utf8(b)
  {
    if a != [] {
      assert (a + b)[0] == a[0];
      assert (a + b)[1..] == a[1..] + b;
      assert Utf8(a + b) == EncodeChar(a[0]) + Utf8(a[1..] + b);
      Utf8Concat(a[1..], b);
      assert Utf8(a) == EncodeChar(a[0]) + Utf8(a[1..]);
    } else {
      assert a + b == b;
    }
  }

  /** The number of bytes the sequence starting with lead byte `b` uses for its character. */
  function SequenceLength(b: byte): nat {
    if b < 0x80 then 1 else if b < 0xE0 then 2 else if b < 0xF0 then 3 else 4
  }

  /** The code point spelled by the bytes of one encoded character. */
  function DecodeChar(r: seq<byte>): int
    requires 1 <= |r| <= 4
  {
    if |r| == 1 then r[0] as int
    else if |r| == 2 then (r[0] as int - 0xC0) * 64 + (r[1] as int - 0x80)
    else if |r| == 3 then (r[0] as int - 0xE0) * 4096 + (r[1] as int - 0x80) * 64 + (r[2] as int - 0x80)
    else (r[0] as int - 0xF0) * 262144 + (r[1] as int - 0x80) * 4096 + (r[2] as int - 0x80) * 64 + (r[3] as int - 0x80)
  }

  /** The lead byte tells the length, and the bytes spell the character back. */
  lemma EncodeCharDecodes(c: char)
    ensures SequenceLength(EncodeChar(c)[0]) == |EncodeChar(c)|
    ensures DecodeChar(EncodeChar(c)) == c as int
  {
    var n := c as int;
    var q1 := n / 64;
    var q2 := q1 / 64;
    var q3 := q2 / 64;
    assert n == q1 * 64 + n % 64;
    assert q1 == q2 * 64 + q1 % 64;
    assert q2 == q3 * 64 + q2 % 64;
  }

  /** Different texts have different encodings: UTF-8 loses nothing. */
  lemma {:induction false} Utf8Injective(s: string, t: string)
    requires Utf8(s) == Utf8(t)
    ensures s == t
  {
    if s != [] && t != [] {
      var es, et := EncodeChar(s[0]), EncodeChar(t[0]);
      EncodeCharDecodes(s[0]);
      EncodeCharDecodes(t[0]);
      assert Utf8(s)[0] == es[0] && Utf8(t)[0] == et[0];
      assert |es| == |et|;
      assert es == Utf8(s)[..|es|] && et == Utf8(t)[..|et|];
      assert s[0] as int == t[0] as int;
      assert Utf8(s[1..]) == Utf8(s)[|es|..] && Utf8(t[1..]) == Utf8(t)[|et|..];
      Utf8Injective(s[1..], t[1..]);
      assert s == [s[0]] + s[1..] && t == [t[0]] + t[1..];
    }
  }

  // ---------------------------------------------------------------------------
  // verifyDiscordSignature
  // ---------------------------------------------------------------------------

  /**
   * The crypto library: `importKey` answers false where
   * `crypto.subtle.importKey("raw", …, Ed25519)` throws; `verify` answers
   * None where `crypto.subtle.verify` throws, and otherwise the Ed25519
   * verdict for (key, signature, message).
   */
  datatype Crypto = Crypto(
    importKey: seq<byte> -> bool,
    verify: (seq<byte>, seq<byte>, seq<byte>) -> Option<bool>)

  /** The bytes that are signed: the timestamp header followed by the raw body. */
  function SignedMessage(timestamp: string, rawBody: string): (m: seq<byte>)
    ensures m == Utf8(timestamp) + Utf8(rawBody)
  {
    Utf8Concat(timestamp, rawBody);
    Utf8(timestamp + rawBody)
  }

  /**
   * `verifyDiscordSignature`: true exactly when both hex strings decode,
   * the key imports, and the oracle accepts the signature over the signed
   * message; every failure on the way is false.
   */
  method VerifySignature(publicKeyHex: string, signature: string, timestamp: string, rawBody: string,
                         crypto: Crypto) returns (valid: bool)
    ensures valid <==>
      && |publicKeyHex| % 2 == 0
      && |signature| % 2 == 0
      && crypto.importKey(DecodeHex(publicKeyHex).value)
      && crypto.verify(DecodeHex(publicKeyHex).value, DecodeHex(signature).value,
                       Utf8(timestamp) + Utf8(rawBody)) == Some(true)
  {
    var publicKeyBytes := HexToBytes(publicKeyHex);
    if publicKeyBytes.None? {
      return false;
    }
    var signatureBytes := HexToBytes(signature);
    if signatureBytes.None? {
      return false;
    }
    var message := SignedMessage(timestamp, rawBody);
    var key := publicKeyBytes.value[..];
    var sig := signatureBytes.value[..];
    assert key == DecodeHex(publicKeyHex).value;
    assert sig == DecodeHex(signature).value;
    if !crypto.importKey(key) {
      return false;
    }
    var verdict := crypto.verify(key, sig, message);
    valid := verdict == Some(true);
  }

  /** An odd-length key or signature is never accepted, whatever the oracle says. */
  lemma OddHexNeverVerifies(publicKeyHex: string, signature: string, timestamp: string, rawBody: string,
                            crypto: Crypto)
    requires |publicKeyHex| % 2 != 0 || |signature| % 2 != 0
    ensures !SignatureAccepted(publicKeyHex, signature, timestamp, rawBody, crypto)
  {
  }

  /** The verdict `VerifySignature` computes, as a value. */
  predicate SignatureAccepted(publicKeyHex: string, signature: string, timestamp: string, rawBody: string,
                              crypto: Crypto)
  {
    && |publicKeyHex| % 2 == 0
    && |signature| % 2 == 0
    && crypto.importKey(DecodeHex(publicKeyHex).value)
    && crypto.verify(DecodeHex(publicKeyHex).value, DecodeHex(signature).value,
                     Utf8(timestamp) + Utf8(rawBody)) == Some(true)
  }

  /**
   * The signed message determines the body at a given timestamp: a
   * signature is checked against exactly the bytes received, so a body
   * changed in transit gives a different message.
   */
  lemma SignedMessageDeterminesBody(timestamp: string, body: string, other: string)
    ensures SignedMessage(timestamp, body) == SignedMessage(timestamp, other) ==> body == other
  {
    if SignedMessage(timestamp, body) == SignedMessage(timestamp, other) {
      Utf8Concat(timestamp, body);
      Utf8Concat(timestamp, other);
      Utf8Injective(timestamp + body, timestamp + other);
      assert body == (timestamp + body)[|timestamp|..];
      assert other == (timestamp + other)[|timestamp|..];
    }
  }
}
