/**
  UTF-8 (RFC 3629): the encoding of text, the strict decoding of bytes, and
  how much of a byte string is well formed.
 */
module Utf8 {
  import opened Wrappers

  type Byte = b: int | 0 <= b < 256

  function EncodeScalar(c: char): (bytes: seq<Byte>)
    ensures 1 <= |bytes| <= 4
  {
    var n := c as int;
    if n < 0x80 then [n]
    else if n < 0x800 then [0xc0 + n / 64, 0x80 + n % 64]
    else if n < 0x1_0000 then [0xe0 + n / 64 / 64, 0x80 + n / 64 % 64, 0x80 + n % 64]
    else [0xf0 + n / 64 / 64 / 64, 0x80 + n / 64 / 64 % 64, 0x80 + n / 64 % 64, 0x80 + n % 64]
  }

  function Encode(s: string): seq<Byte> {
    if s == "" then [] else EncodeScalar(s[0]) + Encode(s[1..])
  }

  /** The byte length of text, as `str::len` gives it. */
  function Length(s: string): nat {
    |Encode(s)|
  }

  predicate IsContinuation(b: Byte) { 0x80 <= b < 0xc0 }

  function Join2(a: int, b: int): int { (a - 0xc0) * 64 + (b - 0x80) }

  function Join3(a: int, b: int, c: int): int { ((a - 0xe0) * 64 + (b - 0x80)) * 64 + (c - 0x80) }

  function Join4(a: int, b: int, c: int, d: int): int {
    (((a - 0xf0) * 64 + (b - 0x80)) * 64 + (c - 0x80)) * 64 + (d - 0x80)
  }

  /** The scalar that the bytes begin with, unless they begin with no well-formed one. */
  function First(bytes: seq<Byte>): (r: Option<char>)
  {
    if bytes == [] then None
    else if bytes[0] < 0x80 then Some(bytes[0] as char)
    else if 0xc2 <= bytes[0] < 0xe0 then
      if |bytes| >= 2 && IsContinuation(bytes[1])
      then Some(Join2(bytes[0], bytes[1]) as char) else None
    else if 0xe0 <= bytes[0] < 0xf0 then
      if |bytes| >= 3 && IsContinuation(bytes[1]) && IsContinuation(bytes[2])
      then
        var n := Join3(bytes[0], bytes[1], bytes[2]);
        if n < 0x800 || 0xd800 <= n < 0xe000 then None else Some(n as char)
      else None
    else if 0xf0 <= bytes[0] < 0xf5 then
      if |bytes| >= 4 && IsContinuation(bytes[1]) && IsContinuation(bytes[2]) && IsContinuation(bytes[3])
      then
        var n := Join4(bytes[0], bytes[1], bytes[2], bytes[3]);
        if n < 0x1_0000 || n >= 0x11_0000 then None else Some(n as char)
      else None
    else None
  }

  lemma Sextet(high: int, low: int)
    requires 0 <= low < 64
    ensures (high * 64 + low) / 64 == high && (high * 64 + low) % 64 == low
  {
  }

  lemma Split4(a: int, b: int, c: int, d: int)
    requires 0x80 <= b < 0xc0 && 0x80 <= c < 0xc0 && 0x80 <= d < 0xc0
    ensures var n := Join4(a, b, c, d);
            a == 0xf0 + n / 64 / 64 / 64 && b == 0x80 + n / 64 / 64 % 64
            && c == 0x80 + n / 64 % 64 && d == 0x80 + n % 64
  {
    Sextet(a - 0xf0, b - 0x80);
    Sextet((a - 0xf0) * 64 + (b - 0x80), c - 0x80);
    Sextet(((a - 0xf0) * 64 + (b - 0x80)) * 64 + (c - 0x80), d - 0x80);
  }

  lemma Split3(a: int, b: int, c: int)
    requires 0x80 <= b < 0xc0 && 0x80 <= c < 0xc0
    ensures var n := Join3(a, b, c); a == 0xe0 + n / 64 / 64 && b == 0x80 + n / 64 % 64 && c == 0x80 + n % 64
  {
    Sextet(a - 0xe0, b - 0x80);
    Sextet((a - 0xe0) * 64 + (b - 0x80), c - 0x80);
  }

  lemma Joined(n: nat)
    requires n < 0x11_0000
    ensures Join2(0xc0 + n / 64, 0x80 + n % 64) == n
    ensures Join3(0xe0 + n / 64 / 64, 0x80 + n / 64 % 64, 0x80 + n % 64) == n
    ensures Join4(0xf0 + n / 64 / 64 / 64, 0x80 + n / 64 / 64 % 64, 0x80 + n / 64 % 64, 0x80 + n % 64) == n
  {
  }

  lemma FirstOfEncoded(c: char, tail: seq<Byte>)
    ensures First(EncodeScalar(c) + tail) == Some(c)
  {
    hide Join2, Join3, Join4;
    Joined(c as int);
    var bytes := EncodeScalar(c) + tail;
    assert forall i | 0 <= i < |EncodeScalar(c)| :: bytes[i] == EncodeScalar(c)[i];
  }

  lemma FirstEncodes(bytes: seq<Byte>)
    requires First(bytes).Some?
    ensures EncodeScalar(First(bytes).value) <= bytes
  {
    hide Join3, Join4;
    if 0xc2 <= bytes[0] < 0xe0 {
      Sextet(bytes[0] - 0xc0, bytes[1] - 0x80);
      assert Join2(bytes[0], bytes[1]) == (bytes[0] as int - 0xc0) * 64 + (bytes[1] as int - 0x80);
    } else if 0xe0 <= bytes[0] < 0xf0 {
      Split3(bytes[0], bytes[1], bytes[2]);
    } else if 0xf0 <= bytes[0] {
      Split4(bytes[0], bytes[1], bytes[2], bytes[3]);
    }
  }

  /** The text that the bytes encode, unless they are not UTF-8. */
  function Decode(bytes: seq<Byte>): Option<string>
    decreases |bytes|
  {
    if bytes == [] then Some("")
    else
      match First(bytes)
      case None => None
      case Some(c) =>
        FirstEncodes(bytes);
        match Decode(bytes[|EncodeScalar(c)|..])
        case None => None
        case Some(s) => Some([c] + s)
  }

  /** Encoding, then decoding. */
  lemma {:induction false} DecodeEncode(s: string)
    ensures Decode(Encode(s)) == Some(s)
  {
    hide First, EncodeScalar;
    if s != "" {
      var tail := Encode(s[1..]);
      FirstOfEncoded(s[0], tail);
      DecodeEncode(s[1..]);
      assert s == [s[0]] + s[1..];
      assert (EncodeScalar(s[0]) + tail)[|EncodeScalar(s[0])|..] == tail;
    }
  }

  /** Decoding, then encoding: no two byte strings decode to the same text. */
  lemma {:induction false} EncodeDecode(bytes: seq<Byte>)
    requires Decode(bytes).Some?
    ensures Encode(Decode(bytes).value) == bytes
    decreases |bytes|
  {
    hide First, EncodeScalar;
    if bytes != [] {
      var c := First(bytes).value;
      FirstEncodes(bytes);
      var n := |EncodeScalar(c)|;
      EncodeDecode(bytes[n..]);
      var s := Decode(bytes).value;
      assert s[0] == c && s[1..] == Decode(bytes[n..]).value;
      assert bytes == EncodeScalar(c) + bytes[n..];
    }
  }

  /** How many bytes are well formed before the first fault. */
  function ValidUpTo(bytes: seq<Byte>): (n: nat)
    ensures n <= |bytes|
    decreases |bytes|
  {
    match First(bytes)
    case None => 0
    case Some(c) =>
      FirstEncodes(bytes);
      var k := |EncodeScalar(c)|;
      k + ValidUpTo(bytes[k..])
  }

  lemma FirstOfPrefix(bytes: seq<Byte>, n: nat)
    requires n <= |bytes| && First(bytes[..n]).Some?
    ensures First(bytes) == First(bytes[..n])
  {
  }

  lemma FirstWithin(bytes: seq<Byte>, n: nat)
    requires n <= |bytes| && First(bytes).Some? && |EncodeScalar(First(bytes).value)| <= n
    ensures First(bytes[..n]) == First(bytes)
  {
  }

  /** `ValidUpTo` is the longest prefix that is UTF-8 by itself. */
  lemma {:induction false} ValidUpToIsLongest(bytes: seq<Byte>, n: nat)
    requires n <= |bytes|
    ensures Decode(bytes[..ValidUpTo(bytes)]).Some?
    ensures Decode(bytes[..n]).Some? ==> n <= ValidUpTo(bytes)
    decreases |bytes|
  {
    hide First, EncodeScalar;
    var v := ValidUpTo(bytes);
    if First(bytes).Some? {
      FirstEncodes(bytes);
      var k := |EncodeScalar(First(bytes).value)|;
      FirstWithin(bytes, v);
      assert bytes[..v][k..] == bytes[k..][..v - k];
      ValidUpToIsLongest(bytes[k..], if n < k then 0 else n - k);
      if n > 0 && Decode(bytes[..n]).Some? {
        FirstOfPrefix(bytes, n);
        FirstEncodes(bytes[..n]);
        assert bytes[..n][k..] == bytes[k..][..n - k];
      }
    } else if n > 0 && Decode(bytes[..n]).Some? {
      FirstOfPrefix(bytes, n);
    }
  }

  lemma {:induction false} EncodeAppend(s: string, t: string)
    ensures Encode(s + t) == Encode(s) + Encode(t)
    ensures Length(s + t) == Length(s) + Length(t)
  {
    hide EncodeScalar;
    if s == "" {
      assert s + t == t;
    } else {
      assert (s + t)[1..] == s[1..] + t;
      EncodeAppend(s[1..], t);
      assert EncodeScalar(s[0]) + (Encode(s[1..]) + Encode(t)) == EncodeScalar(s[0]) + Encode(s[1..]) + Encode(t);
    }
  }

  predicate IsAscii(s: string) { forall i | 0 <= i < |s| :: s[i] < '\U{80}' }

  lemma {:induction false} EncodeAscii(s: string)
    requires IsAscii(s)
    ensures |Encode(s)| == |s|
    ensures forall i | 0 <= i < |s| :: Encode(s)[i] == s[i] as int
  {
    if s != "" {
      EncodeAscii(s[1..]);
      assert forall i | 1 <= i < |s| :: s[i] == s[1..][i - 1];
    }
  }
}
