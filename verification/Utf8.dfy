/** UTF-8 as the Rust standard library has it: `str::as_bytes` one way,
    `String::from_utf8_lossy` the other (every maximal ill-formed subpart
    becomes U+FFFD). Dafny characters are Unicode scalar values. */
module Utf8 {
  import opened Bytes

  function EncodeChar(c: char): (b: bytes)
    ensures 1 <= |b| <= 4
    ensures |b| == 1 <==> b[0] < 128
    ensures |b| > 1 ==> forall i :: 0 <= i < |b| ==> b[i] >= 128
  {
    var n := c as int;   // cut into six-bit digits: n == 64 * m + n % 64, and so on up
    var m := n / 64;
    var k := m / 64;
    if n < 0x80 then [n]
    else if n < 0x800 then [0xC0 + m, 0x80 + n % 64]
    else if n < 0x1_0000 then [0xE0 + k, 0x80 + m % 64, 0x80 + n % 64]
    else [0xF0 + k / 64, 0x80 + k % 64, 0x80 + m % 64, 0x80 + n % 64]
  }

  function Encode(s: string): bytes
  {
    if s == [] then [] else EncodeChar(s[0]) + Encode(s[1..])
  }

  predicate Continuation(b: bytes, i: nat) { i < |b| && 0x80 <= b[i] < 0xC0 }

  /** Which second bytes a three- or four-byte sequence admits: this rules out
      overlong forms, surrogates and values past U+10FFFF. */
  predicate SecondOfThree(b0: byte, b1: byte)
  {
    if b0 == 0xE0 then 0xA0 <= b1 < 0xC0
    else if b0 == 0xED then 0x80 <= b1 < 0xA0
    else 0x80 <= b1 < 0xC0
  }

  predicate SecondOfFour(b0: byte, b1: byte)
  {
    if b0 == 0xF0 then 0x90 <= b1 < 0xC0
    else if b0 == 0xF4 then 0x80 <= b1 < 0x90
    else 0x80 <= b1 < 0xC0
  }

  const REPLACEMENT: char := '\U{FFFD}'

  /** Append one six-bit digit. */
  function Join(high: int, b: byte): int { 64 * high + (b - 0x80) }

  /** The first character of `b`, and how many bytes it takes up. */
  function DecodeHead(b: bytes): (r: (char, nat))
    requires b != []
    ensures 1 <= r.1 <= |b|
  {
    var lead: int := b[0];
    if lead < 0x80 then (lead as char, 1)
    else if 0xC2 <= lead < 0xE0 then
      if Continuation(b, 1) then (Join(lead - 0xC0, b[1]) as char, 2)
      else (REPLACEMENT, 1)
    else if 0xE0 <= lead < 0xF0 then
      if |b| < 2 || !SecondOfThree(b[0], b[1]) then (REPLACEMENT, 1)
      else if !Continuation(b, 2) then (REPLACEMENT, 2)
      else (Join(Join(lead - 0xE0, b[1]), b[2]) as char, 3)
    else if 0xF0 <= lead < 0xF5 then
      if |b| < 2 || !SecondOfFour(b[0], b[1]) then (REPLACEMENT, 1)
      else if !Continuation(b, 2) then (REPLACEMENT, 2)
      else if !Continuation(b, 3) then (REPLACEMENT, 3)
      else (Join(Join(Join(lead - 0xF0, b[1]), b[2]), b[3]) as char, 4)
    else (REPLACEMENT, 1)
  }

  function DecodeLossy(b: bytes): string
  {
    if b == [] then [] else [DecodeHead(b).0] + DecodeLossy(b[DecodeHead(b).1..])
  }

  lemma HeadRoundTrip(c: char, rest: bytes)
    ensures DecodeHead(EncodeChar(c) + rest) == (c, |EncodeChar(c)|)
  {
    var n := c as int;
    var m := n / 64;
    var e := EncodeChar(c);
    var b := e + rest;
    assert forall i :: 0 <= i < |e| ==> b[i] == e[i];
    if 0x80 <= n < 0x800 {
      assert Join(m, e[1]) == n;
    } else if 0x800 <= n < 0x1_0000 {
      assert Join(m / 64, e[1]) == m && Join(m, e[2]) == n;
    } else if 0x1_0000 <= n {
      assert Join(m / 64 / 64, e[1]) == m / 64 && Join(m / 64, e[2]) == m && Join(m, e[3]) == n;
    }
  }

  /** A well-formed prefix survives the lossy decoder whatever bytes follow. */
  lemma {:induction false} PrefixRoundTrip(s: string, rest: bytes)
    ensures DecodeLossy(Encode(s) + rest) == s + DecodeLossy(rest)
  {
    hide DecodeHead, EncodeChar, DecodeLossy;
    if s == [] {
      assert Encode(s) + rest == rest;
    } else {
      var tail := Encode(s[1..]) + rest;
      assert Encode(s) + rest == EncodeChar(s[0]) + tail;
      HeadDecoded(s[0], tail);
      PrefixRoundTrip(s[1..], rest);
      assert s == [s[0]] + s[1..];
    }
  }

  lemma HeadDecoded(c: char, tail: bytes)
    ensures DecodeLossy(EncodeChar(c) + tail) == [c] + DecodeLossy(tail)
  {
    hide DecodeHead, EncodeChar;
    HeadRoundTrip(c, tail);
    assert (EncodeChar(c) + tail)[|EncodeChar(c)|..] == tail;
  }

  lemma RoundTrip(s: string)
    ensures DecodeLossy(Encode(s)) == s
  {
    PrefixRoundTrip(s, []);
    assert Encode(s) + [] == Encode(s);
  }

  lemma {:induction false} EncodeAppend(a: string, b: string)
    ensures Encode(a + b) == Encode(a) + Encode(b)
  {
    if a == [] {
      assert a + b == b;
    } else {
      assert (a + b)[1..] == a[1..] + b;
      EncodeAppend(a[1..], b);
    }
  }

  lemma OneByte(c: char)
    ensures |EncodeChar(c)| == 1 ==> EncodeChar(c)[0] == c as int
  {
  }

  /** An ASCII byte in an encoding is an ASCII character at that place: no
      multi-byte character hides one. */
  lemma {:induction false} AsciiAt(s: string, i: nat) returns (j: nat)
    requires i < |Encode(s)| && Encode(s)[i] < 128
    ensures j < |s| && |Encode(s[..j])| == i && s[j] as int == Encode(s)[i]
    ensures Encode(s)[i + 1..] == Encode(s[j + 1..])
  {
    hide EncodeChar;
    OneByte(s[0]);
    var k := |EncodeChar(s[0])|;
    assert Encode(s) == EncodeChar(s[0]) + Encode(s[1..]);
    if i < k {
      assert Encode(s)[i] == EncodeChar(s[0])[i];
      j := 0;
      assert s[..0] == [];
    } else {
      j := AsciiAt(s[1..], i - k);
      assert s[..j + 1] == [s[0]] + s[1..][..j];
      assert s[..j + 1][1..] == s[1..][..j];
      assert s[j + 2..] == s[1..][j + 1..];
      j := j + 1;
    }
  }
}
