/** The string-prefix test for local addresses, against the numeric ranges it
    stands for. */
module LanTest {
  import opened Bytes
  import opened Text

  function DottedQuad(a: byte, b: byte, c: byte, d: byte): string
  {
    Decimal(a) + "." + Decimal(b) + "." + Decimal(c) + "." + Decimal(d)
  }

  /** `split('.').nth(1).parse::<u8>()` in 16..=31 */
  predicate SecondOctetIn1631(addr: string)
  {
    var parts := SplitOn(addr, '.');
    |parts| > 1 && var o := ParseUnsigned(parts[1], 255); o.Some? && 16 <= o.value <= 31
  }

  predicate IsPrivateOrLan(addr: string)
  {
    "127." <= addr || "10." <= addr || "192.168." <= addr || "169.254." <= addr || "0.0.0.0" <= addr
    || ("172." <= addr && SecondOctetIn1631(addr))
  }

  /** Loopback, the three private ranges of section 3 of RFC 1918, link-local, and
      the unspecified address. */
  predicate InLocalRange(a: byte, b: byte, c: byte, d: byte)
  {
    a == 127 || a == 10 || (a == 192 && b == 168) || (a == 169 && b == 254) || (a == 172 && 16 <= b <= 31)
    || (a == 0 && b == 0 && c == 0 && d == 0)
  }

  lemma NoDot(n: nat)
    ensures '.' !in Decimal(n)
  {
    assert forall i :: 0 <= i < |Decimal(n)| ==> IsDigit(Decimal(n)[i]);
  }

  lemma DecimalInjective(m: nat, n: nat)
    ensures Decimal(m) == Decimal(n) ==> m == n
  {
    DecimalValue(m);
    DecimalValue(n);
  }

  /** Two strings that go on after a first separator agree as prefixes exactly
      when their first pieces are equal and the rests agree. */
  lemma PieceByPiece(p: string, prest: string, q: string, qrest: string)
    requires '.' !in p && '.' !in q
    ensures p + "." + prest <= q + "." + qrest <==> p == q && prest <= qrest
  {
    var s, t := p + "." + prest, q + "." + qrest;
    if s <= t {
      assert t == s + t[|s|..];
      IndexOfFirst(p, '.', prest + t[|s|..]);
      assert t == p + ['.'] + (prest + t[|s|..]);
      IndexOfFirst(q, '.', qrest);
      assert t[..|p|] == p && t[..|q|] == q;
      assert t[|p| + 1..] == prest + t[|s|..] && t[|q| + 1..] == qrest;
    }
    if p == q && prest <= qrest {
      assert qrest == prest + qrest[|prest|..];
      assert t == s + qrest[|prest|..];
    }
  }

  /** One-octet prefixes. */
  lemma FirstOctet(lit: string, n: nat, a: nat, rest: string)
    requires lit == Decimal(n) + "."
    ensures lit <= Decimal(a) + "." + rest <==> n == a
  {
    hide Decimal;
    NoDot(n);
    NoDot(a);
    DecimalInjective(n, a);
    PieceByPiece(Decimal(n), "", Decimal(a), rest);
    assert Decimal(n) + "." + "" == lit;
  }

  lemma TwoOctets(lit: string, tail: string, n: nat, m: nat, a: nat, b: nat, rest: string)
    requires lit == Decimal(n) + "." + tail && tail == Decimal(m) + "."
    ensures lit <= Decimal(a) + "." + (Decimal(b) + "." + rest) <==> n == a && m == b
  {
    hide Decimal;
    NoDot(n);
    NoDot(a);
    DecimalInjective(n, a);
    FirstOctet(tail, m, b, rest);
    PieceByPiece(Decimal(n), tail, Decimal(a), Decimal(b) + "." + rest);
  }

  lemma {:induction false} LeadingZero(n: nat)
    ensures Decimal(n)[0] == '0' <==> n == 0
  {
    if n >= 10 {
      LeadingZero(n / 10);
    }
  }

  /** `prefix` is a literal 0 octet followed by `tail`. */
  lemma ZeroOctet(lit: string, tail: string, a: nat, rest: string)
    requires lit == "0." + tail
    ensures lit <= Decimal(a) + "." + rest <==> a == 0 && tail <= rest
  {
    assert Decimal(0) == "0";
    hide Decimal;
    NoDot(0);
    NoDot(a);
    DecimalInjective(0, a);
    PieceByPiece("0", tail, Decimal(a), rest);
    assert "0" + "." + tail == lit;
  }

  lemma Unspecified(a: nat, b: nat, c: nat, d: nat)
    ensures "0.0.0.0" <= Decimal(a) + "." + (Decimal(b) + "." + (Decimal(c) + "." + Decimal(d)))
            <==> a == 0 && b == 0 && c == 0 && d == 0
  {
    hide Decimal;
    var bcd := Decimal(b) + "." + (Decimal(c) + "." + Decimal(d));
    ZeroTail(b, c, d);
    ZeroFront(a, bcd);
  }

  lemma ZeroFront(a: nat, rest: string)
    ensures "0.0.0.0" <= Decimal(a) + "." + rest <==> a == 0 && "0.0.0" <= rest
  {
    hide Decimal;
    assert "0.0.0.0" == "0." + "0.0.0";
    ZeroOctet("0.0.0.0", "0.0.0", a, rest);
  }

  lemma ZeroTail(b: nat, c: nat, d: nat)
    ensures "0.0.0" <= Decimal(b) + "." + (Decimal(c) + "." + Decimal(d)) <==> b == 0 && c == 0 && d == 0
  {
    hide Decimal;
    ZeroOctet("0.0.0", "0.0", b, Decimal(c) + "." + Decimal(d));
    ZeroEnd(c, d);
  }

  lemma ZeroEnd(c: nat, d: nat)
    ensures "0.0" <= Decimal(c) + "." + Decimal(d) <==> c == 0 && d == 0
  {
    hide Decimal;
    ZeroOctet("0.0", "0", c, Decimal(d));
    LeadingZero(d);
  }

  lemma SecondOctet(a: byte, b: byte, rest: string)
    ensures SecondOctetIn1631(Decimal(a) + "." + (Decimal(b) + "." + rest)) <==> 16 <= b <= 31
  {
    hide Decimal, IndexOf, ParseUnsigned, SplitOn;
    NoDot(a);
    NoDot(b);
    SplitOnFirst(Decimal(a), '.', Decimal(b) + "." + rest);
    SplitOnFirst(Decimal(b), '.', rest);
    DecimalRoundTrip(b, 255);
  }

  lemma {:induction false} DecimalPush(n: nat, d: nat)
    requires n > 0 && d < 10
    ensures Decimal(10 * n + d) == Decimal(n) + [Digit(d)]
  {
  }

  lemma Literals()
    ensures Decimal(10) == "10" && Decimal(127) == "127" && Decimal(172) == "172" && Decimal(192) == "192"
    ensures Decimal(168) == "168" && Decimal(169) == "169" && Decimal(254) == "254"
  {
    DecimalPush(1, 0);
    DecimalPush(1, 2); DecimalPush(12, 7);
    DecimalPush(1, 7); DecimalPush(17, 2);
    DecimalPush(1, 9); DecimalPush(19, 2);
    DecimalPush(1, 6); DecimalPush(16, 8); DecimalPush(16, 9);
    DecimalPush(2, 5); DecimalPush(25, 4);
    assert Decimal(1) == "1" && Decimal(2) == "2";
  }

  lemma QuadAsPieces(a: byte, b: byte, c: byte, d: byte)
    ensures DottedQuad(a, b, c, d) == Decimal(a) + "." + (Decimal(b) + "." + (Decimal(c) + "." + Decimal(d)))
  {
    hide Decimal;
  }

  /** For every IPv4 address in canonical form the string test decides exactly
      the numeric ranges. */
  lemma PrefixTestIsRangeTest(a: byte, b: byte, c: byte, d: byte)
    ensures IsPrivateOrLan(DottedQuad(a, b, c, d)) <==> InLocalRange(a, b, c, d)
  {
    hide Decimal, SecondOctetIn1631, DottedQuad;
    var rest := Decimal(c) + "." + Decimal(d);
    var tail := Decimal(b) + "." + rest;
    QuadAsPieces(a, b, c, d);
    Literals();
    FirstOctet("127.", 127, a, tail);
    FirstOctet("10.", 10, a, tail);
    FirstOctet("172.", 172, a, tail);
    TwoOctets("192.168.", "168.", 192, 168, a, b, rest);
    TwoOctets("169.254.", "254.", 169, 254, a, b, rest);
    Unspecified(a, b, c, d);
    SecondOctet(a, b, rest);
  }
}
