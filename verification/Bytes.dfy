/** Bytes, network byte order, and the bitwise operators of the relay code,
    written out on natural numbers one binary digit at a time. */
module Bytes {

  type byte = x: int | 0 <= x < 256
  type bytes = seq<byte>

  datatype Option<+T> = None | Some(value: T)
  datatype Result<+T, +E> = Ok(value: T) | Err(error: E)

  function Pow2(k: nat): (p: nat)
    ensures p >= 1
  {
    if k == 0 then 1 else 2 * Pow2(k - 1)
  }

  function Xor(a: nat, b: nat): nat
    decreases a + b
  {
    if a == 0 && b == 0 then 0
    else (if a % 2 == b % 2 then 0 else 1) + 2 * Xor(a / 2, b / 2)
  }

  function Or(a: nat, b: nat): nat
    decreases a + b
  {
    if a == 0 && b == 0 then 0
    else (if a % 2 == 0 && b % 2 == 0 then 0 else 1) + 2 * Or(a / 2, b / 2)
  }

  lemma {:induction false} XorWidth(a: nat, b: nat, k: nat)
    requires a < Pow2(k) && b < Pow2(k)
    ensures Xor(a, b) < Pow2(k)
  {
    if a != 0 || b != 0 {
      XorWidth(a / 2, b / 2, k - 1);
    }
  }

  /** XOR with the same operand twice is the identity. */
  lemma {:induction false} XorInvolution(a: nat, b: nat)
    ensures Xor(Xor(a, b), b) == a
    decreases a + b
  {
    if a != 0 || b != 0 {
      var x := Xor(a / 2, b / 2);
      XorInvolution(a / 2, b / 2);
      assert Xor(a, b) / 2 == x;
    }
  }

  lemma {:induction false} XorZero(a: nat, b: nat)
    ensures Xor(a, b) == 0 <==> a == b
    decreases a + b
  {
    if a != 0 || b != 0 {
      XorZero(a / 2, b / 2);
    }
  }

  lemma {:induction false} OrZero(a: nat, b: nat)
    ensures Or(a, b) == 0 <==> a == 0 && b == 0
    decreases a + b
  {
    if a != 0 || b != 0 {
      OrZero(a / 2, b / 2);
    }
  }

  function XorByte(a: byte, b: byte): byte
  {
    assert Pow2(8) == 256;
    XorWidth(a, b, 8);
    Xor(a, b)
  }

  // --- comparing secrets ---------------------------------------------------

  /** The running OR of the XORed pairs: every pair is looked at. */
  function DiffFold(acc: nat, a: bytes, b: bytes): nat
    requires |a| == |b|
    decreases |a|
  {
    if a == [] then acc else DiffFold(Or(acc, Xor(a[0], b[0])), a[1..], b[1..])
  }

  predicate ConstantTimeEq(a: bytes, b: bytes)
  {
    |a| == |b| && DiffFold(0, a, b) == 0
  }

  lemma {:induction false} DiffFoldZero(acc: nat, a: bytes, b: bytes)
    requires |a| == |b|
    ensures DiffFold(acc, a, b) == 0 <==> acc == 0 && a == b
    decreases |a|
  {
    if a != [] {
      DiffFoldZero(Or(acc, Xor(a[0], b[0])), a[1..], b[1..]);
      OrZero(acc, Xor(a[0], b[0]));
      XorZero(a[0], b[0]);
      assert a == [a[0]] + a[1..] && b == [b[0]] + b[1..];
    }
  }

  /** The branch-free comparison is equality, on byte strings of any length. */
  lemma ConstantTimeEqIsEquality(a: bytes, b: bytes)
    ensures ConstantTimeEq(a, b) <==> a == b
  {
    if |a| == |b| {
      DiffFoldZero(0, a, b);
    }
  }

  // --- division by repeated subtraction --------------------------------------

  /** `n / d` */
  function Quot(n: nat, d: nat): nat
    requires d > 0
  {
    if n < d then 0 else 1 + Quot(n - d, d)
  }

  /** `n % d` */
  function Rem(n: nat, d: nat): nat
    requires d > 0
  {
    if n < d then n else Rem(n - d, d)
  }

  lemma {:induction false} QuotRem(n: nat, d: nat)
    requires d > 0
    ensures Rem(n, d) < d && n == d * Quot(n, d) + Rem(n, d)
    decreases n
  {
    if n < d {
      assert d * 0 == 0;
    } else {
      QuotRem(n - d, d);
      Distribute(d, Quot(n - d, d));
    }
  }

  lemma Distribute(d: int, q: int)
    ensures d * (1 + q) == d + d * q
  {
  }

  /** They are division and remainder. */
  lemma QuotIsDivision(n: nat, d: nat)
    requires d > 0
    ensures Quot(n, d) == n / d && Rem(n, d) == n % d
  {
    hide Quot, Rem;
    QuotRem(n, d);
    DivisionIsUnique(d, Quot(n, d), Rem(n, d), n / d, n % d);
  }

  lemma DivisionIsUnique(d: nat, q: int, r: nat, q': int, r': nat)
    requires d > 0 && d * q + r == d * q' + r' && r < d && r' < d
    ensures q == q' && r == r'
  {
    assert d * q - d * q' == d * (q - q') == -(d * (q' - q));
    if q > q' {
      AtLeastOnce(d, q - q');
    } else if q < q' {
      AtLeastOnce(d, q' - q);
    }
  }

  lemma AtLeastOnce(d: nat, k: nat)
    requires k >= 1
    ensures d * k >= d
  {
  }

  // --- network byte order --------------------------------------------------

  /** `(n as u16).to_be_bytes()`: the cast keeps the low sixteen bits. */
  function BeU16(n: nat): (b: bytes)
    ensures |b| == 2
  {
    QuotRem(Quot(n, 256), 256);
    QuotRem(n, 256);
    [Rem(Quot(n, 256), 256), Rem(n, 256)]
  }

  /** `(n as u32).to_be_bytes()` */
  function BeU32(n: nat): (b: bytes)
    ensures |b| == 4
  {
    BeU16(Quot(n, 65536)) + BeU16(n)
  }

  function ReadU16(hi: byte, lo: byte): nat { 256 * hi + lo }

  function ReadU32(b: bytes): nat
    requires |b| == 4
  {
    65536 * ReadU16(b[0], b[1]) + ReadU16(b[2], b[3])
  }

  /** What a reader gets back is the value modulo the width of the cast. */
  lemma U16RoundTrip(n: nat)
    ensures ReadU16(BeU16(n)[0], BeU16(n)[1]) == n % 65536
  {
    hide Quot, Rem;
    var q := n / 256;
    QuotIsDivision(n, 256);
    QuotIsDivision(q, 256);
    assert n == 256 * q + n % 256 && q == 256 * (q / 256) + q % 256;
    assert n == 65536 * (q / 256) + (256 * (q % 256) + n % 256);
  }

  lemma U16Reprints(hi: byte, lo: byte)
    ensures BeU16(ReadU16(hi, lo)) == [hi, lo] && ReadU16(hi, lo) < 65536
  {
    var n := 256 * hi + lo;
    assert Rem(hi, 256) == hi;
    hide Quot, Rem;
    QuotRem(n, 256);
    DivisionIsUnique(256, Quot(n, 256), Rem(n, 256), hi, lo);
  }

  lemma U32RoundTrip(n: nat)
    requires n < 0x1_0000_0000
    ensures |BeU32(n)| == 4 && ReadU32(BeU32(n)) == n
  {
    hide Quot, Rem, BeU16, ReadU16;
    var q := Quot(n, 65536);
    QuotIsDivision(n, 65536);
    assert q < 65536 && q % 65536 == q && n == 65536 * q + n % 65536;
    U16RoundTrip(q);
    U16RoundTrip(n);
    var hi, lo := BeU16(q), BeU16(n);
    assert (hi + lo)[0] == hi[0] && (hi + lo)[1] == hi[1] && (hi + lo)[2] == lo[0] && (hi + lo)[3] == lo[1];
  }

  /** In general the cast to 32 bits keeps the remainder. */
  lemma U32Wraps(n: nat)
    ensures |BeU32(n)| == 4 && ReadU32(BeU32(n)) == n % 0x1_0000_0000
  {
    hide Quot, Rem, BeU16, ReadU16;
    var q := Quot(n, 65536);
    QuotIsDivision(n, 65536);
    U16RoundTrip(q);
    U16RoundTrip(n);
    var hi, lo := BeU16(q), BeU16(n);
    assert (hi + lo)[0] == hi[0] && (hi + lo)[1] == hi[1] && (hi + lo)[2] == lo[0] && (hi + lo)[3] == lo[1];
    var kept := 65536 * (q % 65536) + n % 65536;
    assert n == 65536 * q + n % 65536 && q == 65536 * (q / 65536) + q % 65536;
    DivisionIsUnique(0x1_0000_0000, q / 65536, kept, n / 0x1_0000_0000, n % 0x1_0000_0000);
  }
}
