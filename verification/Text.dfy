/** The `str` methods that the relay code leans on. */
module Text {
  import opened Bytes

  // --- decimal numbers ------------------------------------------------------

  predicate IsDigit(c: char) { '0' <= c <= '9' }

  function Digit(d: nat): (c: char)
    requires d < 10
    ensures IsDigit(c)
  {
    (d + 48) as char
  }

  /** `format!("{n}")` */
  function Decimal(n: nat): (s: string)
    ensures s != []
    ensures forall i :: 0 <= i < |s| ==> IsDigit(s[i])
  {
    if n < 10 then [Digit(n)] else Decimal(n / 10) + [Digit(n % 10)]
  }

  function DigitsValue(s: string): Option<nat>
  {
    if s == [] then Some(0)
    else
      var front := DigitsValue(s[..|s| - 1]);
      var c := s[|s| - 1];
      if front.None? || !IsDigit(c) then None else Some(10 * front.value + (c as int - 48))
  }

  /** `str::parse` to an unsigned integer type whose largest value is `max`:
      one leading `+` is allowed, no digits or too large a value is an error. */
  function ParseUnsigned(s: string, max: nat): Option<nat>
  {
    var digits := if |s| > 1 && s[0] == '+' then s[1..] else s;
    var v := DigitsValue(digits);
    if s == [] || v.None? || v.value > max then None else v
  }

  lemma {:induction false} DecimalValue(n: nat)
    ensures DigitsValue(Decimal(n)) == Some(n)
  {
    if n >= 10 {
      DecimalValue(n / 10);
      assert Decimal(n)[..|Decimal(n)| - 1] == Decimal(n / 10);
    } else {
      assert Decimal(n)[..0] == [];
    }
  }

  /** A printed number parses back exactly when the type can hold it. */
  lemma DecimalRoundTrip(n: nat, max: nat)
    ensures ParseUnsigned(Decimal(n), max) == if n <= max then Some(n) else None
  {
    DecimalValue(n);
    assert IsDigit(Decimal(n)[0]);
  }

  // --- splitting ------------------------------------------------------------

  /** Index of the first `sep`, or the length when there is none. */
  function IndexOf(s: string, sep: char): (i: nat)
    ensures i <= |s| && (forall k :: 0 <= k < i ==> s[k] != sep)
    ensures i < |s| ==> s[i] == sep
  {
    if s == [] || s[0] == sep then 0 else
      var j := IndexOf(s[1..], sep);
      assert forall k :: 0 < k < 1 + j ==> s[k] == s[1..][k - 1];
      1 + j
  }

  /** The pieces of `split(sep)`: always at least one. */
  function SplitOn(s: string, sep: char): (parts: seq<string>)
    ensures parts != []
    decreases |s|
  {
    var i := IndexOf(s, sep);
    if i == |s| then [s] else [s[..i]] + SplitOn(s[i + 1..], sep)
  }

  lemma IndexOfFirst(a: string, sep: char, b: string)
    requires sep !in a
    ensures IndexOf(a + [sep] + b, sep) == |a|
    ensures IndexOf(a, sep) == |a|
  {
    var t := a + [sep] + b;
    var i := IndexOf(t, sep);
    assert t[|a|] == sep;
    assert forall k :: 0 <= k < |a| ==> t[k] == a[k];
  }

  /** `split(sep)` undoes joining a separator-free first piece to the rest. */
  lemma SplitOnFirst(a: string, sep: char, b: string)
    requires sep !in a
    ensures SplitOn(a + [sep] + b, sep) == [a] + SplitOn(b, sep)
    ensures SplitOn(a, sep) == [a]
  {
    IndexOfFirst(a, sep, b);
    var t := a + [sep] + b;
    assert t[..|a|] == a && t[|a| + 1..] == b;
  }

  /** `split_once(sep)` */
  function SplitOnce(s: string, sep: char): Option<(string, string)>
  {
    var i := IndexOf(s, sep);
    if i == |s| then None else Some((s[..i], s[i + 1..]))
  }

  // --- white space ----------------------------------------------------------

  /** The Unicode White_Space property. */
  predicate IsWhite(c: char)
  {
    var n := c as int;
    9 <= n <= 13 || n == 32 || n == 0x85 || n == 0xA0 || n == 0x1680 || 0x2000 <= n <= 0x200A
    || n == 0x2028 || n == 0x2029 || n == 0x202F || n == 0x205F || n == 0x3000
  }

  predicate NoWhite(s: string) { forall i :: 0 <= i < |s| ==> !IsWhite(s[i]) }

  function TrimStart(s: string): string
  {
    if s != [] && IsWhite(s[0]) then TrimStart(s[1..]) else s
  }

  function TrimEnd(s: string): string
  {
    if s != [] && IsWhite(s[|s| - 1]) then TrimEnd(s[..|s| - 1]) else s
  }

  function Trim(s: string): string { TrimEnd(TrimStart(s)) }

  /** Nothing for `trim` to take off. */
  predicate Trimmed(s: string)
  {
    s == [] || (!IsWhite(s[0]) && !IsWhite(s[|s| - 1]))
  }

  /** The space a header writer puts after the colon is trimmed off again. */
  lemma TrimOneSpace(s: string)
    requires Trimmed(s)
    ensures Trim(" " + s) == s && Trim(s) == s
  {
    assert (" " + s)[1..] == s;
    assert TrimStart(" " + s) == TrimStart(s) == s;
  }

  function WordEnd(s: string): (i: nat)
    ensures i <= |s| && (forall k :: 0 <= k < i ==> !IsWhite(s[k]))
    ensures i < |s| ==> IsWhite(s[i])
  {
    if s == [] || IsWhite(s[0]) then 0 else
      var j := WordEnd(s[1..]);
      assert forall k :: 0 < k < 1 + j ==> s[k] == s[1..][k - 1];
      1 + j
  }

  lemma {:induction false} WordStops(s: string, n: nat)
    requires n < |s| && IsWhite(s[n])
    ensures WordEnd(s) <= n
  {
    if n > 0 && !IsWhite(s[0]) {
      WordStops(s[1..], n - 1);
    }
  }

  lemma TrimStartShrinks(s: string)
    ensures |TrimStart(s)| <= |s|
  {
  }

  /** `split_whitespace()` */
  function Words(s: string): seq<string>
    decreases |s|
  {
    TrimStartShrinks(s);
    var t := TrimStart(s);
    var i := WordEnd(t);
    if i == 0 then [] else [t[..i]] + Words(t[i..])
  }

  lemma FirstWord(w: string, rest: string)
    requires w != [] && NoWhite(w)
    requires rest != [] ==> IsWhite(rest[0])
    ensures Words(w + rest) == [w] + Words(rest)
  {
    var s := w + rest;
    assert s[0] == w[0];
    assert TrimStart(s) == s;
    var i := WordEnd(s);
    if rest != [] {
      WordStops(s, |w|);
    }
    assert forall k :: 0 <= k < |w| ==> s[k] == w[k];
    assert s[..|w|] == w && s[|w|..] == rest;
  }

  lemma WordsSkipSpace(s: string)
    ensures Words(" " + s) == Words(s)
  {
    assert (" " + s)[1..] == s;
  }

  // --- case -----------------------------------------------------------------

  function AsciiLower(c: char): char
  {
    if 'A' <= c <= 'Z' then (c as int + 32) as char else c
  }

  predicate EqIgnoreAsciiCase(a: string, b: string)
  {
    |a| == |b| && forall i :: 0 <= i < |a| ==> AsciiLower(a[i]) == AsciiLower(b[i])
  }
}
