/** The STUN message codec (section 5 of RFC 8489 for the header and section
    14 for the attribute layout). */
module Stun {
  import opened Bytes
  import Utf8

  const MAGIC_COOKIE: nat := 0x2112_A442
  /** The same on the wire. */
  const COOKIE: bytes := [0x21, 0x12, 0xA4, 0x42]
  const HEADER_LEN: nat := 20

  datatype Method = Binding | Allocate | Refresh | CreatePermission | Connect | ConnectionBind

  datatype MessageClass = Request | Indication | SuccessResponse | ErrorResponse

  /** Attribute types, as their wire numbers. */
  const USERNAME: nat := 0x0006
  const MESSAGE_INTEGRITY: nat := 0x0008
  const ERROR_CODE: nat := 0x0009
  const LIFETIME: nat := 0x000D
  const XOR_PEER_ADDRESS: nat := 0x0012
  const REALM: nat := 0x0014
  const NONCE: nat := 0x0015
  const XOR_RELAYED_ADDRESS: nat := 0x0016
  const XOR_MAPPED_ADDRESS: nat := 0x0020
  const REQUESTED_TRANSPORT: nat := 0x0019
  const CONNECTION_ID: nat := 0x002A

  lemma CookieBytes()
    ensures ReadU32(COOKIE) == MAGIC_COOKIE && COOKIE == BeU32(MAGIC_COOKIE)
    ensures MAGIC_COOKIE / 65536 == PORT_MASK
  {
    hide BeU32, BeU16;
    BytesOfCookie(MAGIC_COOKIE);
  }

  lemma BytesOfCookie(n: nat)
    requires n == MAGIC_COOKIE
    ensures BeU32(n) == COOKIE
  {
    hide BeU16;
    QuotIsDivision(n, 65536);
    assert n / 65536 == 0x2112;
    U16Reprints(0x21, 0x12);
    hide Quot;
    LowHalf(n);
  }

  /** Reading the cookie as a number and comparing its bytes is the same test. */
  lemma CookieExactly(b: bytes)
    requires |b| == 4
    ensures ReadU32(b) == MAGIC_COOKIE <==> b == COOKIE
  {
    if ReadU32(b) == MAGIC_COOKIE {
      DivisionIsUnique(65536, ReadU16(b[0], b[1]), ReadU16(b[2], b[3]), 0x2112, 0xA442);
      DivisionIsUnique(256, b[0], b[1], 0x21, 0x12);
      DivisionIsUnique(256, b[2], b[3], 0xA4, 0x42);
      assert b == [b[0], b[1], b[2], b[3]];
    }
  }

  lemma LowHalf(n: nat)
    requires n == MAGIC_COOKIE
    ensures BeU16(n) == [0xA4, 0x42]
  {
    hide Quot, Rem;
    QuotIsDivision(n, 256);
    QuotIsDivision(n / 256, 256);
    assert n / 256 == 0x2112A4;
  }

  // --- message type ---------------------------------------------------------

  function MethodCode(m: Method): nat
  {
    match m
    case Binding => 0x001
    case Allocate => 0x003
    case Refresh => 0x004
    case CreatePermission => 0x008
    case Connect => 0x00A
    case ConnectionBind => 0x00B
  }

  function MethodOf(code: nat): Option<Method>
  {
    match code
    case 0x001 => Some(Binding)
    case 0x003 => Some(Allocate)
    case 0x004 => Some(Refresh)
    case 0x008 => Some(CreatePermission)
    case 0x00A => Some(Connect)
    case 0x00B => Some(ConnectionBind)
    case _ => None
  }

  function ClassCode(c: MessageClass): nat
  {
    match c
    case Request => 0
    case Indication => 1
    case SuccessResponse => 2
    case ErrorResponse => 3
  }

  /** Method bits 0-3, 4-6 and 7-11 go to type bits 0-3, 5-7 and 9-13; the class
      bits go to type bits 4 and 8. */
  function EncodeType(m: Method, c: MessageClass): nat
  {
    var n := MethodCode(m);
    512 * Field(n, 128, 32) + 32 * Field(n, 16, 8) + Rem(n, 16)
    + 256 * Quot(ClassCode(c), 2) + 16 * Rem(ClassCode(c), 2)
  }

  /** The field of `n` that starts at the bit `low` stands for and has `size`
      values: a shift and a mask. */
  function Field(n: nat, low: nat, size: nat): nat
    requires low > 0 && size > 0
  {
    Rem(Quot(n, low), size)
  }

  lemma FieldIs(n: nat, low: nat, size: nat)
    requires low > 0 && size > 0
    ensures Field(n, low, size) == n / low % size
  {
    QuotIsDivision(n, low);
    QuotIsDivision(Quot(n, low), size);
  }

  function DecodeType(t: nat): Option<(Method, MessageClass)>
  {
    var op := MethodOf(128 * Field(t, 512, 32) + 16 * Field(t, 32, 8) + Rem(t, 16));
    var cls := match (Field(t, 256, 2), Field(t, 16, 2)) {
      case (0, 0) => Request
      case (0, 1) => Indication
      case (1, 0) => SuccessResponse
      case _ => ErrorResponse
    };
    if op.None? then None else Some((op.value, cls))
  }

  /** Decoding inverts encoding; and what decodes is the encoding up to the two
      top bits, which the decoder does not look at. */
  lemma TypeRoundTrip(m: Method, c: MessageClass)
    ensures EncodeType(m, c) < 0x4000
    ensures DecodeType(EncodeType(m, c)) == Some((m, c))
  {
    hide MethodOf, MethodCode, ClassCode, EncodeType, Field, Rem;
    var n, hi, lo := MethodCode(m), ClassCode(c) / 2, ClassCode(c) % 2;
    SmallCodes(m, c);
    TypeSum(m, c);
    FieldsOf(hi, lo, n);
    TypeFields(EncodeType(m, c));
  }

  /** The five pieces of a type field. */
  lemma TypeFields(t: nat)
    ensures Field(t, 512, 32) == t / 512 % 32 && Field(t, 32, 8) == t / 32 % 8 && Rem(t, 16) == t % 16
    ensures Field(t, 256, 2) == t / 256 % 2 && Field(t, 16, 2) == t / 16 % 2
  {
    hide Field, Rem;
    FieldIs(t, 512, 32);
    FieldIs(t, 32, 8);
    FieldIs(t, 256, 2);
    FieldIs(t, 16, 2);
    QuotIsDivision(t, 16);
  }

  lemma TypeSum(m: Method, c: MessageClass)
    ensures EncodeType(m, c) == 256 * (ClassCode(c) / 2) + 16 * (ClassCode(c) % 2) + MethodCode(m)
  {
    hide ClassCode, Field, Rem, Quot;
    var n := MethodCode(m);
    FieldIs(n, 128, 32);
    FieldIs(n, 16, 8);
    QuotIsDivision(n, 16);
    QuotIsDivision(ClassCode(c), 2);
    assert n / 128 == 0 && n / 16 == 0 && n % 16 == n;
  }

  lemma SmallCodes(m: Method, c: MessageClass)
    ensures MethodCode(m) < 16 && MethodOf(MethodCode(m)) == Some(m)
    ensures ClassCode(c) < 4
    ensures var (hi, lo) := (ClassCode(c) / 2, ClassCode(c) % 2);
            c == if hi == 0 then (if lo == 0 then Request else Indication)
                 else if lo == 0 then SuccessResponse else ErrorResponse
  {
  }

  lemma FieldsOf(hi: nat, lo: nat, n: nat)
    requires hi < 2 && lo < 2 && n < 16
    ensures var t := 256 * hi + 16 * lo + n;
            t / 512 == 0 && t / 256 == hi && t / 32 % 8 == 0 && t / 16 % 2 == lo && t % 16 == n
  {
    var t := 256 * hi + 16 * lo + n;
    assert t / 16 == 16 * hi + lo;
    assert t / 32 == 8 * hi;
  }

  lemma TypeDecodesOnlyItself(t: nat)
    requires DecodeType(t).Some?
    ensures EncodeType(DecodeType(t).value.0, DecodeType(t).value.1) == t % 0x4000
  {
    hide MethodOf, MethodCode, EncodeType, Field, Rem;
    var n := 128 * (t / 512 % 32) + 16 * (t / 32 % 8) + t % 16;
    TypeFields(t);
    KnownCodes(n);
    assert t / 512 % 32 == 0 && t / 32 % 8 == 0;
    LowFields(t);
    TypeSum(DecodeType(t).value.0, DecodeType(t).value.1);
  }

  lemma KnownCodes(n: nat)
    requires MethodOf(n).Some?
    ensures n < 16 && MethodCode(MethodOf(n).value) == n
  {
  }

  lemma LowFields(t: nat)
    ensures t / 512 % 32 == 0 && t / 32 % 8 == 0
        ==> t % 0x4000 == 256 * (t / 256 % 2) + 16 * (t / 16 % 2) + t % 16
  {
    var u := t / 16;
    var v := u / 2;
    var w := v / 8;
    var x := w / 2;
    assert t / 32 == v && t / 256 == w && t / 512 == x;
    assert x / 32 * 0x4000 + x % 32 * 512 == 512 * x;
    assert t == 512 * x + 256 * (w % 2) + 32 * (v % 8) + 16 * (u % 2) + t % 16;
  }

  // --- writing --------------------------------------------------------------

  type Tid = t: bytes | |t| == 12 witness seq(12, _ => 0)

  datatype AttrPair = AttrPair(kind: nat, value: bytes)
  type Attrs = seq<AttrPair>

  /** How many zero bytes fill the last group of four. */
  function Padding(len: nat): nat
  {
    if len >= 4 then Padding(len - 4) else if len == 0 then 0 else 4 - len
  }

  /** That is what the source computes, and the next multiple of four. */
  lemma {:induction false} PaddingAligns(len: nat)
    ensures Padding(len) == (4 - len % 4) % 4
    ensures Padding(len) < 4 && (len + Padding(len)) % 4 == 0
  {
    if len >= 4 {
      PaddingAligns(len - 4);
      assert len % 4 == (len - 4) % 4;
    }
  }

  /** One attribute on the wire: type, length, value, zero padding. */
  function AttrBytes(a: AttrPair): (b: bytes)
    ensures |b| == 4 + |a.value| + Padding(|a.value|)
  {
    BeU16(a.kind) + BeU16(|a.value|) + a.value + seq(Padding(|a.value|), _ => 0)
  }

  function Body(attrs: Attrs): bytes
  {
    if attrs == [] then [] else AttrBytes(attrs[0]) + Body(attrs[1..])
  }

  function BodyLen(attrs: Attrs): nat
  {
    if attrs == [] then 0
    else 4 + |attrs[0].value| + Padding(|attrs[0].value|) + BodyLen(attrs[1..])
  }

  function Header(m: Method, c: MessageClass, tid: Tid, bodyLen: nat): (h: bytes)
    ensures |h| == HEADER_LEN
  {
    BeU16(EncodeType(m, c)) + BeU16(bodyLen) + COOKIE + tid
  }

  /** HMAC-SHA1, as a function of key and data yielding twenty bytes. */
  ghost predicate IsMac(hmac: (bytes, bytes) -> bytes)
  {
    forall k, d :: |hmac(k, d)| == 20
  }

  /** A message as the builder holds it: header fields and attributes in order. */
  datatype Outgoing = Outgoing(op: Method, cls: MessageClass, tid: Tid, attrs: Attrs) {
    function With(kind: nat, value: bytes): Outgoing
    {
      this.(attrs := attrs + [AttrPair(kind, value)])
    }
  }

  /** The bytes an integrity code covers: the message so far, its length field
      already counting the 24 bytes that will follow. */
  function SignedPart(m: Outgoing): bytes
  {
    Header(m.op, m.cls, m.tid, BodyLen(m.attrs) + 24) + Body(m.attrs)
  }

  function EncodeKeyed(m: Outgoing, key: bytes, hmac: (bytes, bytes) -> bytes): bytes
  {
    SignedPart(m) + AttrBytes(AttrPair(MESSAGE_INTEGRITY, hmac(key, SignedPart(m))))
  }

  function EncodePlain(m: Outgoing): bytes
  {
    Header(m.op, m.cls, m.tid, BodyLen(m.attrs)) + Body(m.attrs)
  }

  // --- reading --------------------------------------------------------------

  datatype Incoming = Incoming(op: Method, cls: MessageClass, tid: Tid, attrs: Attrs)

  datatype DecodeError = ShortHeader | TruncatedBody | BadCookie | UnknownMethod | TruncatedAttribute

  /** The attributes in buf[off..end]; a tail of fewer than four bytes is ignored,
      and an attribute whose padding runs past the end still counts. */
  function ParseAttrs(buf: bytes, off: nat, end: nat): Result<Attrs, DecodeError>
    requires end <= |buf|
    decreases end + 4 - off
  {
    if off + 4 > end then Ok([])
    else
      var l := ReadU16(buf[off + 2], buf[off + 3]);
      if off + 4 + l > end then Err(TruncatedAttribute)
      else
        var rest := ParseAttrs(buf, off + 4 + l + Padding(l), end);
        if rest.Err? then rest
        else Ok([AttrPair(ReadU16(buf[off], buf[off + 1]), buf[off + 4..off + 4 + l])] + rest.value)
  }

  function DeclaredBody(buf: bytes): nat
    requires |buf| >= HEADER_LEN
  {
    ReadU16(buf[2], buf[3])
  }

  /** Defined on every byte sequence. */
  function Decode(buf: bytes): Result<Incoming, DecodeError>
  {
    if |buf| < HEADER_LEN then Err(ShortHeader)
    else if |buf| < HEADER_LEN + DeclaredBody(buf) then Err(TruncatedBody)
    else if buf[4..8] != COOKIE then Err(BadCookie)
    else
      var t := DecodeType(ReadU16(buf[0], buf[1]));
      if t.None? then Err(UnknownMethod)
      else
        var attrs := ParseAttrs(buf, HEADER_LEN, HEADER_LEN + DeclaredBody(buf));
        if attrs.Err? then Err(attrs.error)
        else Ok(Incoming(t.value.0, t.value.1, buf[8..20], attrs.value))
  }

  // --- the round trip -------------------------------------------------------

  predicate WireKinds(attrs: Attrs) { forall a :: a in attrs ==> a.kind < 65536 }

  lemma {:induction false} BodyLength(attrs: Attrs)
    ensures |Body(attrs)| == BodyLen(attrs) && BodyLen(attrs) % 4 == 0
  {
    hide Padding;
    if attrs != [] {
      BodyLength(attrs[1..]);
      PaddingAligns(|attrs[0].value|);
    }
  }

  lemma {:induction false} BodyAppend(a: Attrs, b: Attrs)
    ensures Body(a + b) == Body(a) + Body(b)
    ensures BodyLen(a + b) == BodyLen(a) + BodyLen(b)
  {
    if a == [] {
      assert a + b == b;
    } else {
      assert (a + b)[1..] == a[1..] + b;
      BodyAppend(a[1..], b);
    }
  }

  lemma BodySingle(a: AttrPair)
    ensures Body([a]) == AttrBytes(a)
    ensures BodyLen([a]) == 4 + |a.value| + Padding(|a.value|)
  {
    assert [a][1..] == [];
  }

  lemma AttrFields(a: AttrPair, pre: bytes, post: bytes)
    requires a.kind < 65536 && |a.value| < 65536
    ensures var buf := pre + AttrBytes(a) + post;
            var o := |pre|;
            && ReadU16(buf[o], buf[o + 1]) == a.kind
            && ReadU16(buf[o + 2], buf[o + 3]) == |a.value|
            && buf[o + 4..o + 4 + |a.value|] == a.value
  {
    hide BeU16, ReadU16, Padding;
    U16RoundTrip(a.kind);
    U16RoundTrip(|a.value|);
    var buf := pre + AttrBytes(a) + post;
    var o := |pre|;
    assert buf[o..o + |AttrBytes(a)|] == AttrBytes(a);
    assert forall i :: 0 <= i < |AttrBytes(a)| ==> buf[o + i] == AttrBytes(a)[i];
  }

  lemma {:induction false} ParseBody(pre: bytes, attrs: Attrs, post: bytes)
    requires WireKinds(attrs) && BodyLen(attrs) < 65536
    ensures |Body(attrs)| == BodyLen(attrs)
    ensures ParseAttrs(pre + Body(attrs) + post, |pre|, |pre| + BodyLen(attrs)) == Ok(attrs)
    decreases attrs
  {
    hide Padding, ReadU16, BeU16, ParseAttrs, AttrBytes;
    BodyLength(attrs);
    var buf := pre + Body(attrs) + post;
    if attrs == [] {
      NothingToParse(buf, |pre|);
    } else {
      var a, rest := attrs[0], attrs[1..];
      assert buf == pre + AttrBytes(a) + (Body(rest) + post);
      AttrFields(a, pre, Body(rest) + post);
      ParseBody(pre + AttrBytes(a), rest, post);
      assert buf == (pre + AttrBytes(a)) + Body(rest) + post;
      assert attrs == [a] + rest;
      ParseStep(buf, |pre|, |pre| + BodyLen(attrs), a, rest);
    }
  }

  lemma NothingToParse(buf: bytes, off: nat)
    requires off <= |buf|
    ensures ParseAttrs(buf, off, off) == Ok([])
  {
  }

  lemma ParseStep(buf: bytes, off: nat, end: nat, a: AttrPair, rest: Attrs)
    requires off + 4 + |a.value| <= end <= |buf|
    requires ReadU16(buf[off], buf[off + 1]) == a.kind && ReadU16(buf[off + 2], buf[off + 3]) == |a.value|
    requires buf[off + 4..off + 4 + |a.value|] == a.value
    requires ParseAttrs(buf, off + 4 + |a.value| + Padding(|a.value|), end) == Ok(rest)
    ensures ParseAttrs(buf, off, end) == Ok([a] + rest)
  {
    hide Padding, ReadU16;
  }

  /** Padding included, the attributes read from a window fill at most the window
      plus the three padding bytes that may hang over its end. */
  lemma {:induction false} ParsedFits(buf: bytes, off: nat, end: nat)
    requires end <= |buf| && ParseAttrs(buf, off, end).Ok?
    ensures off <= end + 3 ==> off + BodyLen(ParseAttrs(buf, off, end).value) <= end + 3
    decreases end + 4 - off
  {
    if off + 4 <= end {
      var l := ReadU16(buf[off + 2], buf[off + 3]);
      PaddingAligns(l);
      ParsedFits(buf, off + 4 + l + Padding(l), end);
      var attrs := ParseAttrs(buf, off, end).value;
      assert attrs[1..] == ParseAttrs(buf, off + 4 + l + Padding(l), end).value;
    }
  }

  lemma HeaderFields(m: Method, c: MessageClass, tid: Tid, bodyLen: nat, rest: bytes)
    ensures var buf := Header(m, c, tid, bodyLen) + rest;
            && DeclaredBody(buf) == bodyLen % 65536
            && buf[4..8] == COOKIE
            && DecodeType(ReadU16(buf[0], buf[1])) == Some((m, c))
            && buf[8..20] == tid
  {
    hide ReadU16, ReadU32, EncodeType, DecodeType, BeU16, BeU32;
    TypeRoundTrip(m, c);
    U16RoundTrip(EncodeType(m, c));
    U16RoundTrip(bodyLen);
    FourParts(BeU16(EncodeType(m, c)), BeU16(bodyLen), COOKIE, tid, rest);
  }

  lemma FourParts(a: bytes, b: bytes, c: bytes, d: bytes, rest: bytes)
    requires |a| == |b| == 2 && |c| == 4 && |d| == 12
    ensures var buf := a + b + c + d + rest;
            && buf[0] == a[0] && buf[1] == a[1] && buf[2] == b[0] && buf[3] == b[1]
            && buf[4..8] == c && buf[8..20] == d
  {
  }

  /** The plain round trip, exactly where it holds: a message followed by any
      bytes decodes to its own fields and full attribute list if and only if its
      attributes fit the sixteen-bit length field. */
  lemma PlainRoundTrip(m: Outgoing, tail: bytes)
    requires WireKinds(m.attrs)
    ensures Decode(EncodePlain(m) + tail) == Ok(Incoming(m.op, m.cls, m.tid, m.attrs))
            <==> BodyLen(m.attrs) < 65536
  {
    hide ReadU16, ReadU32, EncodeType, DecodeType, Padding, Header, BeU16, Body, BodyLen, ParseAttrs;
    var body := Body(m.attrs);
    var n := BodyLen(m.attrs);
    var header := Header(m.op, m.cls, m.tid, n);
    var buf := EncodePlain(m) + tail;
    BodyLength(m.attrs);
    assert buf == header + (body + tail) == header + body + tail;
    HeaderFields(m.op, m.cls, m.tid, n, body + tail);
    if n < 65536 {
      ParseBody(header, m.attrs, tail);
    } else {
      var end := HEADER_LEN + n % 65536;
      if ParseAttrs(buf, HEADER_LEN, end).Ok? {
        ParsedFits(buf, HEADER_LEN, end);
      }
    }
  }

  /** A keyed message is the plain encoding with the integrity code as its last
      attribute. */
  lemma KeyedIsPlain(m: Outgoing, key: bytes, hmac: (bytes, bytes) -> bytes)
    requires |hmac(key, SignedPart(m))| == 20
    ensures EncodeKeyed(m, key, hmac)
         == EncodePlain(m.With(MESSAGE_INTEGRITY, hmac(key, SignedPart(m))))
  {
    hide Header, BeU16;
    var mac := AttrPair(MESSAGE_INTEGRITY, hmac(key, SignedPart(m)));
    BodyAppend(m.attrs, [mac]);
    BodySingle(mac);
  }

  /** The keyed round trip: the same, with the integrity code at the end of the
      list and 24 bytes less room. */
  lemma KeyedRoundTrip(m: Outgoing, key: bytes, hmac: (bytes, bytes) -> bytes, tail: bytes)
    requires WireKinds(m.attrs) && |hmac(key, SignedPart(m))| == 20
    ensures Decode(EncodeKeyed(m, key, hmac) + tail)
         == Ok(Incoming(m.op, m.cls, m.tid,
                        m.attrs + [AttrPair(MESSAGE_INTEGRITY, hmac(key, SignedPart(m)))]))
         <==> BodyLen(m.attrs) + 24 < 65536
  {
    hide Decode, Header, EncodeKeyed, EncodePlain, SignedPart, Body, BodyLen;
    var signed := m.With(MESSAGE_INTEGRITY, hmac(key, SignedPart(m)));
    KeyedIsPlain(m, key, hmac);
    PlainRoundTrip(signed, tail);
    var mac := AttrPair(MESSAGE_INTEGRITY, hmac(key, SignedPart(m)));
    BodyAppend(m.attrs, [mac]);
    BodySingle(mac);
  }

  lemma {:induction false} ParseLocal(a: bytes, b: bytes, off: nat, end: nat)
    requires end <= |a| && end <= |b| && forall i :: 0 <= i < end ==> a[i] == b[i]
    ensures ParseAttrs(a, off, end) == ParseAttrs(b, off, end)
    decreases end + 4 - off
  {
    if off + 4 <= end {
      var l := ReadU16(a[off + 2], a[off + 3]);
      if off + 4 + l <= end {
        ParseLocal(a, b, off + 4 + l + Padding(l), end);
        assert a[off + 4..off + 4 + l] == b[off + 4..off + 4 + l];
      }
    }
  }

  /** Once the declared body is there, the bytes after it make no difference,
      whether the message decodes or is refused. */
  lemma DecodeIgnoresTail(buf: bytes, tail: bytes)
    requires |buf| >= HEADER_LEN && |buf| >= HEADER_LEN + DeclaredBody(buf)
    ensures Decode(buf + tail) == Decode(buf)
  {
    var end := HEADER_LEN + DeclaredBody(buf);
    assert forall i :: 0 <= i < end ==> (buf + tail)[i] == buf[i];
    assert (buf + tail)[4..8] == buf[4..8] && (buf + tail)[8..20] == buf[8..20];
    ParseLocal(buf + tail, buf, HEADER_LEN, end);
  }

  // --- what decodes ---------------------------------------------------------

  /** The attributes lie end to end in buf[off..end], each with its type, its length
      and its value inside the window, padded to four bytes; fewer than four bytes
      are left. */
  ghost predicate Tiles(buf: bytes, off: nat, end: nat, attrs: Attrs)
    requires end <= |buf|
    decreases |attrs|
  {
    if attrs == [] then off + 4 > end
    else
      && Starts(buf, off, end, attrs[0])
      && Tiles(buf, off + 4 + |attrs[0].value| + Padding(|attrs[0].value|), end, attrs[1..])
  }

  ghost predicate Starts(buf: bytes, off: nat, end: nat, a: AttrPair)
    requires end <= |buf|
  {
    && off + 4 + |a.value| <= end
    && ReadU16(buf[off], buf[off + 1]) == a.kind && ReadU16(buf[off + 2], buf[off + 3]) == |a.value|
    && buf[off + 4..off + 4 + |a.value|] == a.value
  }

  ghost predicate Tiled(buf: bytes, off: nat, end: nat)
    requires end <= |buf|
  {
    exists attrs :: Tiles(buf, off, end, attrs)
  }

  /** The attribute reader succeeds exactly on windows that are tiled like that, and
      with that list; all it ever complains of is an attribute that is cut short. */
  lemma {:induction false} AttrsExactly(buf: bytes, off: nat, end: nat, attrs: Attrs)
    requires end <= |buf|
    ensures ParseAttrs(buf, off, end) == Ok(attrs) <==> Tiles(buf, off, end, attrs)
    ensures ParseAttrs(buf, off, end).Err? ==> ParseAttrs(buf, off, end).error == TruncatedAttribute
    decreases end + 4 - off
  {
    hide Padding, ReadU16;
    if off + 4 <= end {
      var l := ReadU16(buf[off + 2], buf[off + 3]);
      if off + 4 + l <= end {
        var next := off + 4 + l + Padding(l);
        var first := AttrPair(ReadU16(buf[off], buf[off + 1]), buf[off + 4..off + 4 + l]);
        AttrsExactly(buf, next, end, if attrs == [] then [] else attrs[1..]);
        FirstAttr(buf, off, end, attrs, first);
      }
    }
  }

  lemma FirstAttr(buf: bytes, off: nat, end: nat, attrs: Attrs, first: AttrPair)
    requires off + 4 + |first.value| <= end <= |buf| && Starts(buf, off, end, first)
    requires attrs != [] ==>
               var next := off + 4 + |first.value| + Padding(|first.value|);
               ParseAttrs(buf, next, end) == Ok(attrs[1..]) <==> Tiles(buf, next, end, attrs[1..])
    ensures ParseAttrs(buf, off, end) == Ok(attrs) <==> Tiles(buf, off, end, attrs)
  {
    hide Padding, ReadU16;
    var next := off + 4 + |first.value| + Padding(|first.value|);
    var rest := ParseAttrs(buf, next, end);
    assert ParseAttrs(buf, off, end) == if rest.Err? then rest else Ok([first] + rest.value);
    if attrs != [] {
      assert Starts(buf, off, end, attrs[0]) <==> attrs[0] == first;
      assert attrs == [attrs[0]] + attrs[1..];
      assert rest.Ok? ==> ([first] + rest.value)[0] == first && ([first] + rest.value)[1..] == rest.value;
    }
  }

  /** Why a message is refused: fewer than twenty bytes, less than the declared body,
      another cookie, a type of no known method, or an attribute cut short; in this
      order. Everything else decodes. */
  lemma RefusedExactly(buf: bytes)
    ensures Decode(buf) == Err(ShortHeader) <==> |buf| < 20
    ensures |buf| >= 20 ==>
              var end := 20 + ReadU16(buf[2], buf[3]);
              var kind := ReadU16(buf[0], buf[1]);
              && (Decode(buf) == Err(TruncatedBody) <==> |buf| < end)
              && (|buf| >= end ==>
                    && (Decode(buf) == Err(BadCookie) <==> buf[4..8] != [0x21, 0x12, 0xA4, 0x42])
                    && (buf[4..8] == [0x21, 0x12, 0xA4, 0x42] ==>
                          && (Decode(buf) == Err(UnknownMethod) <==> DecodeType(kind).None?)
                          && (DecodeType(kind).Some? ==> (Decode(buf).Ok? <==> Tiled(buf, 20, end)))))
  {
    hide DecodeType, ParseAttrs, Tiles, ReadU16;
    if |buf| >= 20 && |buf| >= 20 + DeclaredBody(buf) {
      var end := 20 + DeclaredBody(buf);
      var parsed := ParseAttrs(buf, 20, end);
      AttrsExactly(buf, 20, end, if parsed.Ok? then parsed.value else []);
      forall attrs ensures parsed == Ok(attrs) <==> Tiles(buf, 20, end, attrs) {
        AttrsExactly(buf, 20, end, attrs);
      }
    }
  }

  // --- attribute access -----------------------------------------------------

  /** `find`: the first attribute of the type. */
  function Find(attrs: Attrs, kind: nat): Option<bytes>
  {
    if attrs == [] then None
    else if attrs[0].kind == kind then Some(attrs[0].value)
    else Find(attrs[1..], kind)
  }

  function StringAttr(attrs: Attrs, kind: nat): Option<string>
  {
    match Find(attrs, kind)
    case None => None
    case Some(v) => Some(Utf8.DecodeLossy(v))
  }

  function U32Attr(attrs: Attrs, kind: nat): Option<nat>
  {
    match Find(attrs, kind)
    case None => None
    case Some(v) => if |v| == 4 then Some(ReadU32(v)) else None
  }

  /** ERROR-CODE (section 14.8 of RFC 8489): class times hundred plus number. */
  function ErrorCodeOf(attrs: Attrs): Option<(nat, string)>
  {
    match Find(attrs, ERROR_CODE)
    case None => None
    case Some(v) =>
      if |v| < 4 then None else Some(((v[2] as int % 8) * 100 + v[3] as int, Utf8.DecodeLossy(v[4..])))
  }

  // --- XOR addresses --------------------------------------------------------

  datatype SocketAddr =
    | V4(ip: bytes, port: nat)
    | V6(ip: bytes, port: nat)
  {
    predicate Valid()
    {
      port < 65536 && (if V4? then |ip| == 4 else |ip| == 16)
    }
  }

  function XorBytes(a: bytes, b: bytes): (r: bytes)
    requires |a| <= |b|
    ensures |r| == |a|
  {
    seq(|a|, i requires 0 <= i < |a| => XorByte(a[i], b[i]))
  }

  /** The upper half of the cookie. */
  const PORT_MASK: nat := 0x2112

  /** Section 14.2 of RFC 8489. */
  function XorAddressBytes(addr: SocketAddr, tid: Tid): bytes
    requires addr.Valid()
  {
    if addr.V4? then [0x00, 0x01] + BeU16(Xor(addr.port, PORT_MASK)) + XorBytes(addr.ip, COOKIE)
    else [0x00, 0x02] + BeU16(Xor(addr.port, PORT_MASK)) + XorBytes(addr.ip, COOKIE + tid)
  }

  function DecodeXorAddress(v: bytes): (r: Option<SocketAddr>)
    ensures r.Some? ==> r.value.V4? && |r.value.ip| == 4
  {
    if |v| != 8 || v[1] != 0x01 then None
    else Some(V4(XorBytes(v[4..], COOKIE), Xor(ReadU16(v[2], v[3]), PORT_MASK)))
  }

  lemma XorBytesInvolution(a: bytes, b: bytes)
    requires |a| <= |b|
    ensures XorBytes(XorBytes(a, b), b) == a
  {
    forall i | 0 <= i < |a|
      ensures XorBytes(XorBytes(a, b), b)[i] == a[i]
    {
      XorInvolution(a[i], b[i]);
    }
  }

  /** An IPv4 address survives the wire; an IPv6 one is never read back. */
  lemma XorAddressRoundTrip(addr: SocketAddr, tid: Tid)
    requires addr.Valid()
    ensures DecodeXorAddress(XorAddressBytes(addr, tid)) == if addr.V4? then Some(addr) else None
  {
    hide Xor, XorBytes, BeU16, BeU32, ReadU16;
    if addr.V4? {
      var p := Xor(addr.port, PORT_MASK);
      var masked := XorBytes(addr.ip, COOKIE);
      PortMask(addr.port);
      U16RoundTrip(p);
      XorBytesInvolution(addr.ip, COOKIE);
      EightBytes(BeU16(p), masked, [0x00, 0x01] + BeU16(p) + masked);
    }
  }

  lemma EightBytes(port: bytes, ip: bytes, v: bytes)
    requires |port| == 2 && |ip| == 4 && v == [0x00, 0x01] + port + ip
    ensures |v| == 8 && v[1] == 0x01 && v[2] == port[0] && v[3] == port[1] && v[4..] == ip
  {
  }

  lemma PortMask(port: nat)
    requires port < 65536
    ensures Xor(port, PORT_MASK) < 65536 && Xor(Xor(port, PORT_MASK), PORT_MASK) == port
  {
    assert Pow2(8) == 256 && Pow2(16) == 65536;
    XorWidth(port, PORT_MASK, 16);
    XorInvolution(port, PORT_MASK);
  }

  /** And every attribute value that is read re-encodes to itself, except for
      its reserved first byte. */
  lemma XorAddressReencodes(v: bytes, tid: Tid)
    requires DecodeXorAddress(v).Some?
    ensures DecodeXorAddress(v).value.Valid()
    ensures XorAddressBytes(DecodeXorAddress(v).value, tid) == [0] + v[1..]
  {
    hide Xor, XorBytes, BeU16, BeU32, ReadU16;
    var n := ReadU16(v[2], v[3]);
    U16Reprints(v[2], v[3]);
    PortMask(n);
    XorBytesInvolution(v[4..], COOKIE);
    assert [0] + v[1..] == [0x00, 0x01] + [v[2], v[3]] + v[4..];
  }
}
