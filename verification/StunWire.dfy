/** The builder and the reader of `Stun` as the source runs them: a message
    object that attributes are pushed onto, and loops over a byte buffer. */
module StunWire {
  import opened Bytes
  import opened Stun

  method WriteAttr(buf: bytes, a: AttrPair) returns (out: bytes)
    ensures out == buf + AttrBytes(a)
  {
    out := buf + BeU16(a.kind) + BeU16(|a.value|) + a.value;
    ghost var unpadded := out;
    for i := 0 to Padding(|a.value|)
      invariant out == unpadded + seq(i, _ => 0)
    {
      out := out + [0];
    }
  }

  class Message {
    const op: Method
    const cls: MessageClass
    const tid: Tid
    var attrs: Attrs

    constructor (op: Method, cls: MessageClass, tid: Tid)
      ensures Value() == Outgoing(op, cls, tid, [])
    {
      this.op, this.cls, this.tid, this.attrs := op, cls, tid, [];
    }

    function Value(): Outgoing
      reads this
    {
      Outgoing(op, cls, tid, attrs)
    }

    method Push(kind: nat, value: bytes)
      modifies this
      ensures Value() == old(Value()).With(kind, value)
    {
      attrs := attrs + [AttrPair(kind, value)];
    }

    method AttrsBodyLen() returns (n: nat)
      ensures n == BodyLen(attrs)
    {
      n := 0;
      for i := 0 to |attrs|
        invariant n == BodyLen(attrs[..i])
      {
        BodyAppend(attrs[..i], [attrs[i]]);
        assert attrs[..i + 1] == attrs[..i] + [attrs[i]];
        BodySingle(attrs[i]);
        n := n + 4 + |attrs[i].value| + Padding(|attrs[i].value|);
      }
      assert attrs[..|attrs|] == attrs;
    }

    method WriteBody(header: bytes) returns (buf: bytes)
      ensures buf == header + Body(attrs)
    {
      hide AttrBytes;
      buf := header;
      for i := 0 to |attrs|
        invariant buf == header + Body(attrs[..i])
      {
        BodyAppend(attrs[..i], [attrs[i]]);
        assert attrs[..i + 1] == attrs[..i] + [attrs[i]];
        BodySingle(attrs[i]);
        buf := WriteAttr(buf, attrs[i]);
      }
      assert attrs[..|attrs|] == attrs;
    }

    method Encode(key: Option<bytes>, hmac: (bytes, bytes) -> bytes) returns (buf: bytes)
      ensures buf == match key
                     case Some(k) => EncodeKeyed(Value(), k, hmac)
                     case None => EncodePlain(Value())
    {
      var n := AttrsBodyLen();
      if key.Some? {
        buf := WriteBody(Header(op, cls, tid, n + 24));
        buf := WriteAttr(buf, AttrPair(MESSAGE_INTEGRITY, hmac(key.value, buf)));
      } else {
        buf := WriteBody(Header(op, cls, tid, n));
      }
    }
  }

  /** The attributes found so far, in front of whatever the rest yields. */
  function Behind(found: Attrs, rest: Result<Attrs, DecodeError>): Result<Attrs, DecodeError>
  {
    if rest.Err? then rest else Ok(found + rest.value)
  }

  lemma BehindStep(found: Attrs, a: AttrPair, rest: Result<Attrs, DecodeError>)
    ensures Behind([], rest) == rest
    ensures Behind(found + [a], rest) == Behind(found, Behind([a], rest))
  {
    if rest.Ok? {
      assert [] + rest.value == rest.value;
      assert (found + [a]) + rest.value == found + ([a] + rest.value);
    }
  }

  method DecodeMessage(buf: bytes) returns (r: Result<Incoming, DecodeError>)
    ensures r == Decode(buf)
  {
    hide ReadU16, ReadU32, DecodeType, Padding;
    if |buf| < HEADER_LEN {
      return Err(ShortHeader);
    }
    var end := HEADER_LEN + DeclaredBody(buf);
    if |buf| < end {
      return Err(TruncatedBody);
    }
    CookieExactly(buf[4..8]);
    if ReadU32(buf[4..8]) != MAGIC_COOKIE {
      return Err(BadCookie);
    }
    var t := DecodeType(ReadU16(buf[0], buf[1]));
    if t.None? {
      return Err(UnknownMethod);
    }
    var attrs: Attrs := [];
    var off := HEADER_LEN;
    BehindStep([], AttrPair(0, []), ParseAttrs(buf, off, end));
    while off + 4 <= end
      invariant off >= HEADER_LEN
      invariant ParseAttrs(buf, HEADER_LEN, end) == Behind(attrs, ParseAttrs(buf, off, end))
      decreases end + 4 - off
    {
      var l := ReadU16(buf[off + 2], buf[off + 3]);
      if off + 4 + l > end {
        return Err(TruncatedAttribute);
      }
      var a := AttrPair(ReadU16(buf[off], buf[off + 1]), buf[off + 4..off + 4 + l]);
      BehindStep(attrs, a, ParseAttrs(buf, off + 4 + l + Padding(l), end));
      attrs := attrs + [a];
      off := off + 4 + l + Padding(l);
    }
    assert attrs + [] == attrs;
    r := Ok(Incoming(t.value.0, t.value.1, buf[8..20], attrs));
  }
}
