/** Encodings that are known byte for byte, from the standards and the source. */
module Vectors {
  import opened Bytes
  import opened Stun
  import opened TurnServer
  import opened TurnClient
  import opened Text
  import Utf8

  /** Message types on the wire (section 5 of RFC 8489; methods also section 6.1 of
      RFC 6062). */
  lemma TypeNumbers()
    ensures EncodeType(Binding, Request) == 0x0001 && EncodeType(Binding, SuccessResponse) == 0x0101
    ensures EncodeType(Allocate, Request) == 0x0003 && EncodeType(Allocate, Indication) == 0x0013
    ensures EncodeType(Allocate, SuccessResponse) == 0x0103 && EncodeType(Allocate, ErrorResponse) == 0x0113
    ensures EncodeType(Refresh, Request) == 0x0004 && EncodeType(CreatePermission, Request) == 0x0008
    ensures EncodeType(Connect, Request) == 0x000A && EncodeType(ConnectionBind, Request) == 0x000B
  {
    hide EncodeType;
    TypeSum(Binding, Request);
    TypeSum(Binding, SuccessResponse);
    TypeSum(Allocate, Request);
    TypeSum(Allocate, Indication);
    TypeSum(Allocate, SuccessResponse);
    TypeSum(Allocate, ErrorResponse);
    TypeSum(Refresh, Request);
    TypeSum(CreatePermission, Request);
    TypeSum(Connect, Request);
    TypeSum(ConnectionBind, Request);
  }

  /** The unsigned Allocate that asks for a challenge, for every transaction id. */
  lemma ProbeBytes(tid: Tid)
    ensures EncodePlain(AllocateRequest(tid, 0))
         == [0x00, 0x03, 0x00, 0x08, 0x21, 0x12, 0xA4, 0x42] + tid + [0x00, 0x19, 0x00, 0x04, 0x06, 0x00, 0x00, 0x00]
  {
    hide EncodeType, BeU16, Padding;
    var a := AttrPair(REQUESTED_TRANSPORT, [6, 0, 0, 0]);
    assert AllocateRequest(tid, 0).attrs == [a];
    TypeNumbers();
    SmallNumbers();
    BodySingle(a);
    AttributeBytes(a);
    FourPadded();
    assert [0x00, 0x03] + [0x00, 0x08] + COOKIE == [0x00, 0x03, 0x00, 0x08, 0x21, 0x12, 0xA4, 0x42];
  }

  lemma SmallNumbers()
    ensures BeU16(0x0003) == [0x00, 0x03] && BeU16(8) == [0x00, 0x08] && BeU16(4) == [0x00, 0x04]
    ensures BeU16(0x0019) == [0x00, 0x19] && BeU16(0x002A) == [0x00, 0x2A] && BeU16(0x000B) == [0x00, 0x0B]
  {
    U16Reprints(0, 3);
    U16Reprints(0, 8);
    U16Reprints(0, 4);
    U16Reprints(0, 0x19);
    U16Reprints(0, 0x2A);
    U16Reprints(0, 0x0B);
  }

  lemma FourPadded()
    ensures Padding(4) == 0
  {
  }

  lemma AttributeBytes(a: AttrPair)
    requires |a.value| == 4
    ensures AttrBytes(a) == BeU16(a.kind) + BeU16(4) + a.value
  {
    hide BeU16, Padding;
    FourPadded();
    assert seq(0, _ => 0 as byte) == [];
  }

  /** The unsigned form of a ConnectionBind. */
  lemma BindBytes(tid: Tid, id: nat)
    ensures EncodePlain(BindRequest(tid, id))
         == [0x00, 0x0B, 0x00, 0x08, 0x21, 0x12, 0xA4, 0x42] + tid + [0x00, 0x2A, 0x00, 0x04] + BeU32(id)
  {
    hide EncodeType, BeU16, BeU32, Padding;
    var a := AttrPair(CONNECTION_ID, BeU32(id));
    assert BindRequest(tid, id).attrs == [a];
    TypeNumbers();
    SmallNumbers();
    BodySingle(a);
    AttributeBytes(a);
    FourPadded();
    assert [0x00, 0x0B] + [0x00, 0x08] + COOKIE == [0x00, 0x0B, 0x00, 0x08, 0x21, 0x12, 0xA4, 0x42];
  }

  /** 192.0.2.1, port 32853, masked (section 2.2 of RFC 5769). */
  lemma MaskedAddress(tid: Tid)
    ensures XorAddressBytes(V4([192, 0, 2, 1], 32853), tid) == [0x00, 0x01, 0xA1, 0x47, 0xE1, 0x12, 0xA6, 0x43]
  {
    hide BeU16, Xor, XorBytes;
    MaskedPort();
    U16Reprints(0xA1, 0x47);
    MaskedBytes();
  }

  lemma XorDouble(a: nat, b: nat, i: nat, j: nat)
    requires i < 2 && j < 2
    ensures Xor(2 * a + i, 2 * b + j) == 2 * Xor(a, b) + (if i == j then 0 else 1)
  {
    var x, y := 2 * a + i, 2 * b + j;
    assert x / 2 == a && y / 2 == b && x % 2 == i && y % 2 == j;
  }

  lemma XorQuad(a: nat, b: nat, i: nat, j: nat)
    requires i < 4 && j < 4
    ensures Xor(4 * a + i, 4 * b + j) == 4 * Xor(a, b) + Xor(i, j)
  {
    hide Xor;
    XorDouble(2 * a + i / 2, 2 * b + j / 2, i % 2, j % 2);
    XorDouble(a, b, i / 2, j / 2);
    XorDouble(i / 2, j / 2, i % 2, j % 2);
    XorDouble(0, 0, i / 2, j / 2);
    XorNothing();
  }

  /** Digit by digit in hexadecimal. */
  lemma XorHex(a: nat, b: nat, i: nat, j: nat)
    requires i < 16 && j < 16
    ensures Xor(16 * a + i, 16 * b + j) == 16 * Xor(a, b) + Xor(i, j)
  {
    hide Xor;
    XorQuad(4 * a + i / 4, 4 * b + j / 4, i % 4, j % 4);
    XorQuad(a, b, i / 4, j / 4);
    XorQuad(i / 4, j / 4, i % 4, j % 4);
  }

  lemma XorNothing()
    ensures Xor(0, 0) == 0
  {
  }

  lemma Digits()
    ensures Xor(8, 2) == 0xA && Xor(0, 1) == 1 && Xor(5, 1) == 4 && Xor(5, 2) == 7
    ensures Xor(0xC, 2) == 0xE && Xor(0, 2) == 2 && Xor(0, 0xA) == 0xA && Xor(2, 4) == 6 && Xor(0, 4) == 4
            && Xor(1, 2) == 3
  {
  }

  lemma MaskedPort()
    ensures Xor(32853, 0x2112) == 0xA147
  {
    hide Xor;
    Digits();
    XorHex(0x805, 0x211, 5, 2);
    XorHex(0x80, 0x21, 5, 1);
    XorHex(8, 2, 0, 1);
  }

  lemma MaskedBytes()
    ensures XorBytes([192, 0, 2, 1], COOKIE) == [0xE1, 0x12, 0xA6, 0x43]
  {
    hide Xor;
    Digits();
    XorHex(0xC, 2, 0, 1);
    XorHex(0, 1, 0, 2);
    XorHex(0, 0xA, 2, 4);
    XorHex(0, 4, 1, 2);
  }

  /** One character of each length in UTF-8. */
  lemma KnownCharacters()
    ensures Utf8.EncodeChar('A') == [0x41] && Utf8.EncodeChar('\U{E9}') == [0xC3, 0xA9]
    ensures Utf8.EncodeChar('\U{20AC}') == [0xE2, 0x82, 0xAC]
    ensures Utf8.EncodeChar('\U{1F600}') == [0xF0, 0x9F, 0x98, 0x80]
  {
  }

  /** What the lossy decoder makes of bytes that are not UTF-8: one replacement
      character for each maximal part of a character that might have been. */
  lemma KnownLosses()
    ensures Utf8.DecodeHead([0xFF]) == ('\U{FFFD}', 1) && Utf8.DecodeHead([0xC0, 0x80]) == ('\U{FFFD}', 1)
    ensures Utf8.DecodeHead([0xE2, 0x82]) == ('\U{FFFD}', 2) && Utf8.DecodeHead([0xED, 0xA0, 0x80]) == ('\U{FFFD}', 1)
    ensures Utf8.DecodeHead([0xF0, 0x9F, 0x98]) == ('\U{FFFD}', 3) && Utf8.DecodeHead([0xF4, 0x90]) == ('\U{FFFD}', 1)
    ensures Utf8.DecodeHead([0xC3, 0x41]) == ('\U{FFFD}', 1)
  {
  }

  /** What parses as an unsigned number and what does not. */
  lemma KnownNumbers()
    ensures ParseUnsigned("7", 255) == Some(7) && ParseUnsigned("+7", 255) == Some(7)
    ensures ParseUnsigned("007", 255) == Some(7) && ParseUnsigned("256", 255) == None
    ensures ParseUnsigned("", 255) == None && ParseUnsigned("+", 255) == None
    ensures ParseUnsigned("-7", 255) == None && ParseUnsigned("7a", 255) == None && ParseUnsigned(" 7", 255) == None
  {
    assert "007"[..2] == "00" && "00"[..1] == "0" && "0"[..0] == "";
    assert "256"[..2] == "25" && "25"[..1] == "2" && "2"[..0] == "";
  }

  /** The twenty-five characters that count as white space. */
  lemma KnownSpaces(c: char)
    ensures IsWhite(c) <==>
            c in "\t\n\U{B}\U{C}\r \U{85}\U{A0}\U{1680}" + "\U{2000}\U{2001}\U{2002}\U{2003}\U{2004}\U{2005}"
                 + "\U{2006}\U{2007}\U{2008}\U{2009}\U{200A}" + "\U{2028}\U{2029}\U{202F}\U{205F}\U{3000}"
  {
  }
}
