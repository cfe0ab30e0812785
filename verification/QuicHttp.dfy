/** HTTP/1.1 over a QUIC stream: the hand-written head writer, the incremental
    reader on the server side, the reply writer and the reply decoder. */
module QuicHttp {
  import opened Bytes
  import opened Text
  import Utf8

  const CRLF := "\r\n"
  const USIZE_MAX: nat := 0xFFFF_FFFF_FFFF_FFFF

  // --- lines ----------------------------------------------------------------

  /** Index of the first CRLF, or the length when there is none. */
  function FindCrlf(s: string): (i: nat)
    ensures i <= |s|
    ensures i < |s| ==> i + 2 <= |s| && s[i] == '\r' && s[i + 1] == '\n'
  {
    if |s| < 2 then |s|
    else if s[0] == '\r' && s[1] == '\n' then 0
    else 1 + FindCrlf(s[1..])
  }

  predicate NoCrlf(s: string) { FindCrlf(s) == |s| }

  /** `split("\r\n")` */
  function Lines(s: string): (parts: seq<string>)
    ensures parts != []
    decreases |s|
  {
    var i := FindCrlf(s);
    if i == |s| then [s] else [s[..i]] + Lines(s[i + 2..])
  }

  lemma {:induction false} FirstCrlf(l: string, rest: string)
    requires NoCrlf(l)
    ensures FindCrlf(l + CRLF + rest) == |l|
  {
    var s := l + CRLF + rest;
    if l != [] {
      assert s[1..] == l[1..] + CRLF + rest;
      FirstCrlf(l[1..], rest);
      assert !(s[0] == '\r' && s[1] == '\n');
    }
  }

  lemma FirstLine(l: string, rest: string)
    requires NoCrlf(l)
    ensures Lines(l + CRLF + rest) == [l] + Lines(rest)
  {
    FirstCrlf(l, rest);
    var s := l + CRLF + rest;
    assert s[..|l|] == l && s[|l| + 2..] == rest;
  }

  lemma {:induction false} CrlfIsFound(s: string, j: nat)
    requires j + 2 <= |s| && s[j] == '\r' && s[j + 1] == '\n'
    ensures FindCrlf(s) <= j
  {
    if j > 0 && !(s[0] == '\r' && s[1] == '\n') {
      CrlfIsFound(s[1..], j - 1);
    }
  }

  /** Lines, each ended by a CRLF. */
  function Joined(lines: seq<string>): string
  {
    if lines == [] then [] else lines[0] + CRLF + Joined(lines[1..])
  }

  predicate GoodLines(lines: seq<string>)
  {
    forall i :: 0 <= i < |lines| ==> lines[i] != [] && NoCrlf(lines[i])
  }

  function Head(lines: seq<string>): string { Joined(lines) + CRLF }

  /** Splitting a head gives its lines back, then the empty line, whatever the
      bytes after it decode to. */
  lemma {:induction false} HeadLines(lines: seq<string>, rest: string)
    requires GoodLines(lines)
    ensures Lines(Head(lines) + rest) == lines + [""] + Lines(rest)
  {
    hide Lines, Head, FindCrlf;
    HeadUnfolds(lines, rest);
    if lines == [] {
      NoCrlfInNothing();
      FirstLine("", rest);
    } else {
      var tail := Head(lines[1..]) + rest;
      FirstLine(lines[0], tail);
      HeadLines(lines[1..], rest);
      assert lines == [lines[0]] + lines[1..];
    }
  }

  lemma NoCrlfInNothing()
    ensures NoCrlf("")
  {
  }

  lemma HeadUnfolds(lines: seq<string>, rest: string)
    ensures lines == [] ==> Head(lines) + rest == "" + CRLF + rest
    ensures lines != [] ==> Head(lines) + rest == lines[0] + CRLF + (Head(lines[1..]) + rest)
  {
  }

  predicate BlankAt(s: string, j: nat)
  {
    j + 4 <= |s| && s[j] == '\r' && s[j + 1] == '\n' && s[j + 2] == '\r' && s[j + 3] == '\n'
  }

  /** The blank line is at the end of a head and nowhere before. */
  lemma {:induction false} OnlyBlankAtEnd(lines: seq<string>, j: nat)
    requires GoodLines(lines) && lines != []
    requires BlankAt(Head(lines), j)
    ensures j == |Head(lines)| - 4
  {
    var l, tail := lines[0], Head(lines[1..]);
    var h := Head(lines);
    assert h == l + CRLF + tail;
    FirstCrlf(l, tail);
    CrlfIsFound(h, j);
    if j == |l| {
      assert tail[0] == h[j + 2] && tail[1] == h[j + 3];
      assert |lines| == 1;
    } else {
      assert h[|l| + 1] == '\n';
      assert tail == h[|l| + 2..];
      OnlyBlankAtEnd(lines[1..], j - |l| - 2);
    }
  }

  // --- the blank line in the byte stream ------------------------------------

  predicate BlankBytesAt(b: bytes, i: nat)
  {
    i + 4 <= |b| && b[i] == 13 && b[i + 1] == 10 && b[i + 2] == 13 && b[i + 3] == 10
  }

  /** `windows(4).position(..)`: the first blank line, or the length. */
  function FindBlank(b: bytes): (i: nat)
    ensures i <= |b|
    ensures i < |b| ==> BlankBytesAt(b, i)
    ensures forall k :: 0 <= k < i ==> !BlankBytesAt(b, k)
  {
    if |b| < 4 then |b|
    else if BlankBytesAt(b, 0) then 0
    else
      var j := FindBlank(b[1..]);
      assert forall k :: 0 < k <= |b| ==> (BlankBytesAt(b, k) <==> BlankBytesAt(b[1..], k - 1));
      1 + j
  }

  predicate HasBlank(b: bytes) { FindBlank(b) < |b| }

  /** In an encoded text a blank line of bytes is a blank line of characters. */
  lemma BlankBytesAreText(s: string, i: nat) returns (j: nat)
    requires BlankBytesAt(Utf8.Encode(s), i)
    ensures BlankAt(s, j) && |Utf8.Encode(s[..j])| == i
  {
    var b := Utf8.Encode(s);
    j := Utf8.AsciiAt(s, i);
    var s1 := s[j + 1..];
    assert Utf8.Encode(s1) == b[i + 1..];
    NextAscii(s1);
    var s2 := s1[1..];
    NextAscii(s2);
    NextAscii(s2[1..]);
  }

  /** An encoding that starts with an ASCII byte starts with that character. */
  lemma NextAscii(s: string)
    requires Utf8.Encode(s) != [] && Utf8.Encode(s)[0] < 128
    ensures s != [] && s[0] as int == Utf8.Encode(s)[0] && Utf8.Encode(s[1..]) == Utf8.Encode(s)[1..]
  {
  }

  lemma EncodedCrlf()
    ensures Utf8.Encode(CRLF) == [13, 10]
  {
    assert CRLF == ['\r'] + ['\n'];
    assert Utf8.Encode(['\n']) == [10] + Utf8.Encode([]);
    assert CRLF[1..] == ['\n'];
  }

  /** The first blank line of an encoded head, with anything after it, is the
      head's own end. */
  lemma HeadEndsAtBlank(lines: seq<string>, rest: bytes)
    requires GoodLines(lines) && lines != []
    ensures var e := Utf8.Encode(Head(lines)); |e| >= 4 && FindBlank(e + rest) == |e| - 4
  {
    hide Head, FindBlank, Utf8.Encode;
    var e := Utf8.Encode(Head(lines));
    var b := e + rest;
    EncodedHeadEnd(lines);
    assert BlankBytesAt(b, |e| - 4);
    var i := FindBlank(b);
    if i < |e| - 4 {
      assert BlankBytesAt(e, i);
      BlankOnlyAtEnd(lines, i);
    }
  }

  lemma BlankOnlyAtEnd(lines: seq<string>, i: nat)
    requires GoodLines(lines) && lines != [] && BlankBytesAt(Utf8.Encode(Head(lines)), i)
    ensures i == |Utf8.Encode(Head(lines))| - 4
  {
    hide Head, Utf8.Encode, FindCrlf;
    var h := Head(lines);
    var j := BlankBytesAreText(h, i);
    OnlyBlankAtEnd(lines, j);
    EncodedHeadEnd(lines);
  }

  /** The encoded head ends in the encoded blank line. */
  lemma EncodedHeadEnd(lines: seq<string>)
    requires lines != []
    ensures var h := Head(lines);
            |h| >= 4 && Utf8.Encode(h) == Utf8.Encode(h[..|h| - 4]) + [13, 10, 13, 10]
  {
    hide Head, Utf8.Encode;
    var h := Head(lines);
    HeadEnd(lines);
    Utf8.EncodeAppend(h[..|h| - 4], CRLF + CRLF);
    Utf8.EncodeAppend(CRLF, CRLF);
    EncodedCrlf();
    assert h == h[..|h| - 4] + (CRLF + CRLF);
  }

  lemma {:induction false} HeadEnd(lines: seq<string>)
    requires lines != []
    ensures var h := Head(lines); |h| >= 4 && h[|h| - 4..] == CRLF + CRLF
  {
    var h := Head(lines);
    if |lines| == 1 {
      assert lines[1..] == [];
      assert h == lines[0] + (CRLF + CRLF);
    } else {
      HeadEnd(lines[1..]);
      assert h == lines[0] + CRLF + Head(lines[1..]);
    }
  }

  // --- header fields --------------------------------------------------------

  datatype Fields = Fields(length: nat, kind: Option<string>)

  function ReadField(f: Fields, line: string): Fields
  {
    match SplitOnce(line, ':')
    case None => f
    case Some((k, v)) =>
      if EqIgnoreAsciiCase(Trim(k), "content-length") then
        var n := ParseUnsigned(Trim(v), USIZE_MAX);
        f.(length := if n.Some? then n.value else 0)
      else if EqIgnoreAsciiCase(Trim(k), "content-type") then f.(kind := Some(Trim(v)))
      else f
  }

  /** Header lines up to the first empty one. */
  function ReadFields(lines: seq<string>, f: Fields): Fields
  {
    if lines == [] || lines[0] == [] then f else ReadFields(lines[1..], ReadField(f, lines[0]))
  }

  lemma SplitField(k: string, v: string)
    requires ':' !in k && Trimmed(k) && Trimmed(v)
    ensures SplitOnce(k + ": " + v, ':') == Some((k, " " + v))
    ensures Trim(k) == k && Trim(" " + v) == v
  {
    var line := k + ": " + v;
    assert line == k + [':'] + (" " + v);
    IndexOfFirst(k, ':', " " + v);
    assert line[..|k|] == k && line[|k| + 1..] == " " + v;
    TrimOneSpace(k);
    TrimOneSpace(v);
  }

  /** What the reader does with the fields a writer emits. */
  lemma OtherField(f: Fields, k: string, v: string)
    requires ':' !in k && Trimmed(k) && |k| != 12 && |k| != 14
    ensures ReadField(f, k + ": " + v) == f
  {
    var line := k + ": " + v;
    assert line == k + [':'] + (" " + v);
    IndexOfFirst(k, ':', " " + v);
    assert line[..|k|] == k;
    TrimOneSpace(k);
  }

  lemma LengthField(f: Fields, n: nat)
    ensures ReadField(f, "content-length: " + Decimal(n)) == f.(length := if n <= USIZE_MAX then n else 0)
  {
    hide Trim, Decimal, ParseUnsigned, IndexOf;
    var k := "content-length";
    DigitsPlain(n);
    SplitField(k, Decimal(n));
    assert "content-length: " == k + ": ";
    DecimalRoundTrip(n, USIZE_MAX);
  }

  lemma TypeField(f: Fields, ct: string)
    requires Trimmed(ct)
    ensures ReadField(f, "content-type: " + ct) == f.(kind := Some(ct))
  {
    hide Trim, IndexOf;
    var k := "content-type";
    SplitField(k, ct);
    assert "content-type: " == k + ": ";
  }

  /** A number has no white space and no line break. */
  lemma DigitsPlain(n: nat)
    ensures Trimmed(Decimal(n)) && NoWhite(Decimal(n)) && '\r' !in Decimal(n) && Decimal(n) != []
  {
    var d := Decimal(n);
    assert forall i :: 0 <= i < |d| ==> IsDigit(d[i]);
  }

  lemma {:induction false} PlainLine(a: string, b: string)
    requires '\r' !in a && NoCrlf(b)
    ensures NoCrlf(a + b)
  {
    if a == [] {
      assert a + b == b;
    } else {
      assert (a + b)[1..] == a[1..] + b;
      assert (a + b)[0] == a[0];
      PlainLine(a[1..], b);
    }
  }

  lemma NoReturnNoCrlf(a: string)
    requires '\r' !in a
    ensures NoCrlf(a)
  {
    PlainLine(a, "");
    assert a + "" == a;
  }

  // --- requests -------------------------------------------------------------

  datatype HttpRequest = HttpRequest(
    verb: string, path: string, host: string, contentType: Option<string>, contentLength: Option<nat>)
  {
    /** No white space or line break inside the fields. */
    predicate Clean()
    {
      && verb != [] && NoWhite(verb) && path != [] && NoWhite(path)
      && NoCrlf(host) && (contentType.Some? ==> NoCrlf(contentType.value) && Trimmed(contentType.value))
    }
  }

  function RequestLine(r: HttpRequest): string { r.verb + " " + r.path + " HTTP/1.1" }

  function TypeLines(r: HttpRequest): seq<string>
  {
    match r.contentType case Some(ct) => ["content-type: " + ct] case None => []
  }

  function LengthLines(r: HttpRequest): seq<string>
  {
    match r.contentLength case Some(n) => ["content-length: " + Decimal(n)] case None => []
  }

  function HeaderLines(r: HttpRequest): seq<string>
  {
    ["host: " + r.host, "connection: close"] + TypeLines(r) + LengthLines(r)
  }

  function RequestLines(r: HttpRequest): seq<string> { [RequestLine(r)] + HeaderLines(r) }

  lemma {:induction false} EncodeJoined(a: seq<string>, b: seq<string>)
    ensures Utf8.Encode(Joined(a + b)) == Utf8.Encode(Joined(a)) + Utf8.Encode(Joined(b))
  {
    if a == [] {
      assert a + b == b;
    } else {
      assert (a + b)[1..] == a[1..] + b;
      EncodeJoined(a[1..], b);
      Utf8.EncodeAppend(a[0] + CRLF, Joined(a[1..] + b));
      Utf8.EncodeAppend(a[0] + CRLF, Joined(a[1..]));
    }
  }

  lemma JoinedSingle(l: string)
    ensures Joined([l]) == l + CRLF
  {
    assert [l][1..] == [];
  }

  /** The head writer: text pieces appended to a byte buffer. */
  method EncodeHead(r: HttpRequest) returns (head: bytes)
    ensures head == Utf8.Encode(Head(RequestLines(r)))
  {
    hide Decimal, Utf8.Encode;
    var front := [RequestLine(r), "host: " + r.host, "connection: close"];
    head := Utf8.Encode(r.verb + " " + r.path + " HTTP/1.1\r\nhost: " + r.host + "\r\nconnection: close\r\n");
    FrontText(r);
    if r.contentType.Some? {
      JoinedSingle("content-type: " + r.contentType.value);
      head := head + Utf8.Encode("content-type: " + r.contentType.value + "\r\n");
    }
    EncodeJoined(front, TypeLines(r));
    NothingJoined(front);
    assert head == Utf8.Encode(Joined(front + TypeLines(r)));
    if r.contentLength.Some? {
      JoinedSingle("content-length: " + Decimal(r.contentLength.value));
      head := head + Utf8.Encode("content-length: " + Decimal(r.contentLength.value) + "\r\n");
    }
    EncodeJoined(front + TypeLines(r), LengthLines(r));
    NothingJoined(front + TypeLines(r));
    assert RequestLines(r) == front + TypeLines(r) + LengthLines(r);
    Utf8.EncodeAppend(Joined(RequestLines(r)), CRLF);
    head := head + Utf8.Encode("\r\n");
  }

  lemma NothingJoined(front: seq<string>)
    ensures front + [] == front
  {
  }

  lemma FrontText(r: HttpRequest)
    ensures Joined([RequestLine(r), "host: " + r.host, "connection: close"])
         == r.verb + " " + r.path + " HTTP/1.1\r\nhost: " + r.host + "\r\nconnection: close\r\n"
  {
    hide RequestLine;
    var a, b, c := RequestLine(r), "host: " + r.host, "connection: close";
    assert [a, b, c][1..] == [b, c] && [b, c][1..] == [c];
    JoinedSingle(c);
    assert Joined([a, b, c]) == a + CRLF + (b + CRLF + (c + CRLF));
    LineText(r);
  }

  lemma LineText(r: HttpRequest)
    ensures RequestLine(r) + CRLF + ("host: " + r.host + CRLF + ("connection: close" + CRLF))
         == r.verb + " " + r.path + " HTTP/1.1\r\nhost: " + r.host + "\r\nconnection: close\r\n"
  {
  }

  // --- the incremental reader -----------------------------------------------

  function Concat(chunks: seq<bytes>): bytes
  {
    if chunks == [] then [] else chunks[0] + Concat(chunks[1..])
  }

  /** The end of the stream: no chunk is left, or a read returns no bytes. */
  predicate AtEnd(chunks: seq<bytes>) { chunks == [] || chunks[0] == [] }

  /** Read until the buffer holds a blank line: the buffer and the unread rest, or
      nothing when the stream ends first. */
  function ReadHead(chunks: seq<bytes>, buf: bytes): Option<(bytes, seq<bytes>)>
    decreases |chunks|
  {
    if HasBlank(buf) then Some((buf, chunks))
    else if AtEnd(chunks) then None
    else ReadHead(chunks[1..], buf + chunks[0])
  }

  /** Read until the announced length is there or the stream ends. */
  function ReadBody(chunks: seq<bytes>, buf: bytes, length: nat): bytes
    decreases |chunks|
  {
    if |buf| >= length || AtEnd(chunks) then buf else ReadBody(chunks[1..], buf + chunks[0], length)
  }

  datatype Received = Received(verb: string, path: string, fields: Fields, body: bytes)

  function Interpret(head: bytes, rest: seq<bytes>): Received
  {
    var lines := Lines(Utf8.DecodeLossy(head));
    var words := Words(lines[0]);
    var f := ReadFields(lines[1..], Fields(0, None));
    var end := FindBlank(head);
    Received(if |words| > 0 then words[0] else "GET", if |words| > 1 then words[1] else "/", f,
             ReadBody(rest, if end < |head| then head[end + 4..] else [], f.length))
  }

  function Serve(chunks: seq<bytes>): Option<Received>
  {
    match ReadHead(chunks, [])
    case None => None
    case Some((head, rest)) => Some(Interpret(head, rest))
  }

  /** The two reading loops of the server, over the chunks the stream yields. */
  method ServeStream(chunks: seq<bytes>) returns (r: Option<Received>)
    ensures r == Serve(chunks)
  {
    hide HasBlank, FindBlank, Lines, Words, ReadFields, Utf8.DecodeLossy;
    var head: bytes := [];
    var next := 0;
    while !HasBlank(head)
      invariant next <= |chunks|
      invariant ReadHead(chunks, []) == ReadHead(chunks[next..], head)
      decreases |chunks| - next
    {
      if AtEnd(chunks[next..]) {
        return None;
      }
      assert chunks[next..][1..] == chunks[next + 1..];
      head := head + chunks[next];
      next := next + 1;
    }
    ghost var rest := chunks[next..];
    var lines := Lines(Utf8.DecodeLossy(head));
    var words := Words(lines[0]);
    var verb := if |words| > 0 then words[0] else "GET";
    var path := if |words| > 1 then words[1] else "/";
    var f := ReadFields(lines[1..], Fields(0, None));
    var end := FindBlank(head);
    var body := if end < |head| then BodyStart(head, end) else [];
    ghost var start := body;
    while |body| < f.length
      invariant next <= |chunks|
      invariant ReadBody(rest, start, f.length) == ReadBody(chunks[next..], body, f.length)
      decreases |chunks| - next
    {
      if AtEnd(chunks[next..]) {
        break;
      }
      assert chunks[next..][1..] == chunks[next + 1..];
      body := body + chunks[next];
      next := next + 1;
    }
    r := Some(Received(verb, path, f, body));
  }

  function BodyStart(head: bytes, end: nat): bytes
    requires end < |head| && FindBlank(head) == end
  {
    head[end + 4..]
  }

  // --- a request arrives, however the stream is cut -------------------------

  /** Reads that return bytes, as every read before the end of a stream does. */
  predicate Solid(chunks: seq<bytes>) { forall c :: c in chunks ==> c != [] }

  lemma SolidTail(chunks: seq<bytes>)
    requires Solid(chunks) && chunks != []
    ensures !AtEnd(chunks) && Solid(chunks[1..])
  {
    assert chunks[0] in chunks;
    assert forall c :: c in chunks[1..] ==> c in chunks;
  }

  lemma {:induction false} HeadIsRead(lines: seq<string>, body: bytes, chunks: seq<bytes>, buf: bytes)
    requires GoodLines(lines) && lines != [] && Solid(chunks)
    requires buf + Concat(chunks) == Utf8.Encode(Head(lines)) + body
    ensures var r := ReadHead(chunks, buf);
            && r.Some? && Solid(r.value.1) && r.value.0 + Concat(r.value.1) == Utf8.Encode(Head(lines)) + body
            && |r.value.0| >= |Utf8.Encode(Head(lines))|
    decreases |chunks|
  {
    hide FindBlank, Head, Utf8.Encode;
    var e := Utf8.Encode(Head(lines));
    HeadEndsAtBlank(lines, body);
    assert chunks == [] ==> buf + Concat(chunks) == buf;
    if HasBlank(buf) {
      BlankNotEarly(buf, Concat(chunks));
    } else {
      SolidTail(chunks);
      assert buf + Concat(chunks) == (buf + chunks[0]) + Concat(chunks[1..]);
      HeadIsRead(lines, body, chunks[1..], buf + chunks[0]);
    }
  }

  lemma BlankNotEarly(buf: bytes, rest: bytes)
    requires HasBlank(buf)
    ensures FindBlank(buf + rest) == FindBlank(buf) && FindBlank(buf) + 4 <= |buf|
  {
    var i := FindBlank(buf);
    assert BlankBytesAt(buf + rest, i);
    assert forall k :: 0 <= k < i ==> (BlankBytesAt(buf + rest, k) ==> BlankBytesAt(buf, k));
  }

  lemma {:induction false} BodyIsRead(body: bytes, chunks: seq<bytes>, buf: bytes)
    requires buf + Concat(chunks) == body && Solid(chunks)
    ensures ReadBody(chunks, buf, |body|) == body
    decreases |chunks|
  {
    if |buf| >= |body| {
      assert Concat(chunks) == [];
      assert buf == body;
    } else if chunks != [] {
      SolidTail(chunks);
      assert buf + Concat(chunks) == (buf + chunks[0]) + Concat(chunks[1..]);
      BodyIsRead(body, chunks[1..], buf + chunks[0]);
    }
  }

  lemma RequestLinesGood(r: HttpRequest)
    requires r.Clean()
    ensures GoodLines(RequestLines(r)) && Words(RequestLine(r)) == [r.verb, r.path, "HTTP/1.1"]
  {
    hide Decimal, FindCrlf, Words;
    RequestWords(r);
    assert '\r' !in RequestLine(r) by {
      assert IsWhite('\r');
    }
    NoReturnNoCrlf(RequestLine(r));
    PlainLine("host: ", r.host);
    NoReturnNoCrlf("connection: close");
    if r.contentType.Some? {
      PlainLine("content-type: ", r.contentType.value);
    }
    if r.contentLength.Some? {
      DigitsPlain(r.contentLength.value);
      NoReturnNoCrlf("content-length: " + Decimal(r.contentLength.value));
    }
  }

  lemma RequestWords(r: HttpRequest)
    requires r.Clean()
    ensures Words(RequestLine(r)) == [r.verb, r.path, "HTTP/1.1"]
  {
    hide Words, FindCrlf, WordEnd;
    var v := "HTTP/1.1";
    var line := RequestLine(r);
    assert line == r.verb + (" " + (r.path + (" " + v)));
    FirstWord(r.verb, " " + (r.path + (" " + v)));
    WordsSkipSpace(r.path + (" " + v));
    FirstWord(r.path, " " + v);
    WordsSkipSpace(v);
    FirstWord(v, "");
    NoWords();
    assert v + "" == v;
  }

  lemma NoWords()
    ensures Words("") == []
  {
  }

  function Expected(r: HttpRequest): Fields
  {
    Fields(if r.contentLength.Some? then r.contentLength.value else 0, r.contentType)
  }

  /** One line on, whatever it says. */
  lemma ReadOne(line: string, rest: seq<string>, f: Fields)
    requires line != []
    ensures ReadFields([line] + rest, f) == ReadFields(rest, ReadField(f, line))
  {
    hide ReadField;
    assert ([line] + rest)[1..] == rest;
  }

  lemma TypeIsRead(r: HttpRequest, rest: seq<string>)
    requires r.Clean()
    ensures ReadFields(TypeLines(r) + rest, Fields(0, None)) == ReadFields(rest, Fields(0, r.contentType))
  {
    hide ReadField, ReadFields, FindCrlf;
    if r.contentType.Some? {
      TypeField(Fields(0, None), r.contentType.value);
      ReadOne("content-type: " + r.contentType.value, rest, Fields(0, None));
    } else {
      assert TypeLines(r) + rest == rest;
    }
  }

  lemma LengthIsRead(r: HttpRequest, rest: seq<string>, kind: Option<string>)
    requires r.contentLength.Some? ==> r.contentLength.value <= USIZE_MAX
    ensures ReadFields(LengthLines(r) + rest, Fields(0, kind)) == ReadFields(rest, Fields(Expected(r).length, kind))
  {
    hide ReadField, ReadFields, Decimal;
    if r.contentLength.Some? {
      LengthField(Fields(0, kind), r.contentLength.value);
      ReadOne("content-length: " + Decimal(r.contentLength.value), rest, Fields(0, kind));
    } else {
      assert LengthLines(r) + rest == rest;
    }
  }

  lemma StopsAtBlank(more: seq<string>, f: Fields)
    ensures ReadFields([""] + more, f) == f
  {
  }

  lemma FieldsAreRead(r: HttpRequest, more: seq<string>)
    requires r.Clean() && (r.contentLength.Some? ==> r.contentLength.value <= USIZE_MAX)
    ensures ReadFields(HeaderLines(r) + [""] + more, Fields(0, None)) == Expected(r)
  {
    hide ReadField, ReadFields, FindCrlf, TypeLines, LengthLines;
    var f0 := Fields(0, None);
    var stop := [""] + more;
    var rest := TypeLines(r) + (LengthLines(r) + stop);
    var host, close := "host: " + r.host, "connection: close";
    assert HeaderLines(r) + [""] + more == [host] + ([close] + rest);
    OtherField(f0, "host", r.host);
    OtherField(f0, "connection", "close");
    assert "host" + ": " + r.host == host && "connection" + ": " + "close" == close;
    ReadOne(host, [close] + rest, f0);
    ReadOne(close, rest, f0);
    TypeIsRead(r, LengthLines(r) + stop);
    LengthIsRead(r, stop, r.contentType);
    StopsAtBlank(more, Expected(r));
  }

  /** What came with the head beyond its end is the beginning of the body. */
  lemma Early(e: bytes, body: bytes, head: bytes, rest: bytes)
    requires head + rest == e + body && |head| >= |e|
    ensures head == e + head[|e|..] && head[|e|..] + rest == body
  {
    assert (head + rest)[..|e|] == (e + body)[..|e|] == e;
    assert (head + rest)[|e|..] == (e + body)[|e|..] == body;
  }

  /** However the stream is cut, the server recovers verb, path, content type,
      content length and body of a request whose announced length is its body's. */
  lemma RequestArrives(r: HttpRequest, body: bytes, chunks: seq<bytes>)
    requires r.Clean() && |body| <= USIZE_MAX
    requires if r.contentLength.Some? then r.contentLength.value == |body| else body == []
    requires Concat(chunks) == Utf8.Encode(Head(RequestLines(r))) + body && Solid(chunks)
    ensures Serve(chunks) == Some(Received(r.verb, r.path, Expected(r), body))
  {
    hide FindBlank, Utf8.Encode, Utf8.DecodeLossy, Head, Words, Lines, ReadFields, HeaderLines, RequestLine, ReadHead,
         ReadBody, Concat, GoodLines, HttpRequest.Clean;
    var lines := RequestLines(r);
    var e := Utf8.Encode(Head(lines));
    RequestLinesGood(r);
    assert [] + Concat(chunks) == Concat(chunks);
    HeadIsRead(lines, body, chunks, []);
    var (head, rest) := ReadHead(chunks, []).value;
    var early := head[|e|..];
    Early(e, body, head, Concat(rest));
    HeadEndsAtBlank(lines, early);
    Utf8.PrefixRoundTrip(Head(lines), early);
    HeadLines(lines, Utf8.DecodeLossy(early));
    var more := Lines(Utf8.DecodeLossy(early));
    assert (lines + [""] + more)[1..] == HeaderLines(r) + [""] + more;
    FieldsAreRead(r, more);
    BodyIsRead(body, rest, early);
  }

  // --- replies --------------------------------------------------------------

  function ReplyLines(status: nat, length: nat): seq<string>
  {
    ["HTTP/1.1 " + Decimal(status) + " reason", "content-length: " + Decimal(length), "connection: close"]
  }

  function Reply(status: nat, body: bytes): bytes
  {
    Utf8.Encode("HTTP/1.1 " + Decimal(status) + " reason\r\ncontent-length: " + Decimal(|body|)
                + "\r\nconnection: close\r\n\r\n")
    + body
  }

  datatype HttpResponse = HttpResponse(status: nat, body: bytes)

  function ReadLength(n: Option<nat>, line: string): Option<nat>
  {
    match SplitOnce(line, ':')
    case None => n
    case Some((k, v)) =>
      if EqIgnoreAsciiCase(Trim(k), "content-length") then ParseUnsigned(Trim(v), USIZE_MAX) else n
  }

  function ReadLengths(lines: seq<string>, n: Option<nat>): Option<nat>
  {
    if lines == [] || lines[0] == [] then n else ReadLengths(lines[1..], ReadLength(n, lines[0]))
  }

  function DecodeReply(raw: bytes): Result<HttpResponse, string>
  {
    var lines := Lines(Utf8.DecodeLossy(raw));
    var words := Words(lines[0]);
    var status := if |words| > 1 then ParseUnsigned(words[1], 65535) else None;
    if status.None? then Err("bad status line: " + lines[0])
    else
      var start := FindBlank(raw);
      var body := if start < |raw| then raw[start + 4..] else [];
      var n := ReadLengths(lines[1..], None);
      Ok(HttpResponse(status.value, if n.Some? && n.value < |body| then body[..n.value] else body))
  }

  lemma ReplyText(status: nat, length: nat)
    ensures Head(ReplyLines(status, length))
         == "HTTP/1.1 " + Decimal(status) + " reason\r\ncontent-length: " + Decimal(length)
            + "\r\nconnection: close\r\n\r\n"
  {
    hide Decimal, Head;
    HeadOfThree("HTTP/1.1 " + Decimal(status) + " reason", "content-length: " + Decimal(length), "connection: close");
    assert " reason\r\ncontent-length: " == " reason" + CRLF + "content-length: ";
    assert "\r\nconnection: close\r\n\r\n" == CRLF + "connection: close" + CRLF + CRLF;
    Regroup("HTTP/1.1 " + Decimal(status), " reason", "content-length: ", Decimal(length), "connection: close");
  }

  lemma Regroup(s: string, x: string, y: string, n: string, c: string)
    ensures s + (x + CRLF + y) + n + (CRLF + c + CRLF + CRLF) == (s + x) + CRLF + (y + n) + CRLF + c + CRLF + CRLF
  {
  }

  lemma HeadOfThree(a: string, b: string, c: string)
    ensures Head([a, b, c]) == a + CRLF + b + CRLF + c + CRLF + CRLF
  {
    assert [a, b, c][1..] == [b, c] && [b, c][1..] == [c];
    JoinedSingle(c);
    assert Joined([b, c]) == b + CRLF + Joined([c]);
  }

  lemma ReplyWords(status: nat)
    ensures var w := Words("HTTP/1.1 " + Decimal(status) + " reason"); |w| > 1 && w[1] == Decimal(status)
  {
    hide Words, Decimal, WordEnd;
    DigitsPlain(status);
    var v := "HTTP/1.1";
    var d := Decimal(status);
    assert "HTTP/1.1 " + d + " reason" == v + (" " + (d + " reason"));
    FirstWord(v, " " + (d + " reason"));
    WordsSkipSpace(d + " reason");
    FirstWord(d, " reason");
  }

  lemma ReplyLinesGood(status: nat, length: nat)
    ensures GoodLines(ReplyLines(status, length))
  {
    hide Decimal, FindCrlf;
    DigitsPlain(status);
    DigitsPlain(length);
    NoReturnNoCrlf("HTTP/1.1 " + Decimal(status) + " reason");
    NoReturnNoCrlf("content-length: " + Decimal(length));
    NoReturnNoCrlf("connection: close");
  }

  lemma ReplyLengthRead(length: nat, more: seq<string>)
    ensures ReadLengths(["content-length: " + Decimal(length), "connection: close"] + [""] + more, None)
         == if length <= USIZE_MAX then Some(length) else None
  {
    hide Decimal, Trim, IndexOf, ParseUnsigned;
    var a, b := "content-length: " + Decimal(length), "connection: close";
    var all := [a, b] + [""] + more;
    var stop := [""] + more;
    assert all[1..] == [b] + stop && all[1..][1..] == stop;
    assert forall n :: ReadLengths(stop, n) == n;
    DigitsPlain(length);
    SplitField("content-length", Decimal(length));
    assert "content-length" + ": " + Decimal(length) == a;
    SplitField("connection", "close");
    assert "connection" + ": " + "close" == b;
    DecimalRoundTrip(length, USIZE_MAX);
    var n := ReadLength(None, a);
    assert ReadLength(n, b) == n;
    assert ReadLengths(all, None) == ReadLengths(all[1..], n) == ReadLengths(stop, n);
  }

  /** Decoding the server's reply returns its status and body, for every body, and
      drops whatever follows the announced length. */
  lemma ReplyRoundTrip(status: nat, body: bytes, tail: bytes)
    requires status <= 65535 && (tail == [] || |body| <= USIZE_MAX)
    ensures DecodeReply(Reply(status, body) + tail) == Ok(HttpResponse(status, body))
  {
    hide FindBlank, Utf8.Encode, Utf8.DecodeLossy, Head, Words, Lines, ReadLengths, Decimal;
    var lines := ReplyLines(status, |body|);
    var e := Utf8.Encode(Head(lines));
    var rest := body + tail;
    ReplyText(status, |body|);
    ReplyLinesGood(status, |body|);
    assert Reply(status, body) + tail == e + rest;
    HeadEndsAtBlank(lines, rest);
    Utf8.PrefixRoundTrip(Head(lines), rest);
    HeadLines(lines, Utf8.DecodeLossy(rest));
    var more := Lines(Utf8.DecodeLossy(rest));
    assert (lines + [""] + more)[1..] == lines[1..] + [""] + more;
    assert lines[1..] == ["content-length: " + Decimal(|body|), "connection: close"];
    ReplyWords(status);
    DecimalRoundTrip(status, 65535);
    ReplyLengthRead(|body|, more);
    assert (e + rest)[|e|..] == rest && rest[..|body|] == body;
    assert tail == [] ==> rest == body;
  }
}
