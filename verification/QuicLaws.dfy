/** The HTTP text itself, and what the reader makes of heads other than those the
    writer writes. */
module QuicLaws {
  import opened Bytes
  import opened Text
  import opened QuicHttp
  import Utf8

  /** The head a client sends, as text. */
  lemma HeadSpelled(r: HttpRequest)
    ensures Head(RequestLines(r))
         == r.verb + " " + r.path + " HTTP/1.1\r\nhost: " + r.host + "\r\nconnection: close\r\n"
            + (if r.contentType.Some? then "content-type: " + r.contentType.value + "\r\n" else "")
            + (if r.contentLength.Some? then "content-length: " + Decimal(r.contentLength.value) + "\r\n" else "")
            + "\r\n"
  {
    hide Decimal;
    var front := [RequestLine(r), "host: " + r.host, "connection: close"];
    assert RequestLines(r) == front + TypeLines(r) + LengthLines(r);
    JoinedAppend(front + TypeLines(r), LengthLines(r));
    JoinedAppend(front, TypeLines(r));
    FrontText(r);
    if r.contentType.Some? {
      JoinedSingle("content-type: " + r.contentType.value);
    }
    if r.contentLength.Some? {
      JoinedSingle("content-length: " + Decimal(r.contentLength.value));
    }
  }

  lemma {:induction false} JoinedAppend(a: seq<string>, b: seq<string>)
    ensures Joined(a + b) == Joined(a) + Joined(b)
  {
    if a == [] {
      assert a + b == b;
    } else {
      assert (a + b)[1..] == a[1..] + b;
      JoinedAppend(a[1..], b);
    }
  }

  // --- header names ---------------------------------------------------------

  /** Two letters that differ at most in case. */
  predicate SameLetter(a: char, b: char)
  {
    a == b || ('A' <= a <= 'Z' && b as int == a as int + 32) || ('A' <= b <= 'Z' && a as int == b as int + 32)
  }

  predicate SameName(a: string, b: string)
  {
    |a| == |b| && forall i :: 0 <= i < |a| ==> SameLetter(a[i], b[i])
  }

  lemma CaseIgnored(a: string, b: string, c: string)
    requires SameName(a, b)
    ensures EqIgnoreAsciiCase(a, c) <==> EqIgnoreAsciiCase(b, c)
  {
  }

  /** However the name of a field is capitalised, the reader takes its value: a
      number of at most 64 bits as the length, zero for anything else that is
      announced as one, and the type without the space around it. */
  lemma FieldsReadInAnyCase(f: Fields, name: string, value: string)
    requires ':' !in name && Trimmed(name) && Trimmed(value)
    ensures SameName(name, "content-length") ==>
              ReadField(f, name + ": " + value)
              == f.(length := match ParseUnsigned(value, USIZE_MAX) case Some(n) => n case None => 0)
    ensures SameName(name, "content-type") ==> ReadField(f, name + ": " + value) == f.(kind := Some(value))
  {
    hide Trim, ParseUnsigned, IndexOf;
    SplitField(name, value);
    var l, t := "content-length", "content-type";
    if SameName(name, l) {
      CaseIgnored(name, l, l);
    } else if SameName(name, t) {
      CaseIgnored(name, t, t);
    }
  }

  /** Any other field is passed over. */
  lemma OthersPassedOver(f: Fields, name: string, value: string)
    requires ':' !in name && Trimmed(name) && Trimmed(value)
    requires !SameName(name, "content-length") && !SameName(name, "content-type")
    ensures ReadField(f, name + ": " + value) == f
  {
    hide Trim, ParseUnsigned, IndexOf;
    SplitField(name, value);
    NotSame(name, "content-length");
    NotSame(name, "content-type");
  }

  lemma NotSame(a: string, b: string)
    ensures EqIgnoreAsciiCase(a, b) ==> SameName(a, b)
  {
    if EqIgnoreAsciiCase(a, b) {
      forall i | 0 <= i < |a| ensures SameLetter(a[i], b[i]) {
        assert AsciiLower(a[i]) == AsciiLower(b[i]);
      }
    }
  }

  // --- bodies ---------------------------------------------------------------

  /** The body is what the stream brings up to the first read that reaches the
      announced length, all of that read included, or up to its end. */
  lemma {:induction false} BodyExactly(chunks: seq<bytes>, buf: bytes, length: nat) returns (n: nat)
    ensures n <= |chunks| && ReadBody(chunks, buf, length) == buf + Concat(chunks[..n])
    ensures |ReadBody(chunks, buf, length)| >= length || AtEnd(chunks[n..])
    ensures forall m :: 0 <= m < n ==> |buf + Concat(chunks[..m])| < length && chunks[m] != []
    decreases |chunks|
  {
    if |buf| >= length || AtEnd(chunks) {
      n := 0;
      assert chunks[..0] == [] && buf + [] == buf;
    } else {
      var rest := chunks[1..];
      var k := BodyExactly(rest, buf + chunks[0], length);
      n := k + 1;
      ConcatHead(chunks, n);
      assert chunks[n..] == rest[k..];
      forall m | 0 <= m < n ensures |buf + Concat(chunks[..m])| < length && chunks[m] != [] {
        if m > 0 {
          ConcatHead(chunks, m);
          assert buf + Concat(chunks[..m]) == (buf + chunks[0]) + Concat(rest[..m - 1]);
          assert chunks[m] == rest[m - 1] || m == n - 1;
        } else {
          assert chunks[..0] == [];
        }
      }
    }
  }

  lemma ConcatHead(chunks: seq<bytes>, n: nat)
    requires 0 < n <= |chunks|
    ensures Concat(chunks[..n]) == chunks[0] + Concat(chunks[1..][..n - 1])
  {
    assert chunks[..n][1..] == chunks[1..][..n - 1];
  }

  /** A request line of no word is taken for GET of the root, and one of a single
      word for that method on the root. */
  lemma MissingWords(line: string, head: bytes, rest: seq<bytes>)
    requires Lines(Utf8.DecodeLossy(head))[0] == line && |Words(line)| < 2
    ensures Interpret(head, rest).path == "/"
    ensures Words(line) == [] ==> Interpret(head, rest).verb == "GET"
    ensures |Words(line)| == 1 ==> Interpret(head, rest).verb == Words(line)[0]
  {
    hide Lines, Words, Utf8.DecodeLossy, ReadFields, FindBlank, ReadBody;
  }
}
