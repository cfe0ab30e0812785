/** What a dial depends on: the password, spelled out down to the hash functions,
    and the peer. */
module TurnSecrets {
  import opened Bytes
  import opened Stun
  import opened Credentials
  import opened TurnServer
  import opened TurnAuth
  import opened TurnClient
  import opened TurnDial
  import Utf8

  // --- what a client sends --------------------------------------------------

  /** A signed request on the wire: user name, realm and nonce as they are, and at
      the end the code of all that precedes, under the hash of user name, realm and
      password. */
  lemma ClientSigns(c: Crypto, cred: Cred, m: Outgoing)
    requires c.Valid() && WireKinds(m.attrs) && Fits(c, Sign(cred, m), Some(Key(c, cred)))
    requires !Has(m.attrs, 0x0006) && !Has(m.attrs, 0x0014) && !Has(m.attrs, 0x0015)
    ensures var raw := Wire(c, Sign(cred, m), Some(Key(c, cred)));
            var n := |raw|;
            && Decode(raw).Ok? && n >= 44
            && First(Decode(raw).value.attrs, 0x0006, Utf8.Encode(cred.username))
            && First(Decode(raw).value.attrs, 0x0014, Utf8.Encode(cred.realm))
            && First(Decode(raw).value.attrs, 0x0015, Utf8.Encode(cred.nonce))
            && raw[n - 24..n - 22] == [0x00, 0x08]
            && raw[n - 20..] == c.hmac(c.md5(Utf8.Encode(cred.username + ":" + cred.realm + ":" + cred.password)),
                                       raw[..2] + BeU16(n - 20) + raw[4..n - 24])
  {
    hide Decode, EncodeKeyed, SignedPart, BodyLen, Utf8.Encode, Find, Sign, Key, First, Has, BeU16;
    var signed, key := Sign(cred, m), Key(c, cred);
    var mac := c.hmac(key, SignedPart(signed));
    SignedArrives(c, cred, m);
    var attrs := Decode(Wire(c, signed, Some(key))).value.attrs;
    FindIsFirst(m.attrs, 0x0006);
    FindIsFirst(m.attrs, 0x0014);
    FindIsFirst(m.attrs, 0x0015);
    FindSigned(cred, m, mac, USERNAME);
    FindSigned(cred, m, mac, REALM);
    FindSigned(cred, m, mac, NONCE);
    FindIsFirst(attrs, 0x0006);
    FindIsFirst(attrs, 0x0014);
    FindIsFirst(attrs, 0x0015);
    SignedIsLonger(cred, m);
    CoveredIsSigned(signed, key, c.hmac);
    IntegrityBytes();
    KeySpelled(c, cred);
    WireIsLong(c, cred, m);
  }

  lemma KeySpelled(c: Crypto, cred: Cred)
    ensures Key(c, cred) == c.md5(Utf8.Encode(cred.username + ":" + cred.realm + ":" + cred.password))
  {
  }

  lemma SignedIsLonger(cred: Cred, m: Outgoing)
    ensures Sign(cred, m).attrs != []
  {
  }

  lemma WireIsLong(c: Crypto, cred: Cred, m: Outgoing)
    requires c.Valid()
    ensures |Wire(c, Sign(cred, m), Some(Key(c, cred)))| >= 44
  {
    hide BodyLen, Sign, Key, EncodeKeyed;
    WireLength(c, Sign(cred, m), Some(Key(c, cred)));
  }

  lemma SignedArrives(c: Crypto, cred: Cred, m: Outgoing)
    requires c.Valid() && WireKinds(m.attrs) && Fits(c, Sign(cred, m), Some(Key(c, cred)))
    ensures var signed, key := Sign(cred, m), Key(c, cred);
            var d := Decode(Wire(c, signed, Some(key)));
            d.Ok? && d.value.attrs == signed.With(MESSAGE_INTEGRITY, c.hmac(key, SignedPart(signed))).attrs
  {
    hide Decode, EncodeKeyed, SignedPart, BodyLen, Key, Find, Utf8.Encode;
    var signed, key := Sign(cred, m), Key(c, cred);
    FindSigned(cred, m, c.hmac(key, SignedPart(signed)), USERNAME);
    RequestArrives(c, signed, key);
  }

  // --- what a client makes of an answer -------------------------------------

  /** An answer counts only if it decodes within the read buffer and carries the
      transaction id of the request; whatever else comes is refused. */
  lemma AnswerUnderstood(out: Outgoing, tid: Tid)
    requires WireKinds(out.attrs) && ReplyFits(out)
    ensures Understand(Some(out), tid)
         == if out.tid == tid then Ok(Incoming(out.op, out.cls, out.tid, out.attrs))
            else Err(Protocol("transaction id mismatch"))
  {
    hide Decode, BodyLen, Header, Body;
    BodyLength(out.attrs);
    PlainRoundTrip(out, []);
    assert EncodePlain(out) + [] == EncodePlain(out);
  }

  /** A challenge is an error response of code 401, and nothing else is. */
  lemma ChallengeKnown(resp: Incoming)
    ensures ExpectChallenge(resp) == Ok(()) <==>
            resp.cls == ErrorResponse && ErrorCodeOf(resp.attrs).Some? && ErrorCodeOf(resp.attrs).value.0 == 401
    ensures forall code: nat, reason: string ::
              resp.cls == ErrorResponse && ErrorCodeOf(resp.attrs) == Some((code, reason)) && code != 401 ==>
                ExpectChallenge(resp) == Err(Rejected(code, reason))
  {
    hide ErrorCodeOf;
  }

  /** A step of the dial succeeds on a success response and on nothing else; an error
      is reported with its code and reason, or as 400 if it has none. */
  lemma AnswerJudged(msg: Incoming, step: string)
    ensures ExpectSuccess(msg, step) == Ok(()) <==> msg.cls == SuccessResponse
    ensures msg.cls == ErrorResponse ==>
              ExpectSuccess(msg, step)
              == (match ErrorCodeOf(msg.attrs)
                  case Some((code, reason)) => Err(Rejected(code, reason))
                  case None => Err(Rejected(400, step + " failed")))
  {
    hide ErrorCodeOf;
  }

  /** After 438 the client learns a new nonce and signs anew, once; any other answer
      stands. */
  lemma StaleNonceRetried(x: Setup, s: State, conn: nat, ask: Ask)
    requires x.Valid() && ask.Valid()
    ensures var (s1, first) := SignedTransact(x, s, conn, ask);
            var stale := first.Ok? && first.value.cls == ErrorResponse && ErrorCodeOf(first.value.attrs).Some?
                         && ErrorCodeOf(first.value.attrs).value.0 == 438;
            var (s2, challenged) := Challenge(x, s1, conn);
            && (stale && challenged.Ok? ==> AuthTransact(x, s, conn, ask) == SignedTransact(x, s2, conn, ask))
            && (!stale && first.Ok? && first.value.cls == SuccessResponse ==>
                  AuthTransact(x, s, conn, ask) == (s1, first))
  {
    hide SignedTransact, Challenge, ErrorCodeOf;
  }

  // --- which passwords get through ------------------------------------------

  /** The password the relay's secret gives the user name. */
  function Minted(x: Setup): string
  {
    x.c.base64(x.c.hmac(Utf8.Encode(x.cfg.secret), Utf8.Encode(x.username)))
  }

  function KeyText(x: Setup, password: string): bytes
  {
    Utf8.Encode(x.username + ":" + x.cfg.realm + ":" + password)
  }

  /** Where this dial depends on it, the hash functions do not collide: neither on
      the texts of the two keys, nor on the two keys for the signed Allocate. */
  ghost predicate NoClash(x: Setup, k: nat, control: nat)
  {
    var cred := Cred(x.username, x.password, x.cfg.realm, x.schedule.nonce(control));
    var part := SignedPart(Sign(cred, AllocateRequest(x.schedule.tid(k + 1), x.lifetimeSeconds)));
    var mine, theirs := KeyText(x, x.password), KeyText(x, Minted(x));
    && (x.c.md5(mine) == x.c.md5(theirs) ==> mine == theirs)
    && (x.c.hmac(x.c.md5(mine), part) == x.c.hmac(x.c.md5(theirs), part) ==> x.c.md5(mine) == x.c.md5(theirs))
  }

  lemma KeyTextInjective(x: Setup, p: string, q: string)
    requires KeyText(x, p) == KeyText(x, q)
    ensures p == q
  {
    hide Utf8.Encode;
    var front := x.username + ":" + x.cfg.realm + ":";
    Utf8.RoundTrip(front + p);
    Utf8.RoundTrip(front + q);
    assert p == (front + p)[|front|..] && q == (front + q)[|front|..];
  }

  /** Short of a collision, the codes agree exactly for the minted password. */
  lemma SameCodeExactly(x: Setup, k: nat, control: nat)
    requires NoClash(x, k, control)
    ensures var cred := Cred(x.username, x.password, x.cfg.realm, x.schedule.nonce(control));
            SameCode(x, cred, AllocateRequest(x.schedule.tid(k + 1), x.lifetimeSeconds)) <==> x.password == Minted(x)
  {
    hide Utf8.Encode, AllocateRequest, Sign, SignedPart;
    var cred := Cred(x.username, x.password, x.cfg.realm, x.schedule.nonce(control));
    KeySpelled(x.c, cred);
    if KeyText(x, x.password) == KeyText(x, Minted(x)) {
      KeyTextInjective(x, x.password, Minted(x));
    }
  }

  /** The outcome of a dial that nothing else stands in the way of: it goes through
      if and only if the password is the one the relay's secret gives the user name,
      and is rejected with 401 otherwise. */
  lemma DialExactly(x: Setup, s0: State, target: SocketAddr, control: nat, data: nat)
    requires x.Valid() && target.Valid() && CanDial(x, s0.sent, control, data, target)
    requires NoClash(x, s0.sent, control)
    ensures var r := Dial(x, s0, target, control, data).1;
            && (r == Ok(()) <==> x.password == Minted(x))
            && (r == Err(Rejected(401, "")) <==> x.password != Minted(x))
  {
    hide Dial, CanDial, SameCode, NoClash;
    SameCodeExactly(x, s0.sent, control);
    if x.password == Minted(x) {
      DialCompletes(x, s0, target, control, data);
    } else {
      DialingAllocates(x, s0.sent, control, data, target);
      WrongCodeIsRejected(x, s0, target, control, data);
    }
  }

  lemma DialingAllocates(x: Setup, k: nat, control: nat, data: nat, target: SocketAddr)
    requires target.Valid() && CanDial(x, k, control, data, target)
    ensures CanAllocate(x, k, control)
  {
    hide Fits, ReplyFits, ChallengeReply, Sign, Key, AllocateRequest, Avoids;
  }

  // --- a peer that does not answer ------------------------------------------

  /** As for a dial that can go through, except that the peer refuses. */
  predicate PeerRefuses(x: Setup, k: nat, control: nat, data: nat, target: SocketAddr)
    requires target.Valid()
  {
    && target.V4? && !x.schedule.env(k + 3).accepts
    && BuffersSuffice(x, k, control, target) && InTime(x, k) && Undisturbed(x, k, control, data)
  }

  /** Then an honest client is told so. */
  lemma RefusedPeerIsReported(x: Setup, s0: State, target: SocketAddr, control: nat, data: nat)
    requires x.Valid() && target.Valid() && x.password == Minted(x)
    requires PeerRefuses(x, s0.sent, control, data, target)
    ensures Dial(x, s0, target, control, data).1 == Err(Rejected(447, "connection failed"))
  {
    hide Step, Must, Challenge, ReplyFits, Fits, Sign, Key, LeavesAlone, Avoids, Connected, SameCode, RestPassword,
         AllocateRequest, PeerRequest, BindRequest, ConnectionId, RelayedPort, Wire, ChallengeReply, U32Attr;
    var k, nonce := s0.sent, x.schedule.nonce(control);
    var probe := AllocateRequest(x.schedule.tid(k), x.lifetimeSeconds);
    HonestIsMinted(x);
    OpensSession(x, s0, control, probe, None);
    var online := Connected(x, s0, control, Wire(x.c, probe, None));
    ChallengePasses(x, online, control, nonce);
    var s1 := Challenge(x, online, control).0;
    AnyTidFits(x.cfg, Session(nonce, None, map[]), x.schedule.tid(k), x.schedule.tid(k + 1));
    AllocatePasses(x, s1, control, nonce);
    HonestSameCode(x, CredOf(x, s1), AllocateRequest(x.schedule.tid(k + 1), x.lifetimeSeconds));
    var s2 := Must(x, s1, control, AskAllocate, "allocate").0;
    var port := RelayedPort(x.schedule.env(k + 1).draw);
    PermissionPasses(x, s2, control, target, port);
    var s3 := Must(x, s2, control, AskPeer(CreatePermission, target), "create-permission").0;
    ConnectFails(x, s3, control, target, port);
  }

  lemma HonestIsMinted(x: Setup)
    ensures Minted(x) == RestPassword(x.c, x.cfg.secret, x.username)
  {
  }

  lemma ConnectFails(x: Setup, s: State, control: nat, target: SocketAddr, port: nat)
    requires x.Valid() && target.Valid() && target.V4? && !x.schedule.env(s.sent).accepts
    requires Avoids(x.schedule.traffic(s.sent), control)
    requires Fits(x.c, Sign(CredOf(x, s), PeerRequest(Connect, x.schedule.tid(s.sent), target)),
                  Some(Key(x.c, CredOf(x, s))))
    requires control in s.server.conns && port in s.server.conns[control].allocations
    requires s.server.conns[control].allocations[port].deadline > x.schedule.env(s.sent).prunedAt
    requires target.ip in s.server.conns[control].allocations[port].permissions
    ensures Must(x, s, control, AskPeer(Connect, target), "connect").1 == Err(Rejected(447, "connection failed"))
  {
    hide Step, Exchange, ErrorCodeOf, PeerRequest, Sign, Key, Fits;
    var others, env := x.schedule.traffic(s.sent), x.schedule.env(s.sent);
    var sv := Serve(x.c, x.cfg, s.server, others, s.steps);
    TrafficElsewhere(x.c, x.cfg, s.server, others, s.steps, control, 0);
    ConnectRefusedAnswer(x.c, x.cfg, sv, control, CredOf(x, s), x.schedule.tid(s.sent), target, port, env,
                         s.steps + |others|);
  }

  lemma ConnectRefusedAnswer(
    c: Crypto, cfg: Config, sv: Server, conn: nat, cred: Cred, tid: Tid, target: SocketAddr, port: nat, env: Env,
    socket: nat)
    requires c.Valid() && env.from.Valid() && target.Valid() && target.V4? && !env.accepts
    requires Fits(c, Sign(cred, PeerRequest(Connect, tid, target)), Some(Key(c, cred)))
    requires conn in sv.conns && port in sv.conns[conn].allocations
    requires sv.conns[conn].allocations[port].deadline > env.prunedAt
    requires target.ip in sv.conns[conn].allocations[port].permissions
    ensures var signed := Sign(cred, PeerRequest(Connect, tid, target));
            var r := Exchange(c, cfg, sv, conn, signed, Some(Key(c, cred)), env, socket).1;
            && r.Ok? && r.value.cls == ErrorResponse
            && ErrorCodeOf(r.value.attrs) == Some((447, "connection failed"))
  {
    hide Decode, EncodePlain, EncodeKeyed, SignedPart, Utf8.Encode, Utf8.DecodeLossy, BeU32, ReadU32, ErrorReply,
         VerifyIntegrity, Prune, Cut, LongTermKey, Find, Sign, XorAddressBytes, SignedIncoming, PeerOf, ErrorCodeOf;
    var m := PeerRequest(Connect, tid, target);
    PeerFields(Connect, tid, target);
    SignedRequestChecked(c, cfg, cred, m);
    SignKeepsHeader(cred, m);
    PeerArrived(c, cred, Connect, tid, target);
    CutShort(Wire(c, Sign(cred, m), Some(Key(c, cred))), READ_BUFFER);
    PruneKeeps(sv.conns[conn], env.prunedAt);
    assert Permitted(Prune(sv.conns[conn], env.prunedAt), target.ip);
    var msg := SignedIncoming(c, cred, m);
    ErrorReads(msg, 447, "connection failed");
    RefusalFits(msg);
    ReplyArrives(ErrorReply(msg, 447, "connection failed"));
  }

  lemma RefusalFits(msg: Incoming)
    ensures var out := ErrorReply(msg, 447, "connection failed");
            WireKinds(out.attrs) && ReplyFits(out) && out.tid == msg.tid && out.cls == ErrorResponse
  {
    hide EncodePlain, Padding;
    var out := ErrorReply(msg, 447, "connection failed");
    EncodedLength("connection failed");
    var v := out.attrs[0].value;
    hide Utf8.Encode;
    assert |v| <= 80;
    PaddingAligns(|v|);
    BodySingle(out.attrs[0]);
    assert out.attrs == [out.attrs[0]];
    ShortReplyFits(out);
  }

  lemma {:induction false} EncodedLength(s: string)
    ensures |Utf8.Encode(s)| <= 4 * |s|
  {
    hide Utf8.EncodeChar;
    if s != [] {
      EncodedLength(s[1..]);
    }
  }
}
