/** The TURN client's side of the conversation, and how the server of
    `TurnServer` answers each of its requests. */
module TurnClient {
  import opened Bytes
  import opened Stun
  import opened Credentials
  import opened TurnServer
  import Utf8

  const CLIENT_BUFFER: nat := 4096

  datatype RelayError = Protocol(reason: string) | Rejected(code: nat, reason: string)

  /** What the outside world contributes to one request: clocks, the server's
      random draw, and whether the peer accepts a connection. */
  datatype Env = Env(prunedAt: int, now: int, draw: nat, from: SocketAddr, accepts: bool)

  datatype Cred = Cred(username: string, password: string, realm: string, nonce: string)

  function Key(c: Crypto, cred: Cred): bytes
  {
    LongTermKey(c, cred.username, cred.realm, cred.password)
  }

  function Sign(cred: Cred, m: Outgoing): Outgoing
  {
    m.With(USERNAME, Utf8.Encode(cred.username))
     .With(REALM, Utf8.Encode(cred.realm))
     .With(NONCE, Utf8.Encode(cred.nonce))
  }

  function Wire(c: Crypto, m: Outgoing, key: Option<bytes>): bytes
  {
    match key case Some(k) => EncodeKeyed(m, k, c.hmac) case None => EncodePlain(m)
  }

  function Cut(b: bytes, n: nat): bytes { if |b| <= n then b else b[..n] }

  function Received(conn: nat, wire: bytes, env: Env): Input
  {
    Data(conn, Cut(wire, READ_BUFFER), env.prunedAt, env.now, env.draw, env.from, env.accepts)
  }

  /** What the client makes of an answer. */
  function Understand(reply: Option<Outgoing>, tid: Tid): Result<Incoming, RelayError>
  {
    match reply
    case None => Err(Protocol("short STUN response"))
    case Some(out) =>
      match Decode(Cut(EncodePlain(out), CLIENT_BUFFER))
      case Err(_) => Err(Protocol("undecodable STUN response from relay"))
      case Ok(msg) => if msg.tid != tid then Err(Protocol("transaction id mismatch")) else Ok(msg)
  }

  /** One request and its answer. */
  function Exchange(
    c: Crypto, cfg: Config, sv: Server, conn: nat, m: Outgoing, key: Option<bytes>, env: Env, socket: nat)
    : (Server, Result<Incoming, RelayError>)
    requires env.from.Valid()
  {
    var (sv', reply) := Step(c, cfg, sv, Received(conn, Wire(c, m, key), env), socket);
    (sv', Understand(reply, m.tid))
  }

  // --- the requests ---------------------------------------------------------

  function AllocateRequest(tid: Tid, lifetimeSeconds: nat): Outgoing
  {
    var m := Outgoing(Allocate, Request, tid, []).With(REQUESTED_TRANSPORT, [6, 0, 0, 0]);
    if lifetimeSeconds > 0 then m.With(LIFETIME, BeU32(lifetimeSeconds)) else m
  }

  function PeerRequest(op: Method, tid: Tid, target: SocketAddr): Outgoing
    requires target.Valid()
  {
    Outgoing(op, Request, tid, []).With(XOR_PEER_ADDRESS, XorAddressBytes(target, tid))
  }

  function BindRequest(tid: Tid, id: nat): Outgoing
  {
    Outgoing(ConnectionBind, Request, tid, []).With(CONNECTION_ID, BeU32(id))
  }

  /** A request the server reads in one piece. */
  predicate Fits(c: Crypto, m: Outgoing, key: Option<bytes>) { |Wire(c, m, key)| <= READ_BUFFER }

  predicate ReplyFits(out: Outgoing) { |EncodePlain(out)| <= CLIENT_BUFFER }

  // --- delivery -------------------------------------------------------------

  lemma WireLength(c: Crypto, m: Outgoing, key: Option<bytes>)
    requires c.Valid()
    ensures |Wire(c, m, key)| == HEADER_LEN + BodyLen(m.attrs) + if key.Some? then 24 else 0
  {
    hide Header, Padding;
    BodyLength(m.attrs);
    assert Padding(20) == 0 by { PaddingAligns(20); PaddingOf20(); }
  }

  lemma PaddingOf20() ensures Padding(20) == 0 {}

  /** A signed request that fits reaches the handler with its own attributes and
      the integrity code. */
  lemma RequestArrives(c: Crypto, m: Outgoing, key: bytes)
    requires c.Valid() && WireKinds(m.attrs) && Fits(c, m, Some(key))
    ensures BodyLen(m.attrs) + 24 < 65536
    ensures Decode(Wire(c, m, Some(key)))
         == Ok(Incoming(m.op, m.cls, m.tid,
                        m.attrs + [AttrPair(MESSAGE_INTEGRITY, c.hmac(key, SignedPart(m)))]))
    ensures Wire(c, m, Some(key)) != []
  {
    hide Decode, EncodeKeyed, SignedPart, BodyLen;
    WireLength(c, m, Some(key));
    KeyedRoundTrip(m, key, c.hmac, []);
    assert Wire(c, m, Some(key)) + [] == Wire(c, m, Some(key));
  }

  lemma ReplyArrives(out: Outgoing)
    requires WireKinds(out.attrs) && ReplyFits(out)
    ensures Understand(Some(out), out.tid) == Ok(Incoming(out.op, out.cls, out.tid, out.attrs))
  {
    hide Decode, BodyLen, Header, Body;
    BodyLength(out.attrs);
    PlainRoundTrip(out, []);
    assert EncodePlain(out) + [] == EncodePlain(out);
  }

  lemma WithLength(m: Outgoing, kind: nat, value: bytes)
    ensures BodyLen(m.With(kind, value).attrs) == BodyLen(m.attrs) + 4 + |value| + Padding(|value|)
  {
    BodyAppend(m.attrs, [AttrPair(kind, value)]);
    BodySingle(AttrPair(kind, value));
  }

  /** Short answers always fit. */
  lemma ShortReplyFits(out: Outgoing)
    requires BodyLen(out.attrs) <= CLIENT_BUFFER - HEADER_LEN
    ensures ReplyFits(out)
  {
    BodyLength(out.attrs);
  }

  // --- looking into requests ------------------------------------------------

  lemma FindWith(m: Outgoing, kind: nat, value: bytes, k: nat)
    ensures Find(m.With(kind, value).attrs, k)
         == if Find(m.attrs, k).Some? then Find(m.attrs, k) else if k == kind then Some(value) else None
  {
    FindAppend(m.attrs, [AttrPair(kind, value)], k);
    assert [AttrPair(kind, value)][1..] == [];
  }

  /** Signing adds the three credential attributes and hides nothing. */
  lemma FindSigned(cred: Cred, m: Outgoing, mac: bytes, k: nat)
    ensures Find(Sign(cred, m).With(MESSAGE_INTEGRITY, mac).attrs, k) ==
            if Find(m.attrs, k).Some? then Find(m.attrs, k)
            else if k == USERNAME then Some(Utf8.Encode(cred.username))
            else if k == REALM then Some(Utf8.Encode(cred.realm))
            else if k == NONCE then Some(Utf8.Encode(cred.nonce))
            else if k == MESSAGE_INTEGRITY then Some(mac)
            else None
    ensures k != MESSAGE_INTEGRITY ==>
            Find(Sign(cred, m).attrs, k) == Find(Sign(cred, m).With(MESSAGE_INTEGRITY, mac).attrs, k)
    ensures WireKinds(m.attrs) ==> WireKinds(Sign(cred, m).attrs)
  {
    hide Find, Utf8.Encode;
    var m1 := m.With(USERNAME, Utf8.Encode(cred.username));
    var m2 := m1.With(REALM, Utf8.Encode(cred.realm));
    var m3 := m2.With(NONCE, Utf8.Encode(cred.nonce));
    FindWith(m, USERNAME, Utf8.Encode(cred.username), k);
    FindWith(m1, REALM, Utf8.Encode(cred.realm), k);
    FindWith(m2, NONCE, Utf8.Encode(cred.nonce), k);
    FindWith(m3, MESSAGE_INTEGRITY, mac, k);
  }

  lemma AllocateFields(tid: Tid, secs: nat)
    requires secs < 0x1_0000_0000
    ensures var attrs := AllocateRequest(tid, secs).attrs;
            && WireKinds(attrs)
            && Find(attrs, USERNAME) == None
            && Find(attrs, REQUESTED_TRANSPORT) == Some([6, 0, 0, 0])
            && Find(attrs, LIFETIME) == (if secs > 0 then Some(BeU32(secs)) else None)
            && (secs > 0 ==> |BeU32(secs)| == 4 && ReadU32(BeU32(secs)) == secs)
  {
    hide BeU32, ReadU32;
    U32RoundTrip(secs);
    var base := Outgoing(Allocate, Request, tid, []);
    var m := base.With(REQUESTED_TRANSPORT, [6, 0, 0, 0]);
    assert m.attrs == [AttrPair(REQUESTED_TRANSPORT, [6, 0, 0, 0])];
    FindWith(m, LIFETIME, BeU32(secs), USERNAME);
    FindWith(m, LIFETIME, BeU32(secs), LIFETIME);
    FindWith(m, LIFETIME, BeU32(secs), REQUESTED_TRANSPORT);
  }

  lemma PeerFields(op: Method, tid: Tid, target: SocketAddr)
    requires target.Valid() && target.V4?
    ensures var attrs := PeerRequest(op, tid, target).attrs;
            && WireKinds(attrs) && Find(attrs, USERNAME) == None
            && Find(attrs, XOR_PEER_ADDRESS).Some?
            && DecodeXorAddress(Find(attrs, XOR_PEER_ADDRESS).value) == Some(target)
  {
    hide XorAddressBytes, DecodeXorAddress;
    XorAddressRoundTrip(target, tid);
    assert PeerRequest(op, tid, target).attrs == [AttrPair(XOR_PEER_ADDRESS, XorAddressBytes(target, tid))];
  }

  lemma BindFields(tid: Tid, id: nat)
    requires id < 0x1_0000_0000
    ensures var attrs := BindRequest(tid, id).attrs;
            && WireKinds(attrs) && Find(attrs, USERNAME) == None
            && Find(attrs, CONNECTION_ID).Some? && |Find(attrs, CONNECTION_ID).value| == 4
            && ReadU32(Find(attrs, CONNECTION_ID).value) == id
  {
    hide BeU32, ReadU32;
    U32RoundTrip(id);
    assert BindRequest(tid, id).attrs == [AttrPair(CONNECTION_ID, BeU32(id))];
  }

  // --- the server's answers -------------------------------------------------

  /** The first, unsigned Allocate earns the challenge: 401 with the server's
      realm and nonce, and no allocation. */
  lemma ChallengeAnswered(c: Crypto, cfg: Config, sv: Server, conn: nat, tid: Tid, secs: nat, env: Env, socket: nat)
    requires c.Valid() && env.from.Valid() && secs < 0x1_0000_0000 && conn in sv.conns
    requires ReplyFits(ChallengeReply(cfg, sv.conns[conn], Incoming(Allocate, Request, tid, [])))
    ensures var (sv', r) := Exchange(c, cfg, sv, conn, AllocateRequest(tid, secs), None, env, socket);
            && sv' == sv.(conns := sv.conns[conn := Prune(sv.conns[conn], env.prunedAt)])
            && r.Ok? && r.value.cls == ErrorResponse
            && ErrorCodeOf(r.value.attrs) == Some((401, ""))
            && StringAttr(r.value.attrs, REALM) == Some(cfg.realm)
            && StringAttr(r.value.attrs, NONCE) == Some(sv.conns[conn].nonce)
  {
    hide Decode, EncodePlain, BodyLen, Utf8.Encode, Utf8.DecodeLossy, BeU32, ReadU32, VerifyIntegrity, Prune, Cut;
    var m := AllocateRequest(tid, secs);
    AllocateFields(tid, secs);
    UnsignedArrives(c, m, secs);
    var msg := Incoming(m.op, m.cls, m.tid, m.attrs);
    var raw := Wire(c, m, None);
    var s := Prune(sv.conns[conn], env.prunedAt);
    CutShort(raw, READ_BUFFER);
    UnsignedNotVerified(c, cfg, raw, msg);
    PruneKeeps(sv.conns[conn], env.prunedAt);
    ReplyArrives(ChallengeReply(cfg, s, msg));
    ChallengeReads(cfg, s, msg);
  }

  lemma CutShort(b: bytes, n: nat)
    requires |b| <= n
    ensures Cut(b, n) == b
  {
  }

  lemma PruneKeeps(s: Session, now: int)
    ensures Prune(s, now).nonce == s.nonce && Prune(s, now).username == s.username
    ensures forall p :: p in s.allocations && s.allocations[p].deadline > now ==>
              p in Prune(s, now).allocations && Prune(s, now).allocations[p] == s.allocations[p]
  {
  }

  lemma ParkKeeps(s: Session, id: nat, deadline: int)
    ensures forall p :: p in s.allocations ==>
              && p in ParkAll(s, id, deadline).allocations
              && ParkAll(s, id, deadline).allocations[p].permissions == s.allocations[p].permissions
              && ParkAll(s, id, deadline).allocations[p].deadline == deadline
  {
  }

  lemma UnsignedArrives(c: Crypto, m: Outgoing, secs: nat)
    requires c.Valid() && secs < 0x1_0000_0000 && m == AllocateRequest(m.tid, secs) && WireKinds(m.attrs)
    ensures Wire(c, m, None) != [] && |Wire(c, m, None)| <= READ_BUFFER
    ensures Decode(Wire(c, m, None)) == Ok(Incoming(m.op, m.cls, m.tid, m.attrs))
  {
    hide Decode, EncodePlain, BeU32;
    var base := Outgoing(Allocate, Request, m.tid, []);
    WithLength(base, REQUESTED_TRANSPORT, [6, 0, 0, 0]);
    WithLength(base.With(REQUESTED_TRANSPORT, [6, 0, 0, 0]), LIFETIME, BeU32(secs));
    WireLength(c, m, None);
    PlainRoundTrip(m, []);
    assert EncodePlain(m) + [] == EncodePlain(m);
  }

  lemma UnsignedNotVerified(c: Crypto, cfg: Config, raw: bytes, msg: Incoming)
    requires Decode(raw) == Ok(msg) && Find(msg.attrs, USERNAME) == None
    ensures !VerifyIntegrity(c, raw, msg, cfg.realm, cfg.secret)
  {
  }

  lemma ChallengeReads(cfg: Config, s: Session, msg: Incoming)
    ensures var attrs := ChallengeReply(cfg, s, msg).attrs;
            && WireKinds(attrs)
            && ErrorCodeOf(attrs) == Some((401, ""))
            && StringAttr(attrs, REALM) == Some(cfg.realm) && StringAttr(attrs, NONCE) == Some(s.nonce)
  {
    hide Utf8.Encode;
    var attrs := ChallengeReply(cfg, s, msg).attrs;
    Utf8.RoundTrip(cfg.realm);
    Utf8.RoundTrip(s.nonce);
    var realm, nonce := AttrPair(REALM, Utf8.Encode(cfg.realm)), AttrPair(NONCE, Utf8.Encode(s.nonce));
    assert attrs[1..] == [realm, nonce] && [realm, nonce][1..] == [nonce];
    assert Find(attrs, REALM) == Find([realm, nonce], REALM) == Some(realm.value);
    assert Find(attrs, NONCE) == Find([realm, nonce], NONCE) == Find([nonce], NONCE) == Some(nonce.value);
    assert [0, 0, 4, 1][4..] == [];
  }

  predicate HonestPassword(c: Crypto, cfg: Config, cred: Cred)
  {
    cred.password == RestPassword(c, cfg.secret, cred.username)
  }

  /** The decoded form of a signed request. */
  function SignedIncoming(c: Crypto, cred: Cred, m: Outgoing): Incoming
  {
    var signed := Sign(cred, m);
    Incoming(m.op, m.cls, m.tid, signed.With(MESSAGE_INTEGRITY, c.hmac(Key(c, cred), SignedPart(signed))).attrs)
  }

  /** Signed requests pass the server's check if and only if the client's code is
      the server's; with the REST password they always do. */
  lemma SignedRequestChecked(c: Crypto, cfg: Config, cred: Cred, m: Outgoing)
    requires c.Valid() && WireKinds(m.attrs) && Find(m.attrs, USERNAME) == None
    requires Fits(c, Sign(cred, m), Some(Key(c, cred)))
    ensures var raw := Wire(c, Sign(cred, m), Some(Key(c, cred)));
            var msg := SignedIncoming(c, cred, m);
            && raw != [] && Decode(raw) == Ok(msg)
            && StringAttr(msg.attrs, USERNAME) == Some(cred.username)
            && (VerifyIntegrity(c, raw, msg, cfg.realm, cfg.secret) <==>
                c.hmac(ServerKey(c, cfg.realm, cfg.secret, cred.username), SignedPart(Sign(cred, m)))
                == c.hmac(Key(c, cred), SignedPart(Sign(cred, m))))
            && (cred.realm == cfg.realm && HonestPassword(c, cfg, cred)
                ==> VerifyIntegrity(c, raw, msg, cfg.realm, cfg.secret))
  {
    hide Decode, EncodeKeyed, SignedPart, BodyLen, Utf8.Encode, Utf8.DecodeLossy, VerifyIntegrity, LongTermKey, Find,
         Sign;
    var signed := Sign(cred, m);
    FindSigned(cred, m, c.hmac(Key(c, cred), SignedPart(signed)), USERNAME);
    SignKeepsHeader(cred, m);
    RequestArrives(c, signed, Key(c, cred));
    IntegrityExactly(c, signed, Key(c, cred), cred.username, cfg.realm, cfg.secret);
    Utf8.RoundTrip(cred.username);
  }

  lemma SignKeepsHeader(cred: Cred, m: Outgoing)
    ensures Sign(cred, m).op == m.op && Sign(cred, m).cls == m.cls && Sign(cred, m).tid == m.tid
  {
  }

  function AllocateLifetime(cfg: Config, secs: nat): nat
  {
    if secs > 0 then secs * SECOND else cfg.lifetime
  }

  /** A signed Allocate on a fresh session: granted exactly when the codes agree,
      and otherwise challenged again. */
  lemma AllocateAnswered(
    c: Crypto, cfg: Config, sv: Server, conn: nat, cred: Cred, tid: Tid, secs: nat, env: Env, socket: nat)
    requires c.Valid() && env.from.Valid() && secs < 0x1_0000_0000
    requires conn in sv.conns && sv.conns[conn].username == None
    requires Fits(c, Sign(cred, AllocateRequest(tid, secs)), Some(Key(c, cred)))
    requires ReplyFits(ChallengeReply(cfg, sv.conns[conn], Incoming(Allocate, Request, tid, [])))
    ensures var signed := Sign(cred, AllocateRequest(tid, secs));
            var (sv', r) := Exchange(c, cfg, sv, conn, signed, Some(Key(c, cred)), env, socket);
            && r.Ok?
            && if c.hmac(ServerKey(c, cfg.realm, cfg.secret, cred.username), SignedPart(signed))
                  == c.hmac(Key(c, cred), SignedPart(signed))
               then && r.value.cls == SuccessResponse
                    && sv'.pending == sv.pending && sv'.bound == sv.bound
                    && conn in sv'.conns && RelayedPort(env.draw) in sv'.conns[conn].allocations
                    && sv'.conns[conn].allocations[RelayedPort(env.draw)]
                       == Allocation([], [], env.now + AllocateLifetime(cfg, secs))
               else && r.value.cls == ErrorResponse && ErrorCodeOf(r.value.attrs) == Some((401, ""))
                    && sv' == sv.(conns := sv.conns[conn := Prune(sv.conns[conn], env.prunedAt)])
  {
    hide Decode, EncodePlain, EncodeKeyed, SignedPart, Utf8.Encode, Utf8.DecodeLossy, BeU32, ReadU32,
         VerifyIntegrity, Prune, Cut, LongTermKey, Find, Sign, RelayedPort, XorAddressBytes, SignedIncoming;
    var m := AllocateRequest(tid, secs);
    var msg := SignedIncoming(c, cred, m);
    AllocateFields(tid, secs);
    SignedRequestChecked(c, cfg, cred, m);
    SignKeepsHeader(cred, m);
    AllocateArrived(c, cred, m, secs);
    var raw := Wire(c, Sign(cred, m), Some(Key(c, cred)));
    CutShort(raw, READ_BUFFER);
    var s := Prune(sv.conns[conn], env.prunedAt);
    PruneKeeps(sv.conns[conn], env.prunedAt);
    var reply := HandleAllocate(c, cfg, s, raw, msg, env.draw, env.now).1;
    if VerifyIntegrity(c, raw, msg, cfg.realm, cfg.secret) {
      XorAddressShort(cfg.external, RelayedPort(env.draw), tid);
      RelayedReplyFits(msg, XorAddressBytes(V4(cfg.external, RelayedPort(env.draw)), tid), AllocateLifetime(cfg, secs));
    } else {
      ChallengeReads(cfg, s, msg);
    }
    ReplyArrives(reply);
  }

  lemma XorAddressShort(ip: Ipv4, port: nat, tid: Tid)
    requires port < 65536
    ensures |XorAddressBytes(V4(ip, port), tid)| == 8
  {
  }

  lemma AllocateArrived(c: Crypto, cred: Cred, m: Outgoing, secs: nat)
    requires secs < 0x1_0000_0000 && m == AllocateRequest(m.tid, secs)
    ensures var msg := SignedIncoming(c, cred, m);
            && msg.op == Allocate && msg.cls == Request && msg.tid == m.tid && AsksForTcp(msg)
            && forall cfg :: RequestedLifetime(cfg, msg) == AllocateLifetime(cfg, secs)
  {
    hide Find, Utf8.Encode, BeU32, ReadU32, SignedPart, Sign, LongTermKey;
    AllocateFields(m.tid, secs);
    var mac := c.hmac(Key(c, cred), SignedPart(Sign(cred, m)));
    FindSigned(cred, m, mac, REQUESTED_TRANSPORT);
    FindSigned(cred, m, mac, LIFETIME);
  }

  lemma RelayedReplyFits(msg: Incoming, address: bytes, lifetime: nat)
    requires |address| == 8
    ensures var out := Success(msg).With(XOR_RELAYED_ADDRESS, address).With(LIFETIME, BeU32(Quot(lifetime, SECOND)));
            WireKinds(out.attrs) && ReplyFits(out)
  {
    hide EncodePlain, BeU32;
    WithLength(Success(msg), XOR_RELAYED_ADDRESS, address);
    WithLength(Success(msg).With(XOR_RELAYED_ADDRESS, address), LIFETIME, BeU32(Quot(lifetime, SECOND)));
    ShortReplyFits(Success(msg).With(XOR_RELAYED_ADDRESS, address).With(LIFETIME, BeU32(Quot(lifetime, SECOND))));
  }

  lemma PeerArrived(c: Crypto, cred: Cred, op: Method, tid: Tid, target: SocketAddr)
    requires target.Valid() && target.V4?
    ensures var msg := SignedIncoming(c, cred, PeerRequest(op, tid, target));
            msg.op == op && msg.cls == Request && msg.tid == tid && PeerOf(msg) == Some(target)
  {
    hide Find, Utf8.Encode, SignedPart, Sign, LongTermKey, XorAddressBytes, DecodeXorAddress;
    var m := PeerRequest(op, tid, target);
    PeerFields(op, tid, target);
    FindSigned(cred, m, c.hmac(Key(c, cred), SignedPart(Sign(cred, m))), XOR_PEER_ADDRESS);
  }

  /** A signed CreatePermission from an honest client, while the allocation
      lives: the peer's address is permitted on it. */
  lemma PermissionAnswered(
    c: Crypto, cfg: Config, sv: Server, conn: nat, cred: Cred, tid: Tid, target: SocketAddr, port: nat, env: Env,
    socket: nat)
    requires c.Valid() && env.from.Valid() && target.Valid() && target.V4?
    requires cred.realm == cfg.realm && HonestPassword(c, cfg, cred)
    requires Fits(c, Sign(cred, PeerRequest(CreatePermission, tid, target)), Some(Key(c, cred)))
    requires conn in sv.conns && port in sv.conns[conn].allocations
    requires sv.conns[conn].allocations[port].deadline > env.prunedAt
    ensures var signed := Sign(cred, PeerRequest(CreatePermission, tid, target));
            var (sv', r) := Exchange(c, cfg, sv, conn, signed, Some(Key(c, cred)), env, socket);
            && r.Ok? && r.value.cls == SuccessResponse
            && sv'.pending == sv.pending && sv'.bound == sv.bound
            && conn in sv'.conns && port in sv'.conns[conn].allocations
            && target.ip in sv'.conns[conn].allocations[port].permissions
            && sv'.conns[conn].allocations[port].deadline == env.now + cfg.lifetime
  {
    hide Decode, EncodePlain, EncodeKeyed, SignedPart, Utf8.Encode, Utf8.DecodeLossy,
         VerifyIntegrity, Prune, Cut, LongTermKey, Find, Sign, XorAddressBytes, SignedIncoming, PeerOf;
    var m := PeerRequest(CreatePermission, tid, target);
    PeerFields(CreatePermission, tid, target);
    SignedRequestChecked(c, cfg, cred, m);
    SignKeepsHeader(cred, m);
    PeerArrived(c, cred, CreatePermission, tid, target);
    CutShort(Wire(c, Sign(cred, m), Some(Key(c, cred))), READ_BUFFER);
    PruneKeeps(sv.conns[conn], env.prunedAt);
    ShortReplyFits(Success(SignedIncoming(c, cred, m)));
    ReplyArrives(Success(SignedIncoming(c, cred, m)));
  }

  /** A Connect to the permitted peer, which accepts: the new socket is parked
      under the id the client is told. */
  lemma ConnectAnswered(
    c: Crypto, cfg: Config, sv: Server, conn: nat, cred: Cred, tid: Tid, target: SocketAddr, port: nat, env: Env,
    socket: nat)
    requires c.Valid() && env.from.Valid() && target.Valid() && target.V4? && env.accepts
    requires Fits(c, Sign(cred, PeerRequest(Connect, tid, target)), Some(Key(c, cred)))
    requires conn in sv.conns && port in sv.conns[conn].allocations
    requires sv.conns[conn].allocations[port].deadline > env.prunedAt
    requires target.ip in sv.conns[conn].allocations[port].permissions
    ensures var signed := Sign(cred, PeerRequest(Connect, tid, target));
            var (sv', r) := Exchange(c, cfg, sv, conn, signed, Some(Key(c, cred)), env, socket);
            && r.Ok? && r.value.cls == SuccessResponse
            && U32Attr(r.value.attrs, CONNECTION_ID) == Some(ConnectionId(env.draw))
            && sv'.pending == sv.pending[ConnectionId(env.draw) := socket] && sv'.bound == sv.bound
            && conn in sv'.conns && port in sv'.conns[conn].allocations
            && sv'.conns[conn].allocations[port].permissions == sv.conns[conn].allocations[port].permissions
            && sv'.conns[conn].allocations[port].deadline == env.now + cfg.lifetime
  {
    hide Decode, EncodePlain, EncodeKeyed, SignedPart, Utf8.Encode, Utf8.DecodeLossy, BeU32, ReadU32, ConnectionId,
         VerifyIntegrity, Prune, Cut, LongTermKey, Find, Sign, XorAddressBytes, SignedIncoming, PeerOf, ParkAll;
    var m := PeerRequest(Connect, tid, target);
    PeerFields(Connect, tid, target);
    SignedRequestChecked(c, cfg, cred, m);
    SignKeepsHeader(cred, m);
    PeerArrived(c, cred, Connect, tid, target);
    CutShort(Wire(c, Sign(cred, m), Some(Key(c, cred))), READ_BUFFER);
    PruneKeeps(sv.conns[conn], env.prunedAt);
    assert Permitted(Prune(sv.conns[conn], env.prunedAt), target.ip);
    ParkKeeps(Prune(sv.conns[conn], env.prunedAt), ConnectionId(env.draw), env.now + cfg.lifetime);
    ConnectedReply(SignedIncoming(c, cred, m), env.draw);
    ReplyArrives(Success(SignedIncoming(c, cred, m)).With(CONNECTION_ID, BeU32(ConnectionId(env.draw))));
  }

  lemma ConnectedReply(msg: Incoming, draw: nat)
    ensures var id := ConnectionId(draw);
            var out := Success(msg).With(CONNECTION_ID, BeU32(id));
            && id < 0x1_0000_0000 && WireKinds(out.attrs) && ReplyFits(out)
            && U32Attr(out.attrs, CONNECTION_ID) == Some(id)
  {
    var id := ConnectionId(draw);
    var out := Success(msg).With(CONNECTION_ID, BeU32(id));
    assert id < 0x1_0000_0000;
    hide EncodePlain, BeU32, ReadU32, ConnectionId;
    U32RoundTrip(id);
    WithLength(Success(msg), CONNECTION_ID, BeU32(id));
    ShortReplyFits(out);
    assert out.attrs == [AttrPair(CONNECTION_ID, BeU32(id))];
  }

  /** A bind on the second connection, while the socket is parked: the socket is
      handed over and the connection leaves the request loop. */
  lemma BindAnswered(
    c: Crypto, cfg: Config, sv: Server, conn: nat, cred: Cred, tid: Tid, id: nat, env: Env, socket: nat)
    requires c.Valid() && env.from.Valid() && id < 0x1_0000_0000
    requires Fits(c, Sign(cred, BindRequest(tid, id)), Some(Key(c, cred)))
    requires conn in sv.conns && id in sv.pending
    ensures var signed := Sign(cred, BindRequest(tid, id));
            var (sv', r) := Exchange(c, cfg, sv, conn, signed, Some(Key(c, cred)), env, socket);
            && r.Ok? && r.value.cls == SuccessResponse
            && sv'.bound == sv.bound + [sv.pending[id]] && sv'.pending == sv.pending - {id}
  {
    hide Decode, EncodePlain, EncodeKeyed, SignedPart, Utf8.Encode, Utf8.DecodeLossy, BeU32, ReadU32,
         VerifyIntegrity, Prune, Cut, LongTermKey, Find, Sign;
    var m := BindRequest(tid, id);
    BindFields(tid, id);
    SignedRequestChecked(c, cfg, cred, m);
    SignKeepsHeader(cred, m);
    var msg := SignedIncoming(c, cred, m);
    FindSigned(cred, m, c.hmac(Key(c, cred), SignedPart(Sign(cred, m))), CONNECTION_ID);
    CutShort(Wire(c, Sign(cred, m), Some(Key(c, cred))), READ_BUFFER);
    ShortReplyFits(Success(msg));
    ReplyArrives(Success(msg));
  }

  // --- other connections' traffic -------------------------------------------

  function Serve(c: Crypto, cfg: Config, sv: Server, inputs: seq<Input>, socket: nat): Server
    requires AllWellformed(inputs)
    decreases |inputs|
  {
    if inputs == [] then sv
    else
      assert forall i :: i in inputs[1..] ==> i in inputs;
      Serve(c, cfg, Step(c, cfg, sv, inputs[0], socket).0, inputs[1..], socket + 1)
  }

  /** No input of the list is on the connection. */
  predicate Avoids(inputs: seq<Input>, conn: nat) { forall i :: i in inputs ==> i.conn != conn }

  /** No input draws this connection id for a new socket or asks to bind it. */
  predicate LeavesAlone(inputs: seq<Input>, id: nat)
  {
    forall i :: i in inputs && i.Data? ==>
      && ConnectionId(i.draw) != id
      && (Decode(i.raw).Ok? ==> U32Attr(Decode(i.raw).value.attrs, CONNECTION_ID) != Some(id))
  }

  lemma StepElsewhere(c: Crypto, cfg: Config, sv: Server, i: Input, socket: nat, conn: nat, id: nat)
    requires Wellformed(i)
    ensures i.conn != conn && conn in sv.conns ==>
            var sv' := Step(c, cfg, sv, i, socket).0; conn in sv'.conns && sv'.conns[conn] == sv.conns[conn]
    ensures id in sv.pending && LeavesAlone([i], id) ==>
            var sv' := Step(c, cfg, sv, i, socket).0; id in sv'.pending && sv'.pending[id] == sv.pending[id]
  {
    hide Decode, HandleOwn, ConnectTarget, ParkAll, Prune, ConnectionId, Demux, U32Attr, ErrorReply, Success, BeU32;
  }

  /** Traffic on other connections, however much of it, does not touch a session;
      nor a parked socket whose id it leaves alone. */
  lemma {:induction false} TrafficElsewhere(
    c: Crypto, cfg: Config, sv: Server, inputs: seq<Input>, socket: nat, conn: nat, id: nat)
    requires AllWellformed(inputs)
    ensures Avoids(inputs, conn) && conn in sv.conns ==>
            var sv' := Serve(c, cfg, sv, inputs, socket); conn in sv'.conns && sv'.conns[conn] == sv.conns[conn]
    ensures id in sv.pending && LeavesAlone(inputs, id) ==>
            var sv' := Serve(c, cfg, sv, inputs, socket); id in sv'.pending && sv'.pending[id] == sv.pending[id]
    decreases |inputs|
  {
    hide Step, Decode, U32Attr, ConnectionId, Wellformed;
    if inputs != [] {
      assert forall i :: i in inputs[1..] ==> i in inputs;
      assert inputs[0] in inputs;
      StepElsewhere(c, cfg, sv, inputs[0], socket, conn, id);
      TrafficElsewhere(c, cfg, Step(c, cfg, sv, inputs[0], socket).0, inputs[1..], socket + 1, conn, id);
    }
  }
}
