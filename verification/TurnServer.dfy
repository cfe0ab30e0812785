/** The TURN-over-TCP server: what one connection's handler does with one
    message, and the whole server as a machine over its inputs. */
module TurnServer {
  import opened Bytes
  import opened Stun
  import opened Credentials
  import Utf8

  /** Times are nanoseconds on a monotonic clock. */
  const SECOND: nat := 1_000_000_000
  const READ_BUFFER: nat := 8192

  type Ipv4 = ip: bytes | |ip| == 4 witness [0, 0, 0, 0]

  datatype Config = Config(external: Ipv4, realm: string, secret: string, lifetime: nat)

  datatype Allocation = Allocation(permissions: seq<bytes>, connections: seq<nat>, deadline: int)

  datatype Session = Session(nonce: string, username: Option<string>, allocations: map<nat, Allocation>)

  // --- authentication -------------------------------------------------------

  lemma {:induction false} AttrsTakeRoom(buf: bytes, off: nat, end: nat)
    requires end <= |buf| && ParseAttrs(buf, off, end).Ok? && ParseAttrs(buf, off, end).value != []
    ensures off + 4 * |ParseAttrs(buf, off, end).value| <= end
    decreases end + 4 - off
  {
    var l := ReadU16(buf[off + 2], buf[off + 3]);
    var next := off + 4 + l + Padding(l);
    if ParseAttrs(buf, next, end).value != [] {
      AttrsTakeRoom(buf, next, end);
    }
  }

  lemma TwoFound(attrs: Attrs)
    requires Find(attrs, USERNAME).Some? && Find(attrs, MESSAGE_INTEGRITY).Some?
    ensures |attrs| >= 2
  {
    var tail := attrs[1..];
    assert Find(tail, USERNAME).Some? || Find(tail, MESSAGE_INTEGRITY).Some?;
  }

  /** A message in which both a user name and an integrity code were found is
      long enough for the code's fixed place, 24 bytes before the end. */
  lemma SignedMessageLength(raw: bytes, msg: Incoming)
    requires Decode(raw) == Ok(msg)
    requires Find(msg.attrs, USERNAME).Some? && Find(msg.attrs, MESSAGE_INTEGRITY).Some?
    ensures |raw| >= 28
  {
    hide ReadU16, ReadU32, DecodeType, Padding;
    TwoFound(msg.attrs);
    AttrsTakeRoom(raw, HEADER_LEN, HEADER_LEN + DeclaredBody(raw));
  }

  /** The bytes the server authenticates: everything before the last 24, with the
      length field overwritten to count them. */
  function Covered(raw: bytes): bytes
    requires |raw| >= 28
  {
    raw[..2] + BeU16(|raw| - 20) + raw[4..|raw| - 24]
  }

  function ServerKey(c: Crypto, realm: string, secret: string, username: string): bytes
  {
    LongTermKey(c, username, realm, RestPassword(c, secret, username))
  }

  predicate VerifyIntegrity(c: Crypto, raw: bytes, msg: Incoming, realm: string, secret: string)
    requires Decode(raw) == Ok(msg)
  {
    && Find(msg.attrs, USERNAME).Some?
    && Find(msg.attrs, MESSAGE_INTEGRITY).Some?
    && (SignedMessageLength(raw, msg);
        raw[|raw| - 24..|raw| - 22] == BeU16(MESSAGE_INTEGRITY))
    && var username := StringAttr(msg.attrs, USERNAME).value;
       ConstantTimeEq(c.hmac(ServerKey(c, realm, secret, username), Covered(raw)), raw[|raw| - 20..])
  }

  lemma {:induction false} FindAppend(a: Attrs, b: Attrs, kind: nat)
    ensures Find(a + b, kind) == if Find(a, kind).Some? then Find(a, kind) else Find(b, kind)
  {
    if a == [] {
      assert a + b == b;
    } else {
      assert (a + b)[1..] == a[1..] + b;
      FindAppend(a[1..], b, kind);
    }
  }

  /** On an encoded message the length patch changes nothing. */
  lemma CoveredIsSigned(m: Outgoing, key: bytes, hmac: (bytes, bytes) -> bytes)
    requires |hmac(key, SignedPart(m))| == 20 && m.attrs != []
    ensures var raw := EncodeKeyed(m, key, hmac);
            && |raw| >= 28 && Covered(raw) == SignedPart(m)
            && raw[|raw| - 24..|raw| - 22] == BeU16(MESSAGE_INTEGRITY)
            && raw[|raw| - 20..] == hmac(key, SignedPart(m))
  {
    hide BeU16, BeU32, EncodeType, Body;
    BodyLength(m.attrs);
    assert BodyLen(m.attrs) >= 4;
    var raw := EncodeKeyed(m, key, hmac);
    var part := SignedPart(m);
    var mac := AttrPair(MESSAGE_INTEGRITY, hmac(key, part));
    assert |AttrBytes(mac)| == 24;
    assert raw[|raw| - 24..] == AttrBytes(mac);
    assert raw[|raw| - 24..|raw| - 22] == AttrBytes(mac)[..2];
    assert raw[|raw| - 20..] == AttrBytes(mac)[4..];
    assert raw[..|raw| - 24] == part;
    assert part[2..4] == BeU16(BodyLen(m.attrs) + 24);
    assert part == part[..2] + part[2..4] + part[4..];
    assert raw[..2] == part[..2] && raw[4..|raw| - 24] == part[4..];
  }

  /** A message signed with `key` that names user `u` passes if and only if its
      code is also the code under the key the server derives for `u`. */
  lemma IntegrityExactly(
    c: Crypto, m: Outgoing, key: bytes, u: string, realm: string, secret: string)
    requires c.Valid() && WireKinds(m.attrs) && BodyLen(m.attrs) + 24 < 65536
    requires Find(m.attrs, USERNAME) == Some(Utf8.Encode(u))
    ensures var raw := EncodeKeyed(m, key, c.hmac);
            && Decode(raw).Ok?
            && (VerifyIntegrity(c, raw, Decode(raw).value, realm, secret)
                <==> c.hmac(ServerKey(c, realm, secret, u), SignedPart(m)) == c.hmac(key, SignedPart(m)))
  {
    hide Decode, EncodeKeyed, SignedPart, BodyLen, LongTermKey, Utf8.Encode, Utf8.DecodeLossy, Covered;
    var part := SignedPart(m);
    var mac := AttrPair(MESSAGE_INTEGRITY, c.hmac(key, part));
    var raw := EncodeKeyed(m, key, c.hmac);
    KeyedRoundTrip(m, key, c.hmac, []);
    assert raw + [] == raw;
    var attrs := m.attrs + [mac];
    FindAppend(m.attrs, [mac], USERNAME);
    FindAppend(m.attrs, [mac], MESSAGE_INTEGRITY);
    assert Find([mac], MESSAGE_INTEGRITY) == Some(mac.value);
    CoveredIsSigned(m, key, c.hmac);
    Utf8.RoundTrip(u);
    ConstantTimeEqIsEquality(c.hmac(ServerKey(c, realm, secret, u), part), mac.value);
  }

  /** In particular every message signed with the REST password of the user it
      names is accepted. */
  lemma HonestSignatureAccepted(c: Crypto, m: Outgoing, u: string, realm: string, secret: string)
    requires c.Valid() && WireKinds(m.attrs) && BodyLen(m.attrs) + 24 < 65536
    requires Find(m.attrs, USERNAME) == Some(Utf8.Encode(u))
    ensures var raw := EncodeKeyed(m, LongTermKey(c, u, realm, RestPassword(c, secret, u)), c.hmac);
            Decode(raw).Ok? && VerifyIntegrity(c, raw, Decode(raw).value, realm, secret)
  {
    IntegrityExactly(c, m, ServerKey(c, realm, secret, u), u, realm, secret);
  }

  // --- request handlers -----------------------------------------------------

  function ErrorReply(msg: Incoming, code: nat, reason: string): Outgoing
    requires code < 25600
  {
    Outgoing(msg.op, ErrorResponse, msg.tid,
             [AttrPair(ERROR_CODE, [0, 0, code / 100, code % 100] + Utf8.Encode(reason))])
  }

  function Success(msg: Incoming): Outgoing
  {
    Outgoing(msg.op, SuccessResponse, msg.tid, [])
  }

  /** LIFETIME if present and not zero, else the configured one. */
  function RequestedLifetime(cfg: Config, msg: Incoming): nat
  {
    match U32Attr(msg.attrs, LIFETIME)
    case Some(s) => if s > 0 then s * SECOND else cfg.lifetime
    case None => cfg.lifetime
  }

  function ChallengeReply(cfg: Config, s: Session, msg: Incoming): Outgoing
  {
    Outgoing(Allocate, ErrorResponse, msg.tid,
             [AttrPair(ERROR_CODE, [0, 0, 4, 1]),
              AttrPair(REALM, Utf8.Encode(cfg.realm)),
              AttrPair(NONCE, Utf8.Encode(s.nonce))])
  }

  predicate AsksForTcp(msg: Incoming)
  {
    match Find(msg.attrs, REQUESTED_TRANSPORT)
    case Some(v) => v != [] && v[0] == 6
    case None => false
  }

  /** `draw` is the 64-bit random value the handler uses. */
  function RelayedPort(draw: nat): (port: nat)
    ensures 49152 <= port < 65536
  {
    QuotRem(draw, 16384);
    49152 + Rem(draw, 16384)
  }

  function ConnectionId(draw: nat): (id: nat)
    ensures id < 0x1_0000_0000
  {
    QuotRem(Quot(draw, 0x1_0000_0000), 0x1_0000_0000);
    Rem(Quot(draw, 0x1_0000_0000), 0x1_0000_0000)
  }

  function HandleAllocate(
    c: Crypto, cfg: Config, s: Session, raw: bytes, msg: Incoming, draw: nat, now: int): (Session, Outgoing)
    requires Decode(raw) == Ok(msg)
  {
    if !AsksForTcp(msg) then (s, ErrorReply(msg, 442, "TCP only"))
    else if !VerifyIntegrity(c, raw, msg, cfg.realm, cfg.secret) then (s, ChallengeReply(cfg, s, msg))
    else
      var username := StringAttr(msg.attrs, USERNAME).value;
      if s.username.Some? && s.username.value != username then (s, ErrorReply(msg, 441, "wrong credentials"))
      else
        var lifetime := RequestedLifetime(cfg, msg);
        var port := RelayedPort(draw);
        (s.(username := Some(username), allocations := s.allocations[port := Allocation([], [], now + lifetime)]),
         Success(msg)
         .With(XOR_RELAYED_ADDRESS, XorAddressBytes(V4(cfg.external, port), msg.tid))
         .With(LIFETIME, BeU32(Quot(lifetime, SECOND))))
  }

  function RefreshAll(s: Session, deadline: int): Session
  {
    s.(allocations := map p | p in s.allocations :: s.allocations[p].(deadline := deadline))
  }

  function HandleRefresh(
    c: Crypto, cfg: Config, s: Session, raw: bytes, msg: Incoming, now: int): (Session, Outgoing)
    requires Decode(raw) == Ok(msg)
  {
    if !VerifyIntegrity(c, raw, msg, cfg.realm, cfg.secret) then (s, ErrorReply(msg, 401, "unauthorized"))
    else
      var lifetime := RequestedLifetime(cfg, msg);
      (RefreshAll(s, now + lifetime),
       Success(msg).With(LIFETIME, BeU32(Quot(lifetime, SECOND))))
  }

  /** The peer address a request names; only IPv4 ones are ever decoded. */
  function PeerOf(msg: Incoming): (r: Option<SocketAddr>)
    ensures r.Some? ==> r.value.V4? && |r.value.ip| == 4
  {
    match Find(msg.attrs, XOR_PEER_ADDRESS)
    case Some(v) => DecodeXorAddress(v)
    case None => None
  }

  function Permit(a: Allocation, ip: bytes, deadline: int): Allocation
  {
    a.(permissions := if ip in a.permissions then a.permissions else a.permissions + [ip], deadline := deadline)
  }

  function PermitAll(s: Session, ip: bytes, deadline: int): Session
  {
    s.(allocations := map p | p in s.allocations :: Permit(s.allocations[p], ip, deadline))
  }

  function HandlePermission(
    c: Crypto, cfg: Config, s: Session, raw: bytes, msg: Incoming, now: int): (Session, Outgoing)
    requires Decode(raw) == Ok(msg)
  {
    if !VerifyIntegrity(c, raw, msg, cfg.realm, cfg.secret) then (s, ErrorReply(msg, 401, "unauthorized"))
    else match PeerOf(msg)
      case None => (s, ErrorReply(msg, 400, "missing xor-peer-address"))
      case Some(peer) =>
        (PermitAll(s, peer.ip, now + cfg.lifetime), Success(msg))
  }

  predicate Permitted(s: Session, ip: bytes)
  {
    exists p :: p in s.allocations && ip in s.allocations[p].permissions
  }

  /** The peer a Connect may dial, or the refusal. */
  function ConnectTarget(s: Session, msg: Incoming): Result<SocketAddr, Outgoing>
  {
    match PeerOf(msg)
    case None => Err(ErrorReply(msg, 400, "missing xor-peer-address"))
    case Some(peer) =>
      if !Permitted(s, peer.ip) then Err(ErrorReply(msg, 403, "no permission for peer")) else Ok(peer)
  }

  function Park(a: Allocation, id: nat, deadline: int): Allocation
  {
    a.(connections := a.connections + [id], deadline := deadline)
  }

  function ParkAll(s: Session, id: nat, deadline: int): Session
  {
    s.(allocations := map p | p in s.allocations :: Park(s.allocations[p], id, deadline))
  }

  function Prune(s: Session, now: int): Session
  {
    s.(allocations := map p | p in s.allocations && s.allocations[p].deadline > now :: s.allocations[p])
  }

  // --- the server -----------------------------------------------------------

  datatype Protocol = Http | Bridge | Turn

  /** The first bytes of a connection decide who serves it. */
  function Demux(peeked: bytes): Protocol
  {
    if |peeked| >= 4 && (peeked[..4] == Utf8.Encode("GET ") || peeked[..4] == Utf8.Encode("POST")) then Http
    else if |peeked| >= 7 && peeked[..7] == Utf8.Encode("BRIDGE ") then Bridge
    else Turn
  }

  /** One event at the server: a connection opens, or one read on it returns.
      `prunedAt` is the clock before the read, `now` the clock in the handler,
      `accepts` whether the peer takes the TCP connection a Connect opens. */
  datatype Input =
    | Open(conn: nat, nonce: string, peeked: bytes)
    | Data(conn: nat, raw: bytes, prunedAt: int, now: int, draw: nat, peer: SocketAddr, accepts: bool)

  /** Peer sockets are named by the position of the input that opened them.
      `bound` lists, in order, the sockets handed over to a ConnectionBind. */
  datatype Server = Server(conns: map<nat, Session>, pending: map<nat, nat>, bound: seq<nat>)

  predicate Wellformed(i: Input)
  {
    i.Data? ==> |i.raw| <= READ_BUFFER && i.peer.Valid()
  }

  function HandleConnect(
    cfg: Config, sv: Server, s: Session, msg: Incoming, i: Input, socket: nat): (Server, Outgoing)
    requires i.Data?
  {
    match ConnectTarget(s, msg)
    case Err(refusal) => (sv.(conns := sv.conns[i.conn := s]), refusal)
    case Ok(_) =>
      if !i.accepts then (sv.(conns := sv.conns[i.conn := s]), ErrorReply(msg, 447, "connection failed"))
      else
        var id := ConnectionId(i.draw);
        (sv.(conns := sv.conns[i.conn := ParkAll(s, id, i.now + cfg.lifetime)], pending := sv.pending[id := socket]),
         Success(msg).With(CONNECTION_ID, BeU32(id)))
  }

  /** The connection leaves the request loop whatever the outcome. */
  function HandleBind(sv: Server, msg: Incoming, conn: nat): (Server, Outgoing)
  {
    var gone := sv.(conns := sv.conns - {conn});
    match U32Attr(msg.attrs, CONNECTION_ID)
    case None => (gone, ErrorReply(msg, 400, "missing connection id"))
    case Some(id) =>
      if id !in sv.pending then (gone, ErrorReply(msg, 437, "allocation mismatch"))
      else (gone.(pending := sv.pending - {id}, bound := sv.bound + [sv.pending[id]]), Success(msg))
  }

  /** Handlers that touch only the connection's own session. */
  function HandleOwn(c: Crypto, cfg: Config, s: Session, msg: Incoming, i: Input): (Session, Outgoing)
    requires i.Data? && Wellformed(i) && Decode(i.raw) == Ok(msg)
  {
    match msg.op
    case Binding =>
      (s, Success(msg).With(XOR_MAPPED_ADDRESS, XorAddressBytes(i.peer, msg.tid))
          .With(XOR_PEER_ADDRESS, XorAddressBytes(i.peer, msg.tid)))
    case Allocate => HandleAllocate(c, cfg, s, i.raw, msg, i.draw, i.now)
    case Refresh => HandleRefresh(c, cfg, s, i.raw, msg, i.now)
    case CreatePermission => HandlePermission(c, cfg, s, i.raw, msg, i.now)
    case _ => (s, ErrorReply(msg, 400, "unsupported method"))
  }

  function Step(c: Crypto, cfg: Config, sv: Server, i: Input, socket: nat): (Server, Option<Outgoing>)
    requires Wellformed(i)
  {
    if i.Open? then
      if Demux(i.peeked) != Turn then (sv, None)
      else (sv.(conns := sv.conns[i.conn := Session(i.nonce, None, map[])]), None)
    else if i.conn !in sv.conns then (sv, None)
    else
      var s := Prune(sv.conns[i.conn], i.prunedAt);
      var d := Decode(i.raw);
      if i.raw == [] || d.Err? then (sv.(conns := sv.conns - {i.conn}), None)
      else if d.value.cls != Request then (sv.(conns := sv.conns[i.conn := s]), None)
      else if d.value.op == ConnectionBind then
        var (sv', m) := HandleBind(sv, d.value, i.conn);
        (sv', Some(m))
      else if d.value.op == Connect then
        var (sv', m) := HandleConnect(cfg, sv, s, d.value, i, socket);
        (sv', Some(m))
      else
        var (s', m) := HandleOwn(c, cfg, s, d.value, i);
        (sv.(conns := sv.conns[i.conn := s']), Some(m))
  }

  const EMPTY: Server := Server(map[], map[], [])

  predicate AllWellformed(inputs: seq<Input>) { forall i :: i in inputs ==> Wellformed(i) }

  /** The state after a whole run. */
  function After(c: Crypto, cfg: Config, inputs: seq<Input>): Server
    requires AllWellformed(inputs)
  {
    if inputs == [] then EMPTY
    else
      var n := |inputs| - 1;
      Step(c, cfg, After(c, cfg, inputs[..n]), inputs[n], n).0
  }
}
