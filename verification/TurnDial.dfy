/** Dialling a peer through the relay: the client's whole sequence against the
    server, with other connections' traffic between its requests. */
module TurnDial {
  import opened Bytes
  import opened Stun
  import opened Credentials
  import opened TurnServer
  import opened TurnClient
  import Utf8

  /** Everything the dial does not decide: for the client's k-th request its
      transaction id, the server's circumstances, and the inputs other
      connections get in first; and the nonce of each connection. */
  datatype Schedule = Schedule(
    tid: nat -> Tid, env: nat -> Env, traffic: nat -> seq<Input>, nonce: nat -> string)
  {
    ghost predicate Valid()
    {
      forall k :: env(k).from.Valid() && AllWellformed(traffic(k))
    }
  }

  datatype Setup = Setup(
    c: Crypto, cfg: Config, username: string, password: string, lifetimeSeconds: nat, schedule: Schedule)
  {
    ghost predicate Valid()
    {
      c.Valid() && schedule.Valid() && lifetimeSeconds < 0x1_0000_0000
    }
  }

  /** The server, how many inputs it has had, and the client's own state. */
  datatype State = State(server: Server, steps: nat, realm: string, nonce: string, sent: nat)

  function CredOf(x: Setup, s: State): Cred { Cred(x.username, x.password, s.realm, s.nonce) }

  ghost function Transact(x: Setup, s: State, conn: nat, m: Outgoing, key: Option<bytes>)
    : (State, Result<Incoming, RelayError>)
    requires x.Valid()
  {
    var others := x.schedule.traffic(s.sent);
    var sv := Serve(x.c, x.cfg, s.server, others, s.steps);
    var (sv', r) := Exchange(x.c, x.cfg, sv, conn, m, key, x.schedule.env(s.sent), s.steps + |others|);
    (s.(server := sv', steps := s.steps + |others| + 1, sent := s.sent + 1), r)
  }

  /** Whether a reply to the unsigned probe is a challenge. */
  function ExpectChallenge(resp: Incoming): Result<(), RelayError>
  {
    if resp.cls != ErrorResponse then Err(Protocol("relay accepted allocate without a challenge"))
    else match ErrorCodeOf(resp.attrs)
      case None => Err(Protocol("error response without ERROR-CODE"))
      case Some((code, reason)) => if code != 401 then Err(Rejected(code, reason)) else Ok(())
  }

  /** What a challenge teaches. The realm is taken over before the nonce is looked
      for, so it stays even if there is none. */
  function Learn(s: State, resp: Incoming): (State, Result<(), RelayError>)
  {
    match StringAttr(resp.attrs, REALM)
    case None => (s, Err(Protocol("401 without REALM")))
    case Some(realm) =>
      match StringAttr(resp.attrs, NONCE)
      case None => (s.(realm := realm), Err(Protocol("401 without NONCE")))
      case Some(nonce) => (s.(realm := realm, nonce := nonce), Ok(()))
  }

  ghost function Challenge(x: Setup, s: State, conn: nat): (State, Result<(), RelayError>)
    requires x.Valid()
  {
    var (s', r) := Transact(x, s, conn, AllocateRequest(x.schedule.tid(s.sent), x.lifetimeSeconds), None);
    match r
    case Err(e) => (s', Err(e))
    case Ok(resp) =>
      match ExpectChallenge(resp)
      case Err(e) => (s', Err(e))
      case Ok(_) => Learn(s', resp)
  }

  /** The requests a dial signs, before they get their transaction id. */
  datatype Ask = AskAllocate | AskPeer(op: Method, target: SocketAddr) | AskBind(id: nat) {
    predicate Valid() { AskPeer? ==> target.Valid() }
  }

  function Build(x: Setup, ask: Ask, tid: Tid): Outgoing
    requires ask.Valid()
  {
    match ask
    case AskAllocate => AllocateRequest(tid, x.lifetimeSeconds)
    case AskPeer(op, target) => PeerRequest(op, tid, target)
    case AskBind(id) => BindRequest(tid, id)
  }

  ghost function SignedTransact(x: Setup, s: State, conn: nat, ask: Ask): (State, Result<Incoming, RelayError>)
    requires x.Valid() && ask.Valid()
  {
    var cred := CredOf(x, s);
    Transact(x, s, conn, Sign(cred, Build(x, ask, x.schedule.tid(s.sent))), Some(Key(x.c, cred)))
  }

  /** Sign and send; on 438 (stale nonce) challenge again and retry once. */
  ghost function AuthTransact(x: Setup, s: State, conn: nat, ask: Ask): (State, Result<Incoming, RelayError>)
    requires x.Valid() && ask.Valid()
  {
    var (s1, first) := SignedTransact(x, s, conn, ask);
    if first.Err? || first.value.cls != ErrorResponse then (s1, first)
    else match ErrorCodeOf(first.value.attrs)
      case None => (s1, Err(Protocol("error response without ERROR-CODE")))
      case Some((code, _)) =>
        if code != 438 then (s1, first)
        else
          var (s2, r) := Challenge(x, s1, conn);
          if r.Err? then (s2, Err(r.error)) else SignedTransact(x, s2, conn, ask)
  }

  function ExpectSuccess(msg: Incoming, step: string): Result<(), RelayError>
  {
    match msg.cls
    case SuccessResponse => Ok(())
    case ErrorResponse =>
      (match ErrorCodeOf(msg.attrs)
       case Some((code, reason)) => Err(Rejected(code, reason))
       case None => Err(Rejected(400, step + " failed")))
    case _ => Err(Protocol("unexpected response class"))
  }

  /** An authenticated request that has to succeed. */
  ghost function Must(x: Setup, s: State, conn: nat, ask: Ask, step: string): (State, Result<Incoming, RelayError>)
    requires x.Valid() && ask.Valid()
  {
    var (s', r) := AuthTransact(x, s, conn, ask);
    if r.Err? then (s', r)
    else match ExpectSuccess(r.value, step)
      case Err(e) => (s', Err(e))
      case Ok(_) => (s', r)
  }

  /** A TCP connection the server starts serving once its first bytes are there. */
  function Connected(x: Setup, s: State, conn: nat, first: bytes): State
  {
    s.(server := Step(x.c, x.cfg, s.server, Open(conn, x.schedule.nonce(conn), Cut(first, 7)), s.steps).0,
       steps := s.steps + 1)
  }

  ghost function Dial(x: Setup, s0: State, target: SocketAddr, control: nat, data: nat): (State, Result<(), RelayError>)
    requires x.Valid() && target.Valid()
  {
    var probe := AllocateRequest(x.schedule.tid(s0.sent), x.lifetimeSeconds);
    var (s1, challenged) := Challenge(x, Connected(x, s0, control, Wire(x.c, probe, None)), control);
    if challenged.Err? then (s1, challenged) else
    var (s2, granted) := Must(x, s1, control, AskAllocate, "allocate");
    if granted.Err? then (s2, Err(granted.error)) else
    var (s3, permitted) := Must(x, s2, control, AskPeer(CreatePermission, target), "create-permission");
    if permitted.Err? then (s3, Err(permitted.error)) else
    var (s4, connected) := Must(x, s3, control, AskPeer(Connect, target), "connect");
    if connected.Err? then (s4, Err(connected.error)) else
    match U32Attr(connected.value.attrs, CONNECTION_ID)
    case None => (s4, Err(Protocol("connect success without CONNECTION-ID")))
    case Some(id) =>
      var first := Sign(CredOf(x, s4), BindRequest(x.schedule.tid(s4.sent), id));
      var s5 := Connected(x, s4, data, Wire(x.c, first, Some(Key(x.c, CredOf(x, s4)))));
      var (s6, bound) := Must(x, s5, data, AskBind(id), "connection-bind");
      if bound.Err? then (s6, Err(bound.error)) else (s6, Ok(()))
  }

  // --- when a dial can go through -------------------------------------------

  /** The challenge and every signed request fit the buffers they are read into. */
  predicate BuffersSuffice(x: Setup, k: nat, control: nat, target: SocketAddr)
    requires target.Valid()
  {
    var cred := Cred(x.username, x.password, x.cfg.realm, x.schedule.nonce(control));
    var key := Some(Key(x.c, cred));
    var session := Session(cred.nonce, None, map[]);
    && ReplyFits(ChallengeReply(x.cfg, session, Incoming(Allocate, Request, x.schedule.tid(k), [])))
    && Fits(x.c, Sign(cred, AllocateRequest(x.schedule.tid(k + 1), x.lifetimeSeconds)), key)
    && Fits(x.c, Sign(cred, PeerRequest(CreatePermission, x.schedule.tid(k + 2), target)), key)
    && Fits(x.c, Sign(cred, PeerRequest(Connect, x.schedule.tid(k + 3), target)), key)
    && Fits(x.c, Sign(cred, BindRequest(x.schedule.tid(k + 4), ConnectionId(x.schedule.env(k + 3).draw))), key)
  }

  /** The allocation is still there when the next request comes. */
  predicate InTime(x: Setup, k: nat)
  {
    && x.schedule.env(k + 2).prunedAt < x.schedule.env(k + 1).now + AllocateLifetime(x.cfg, x.lifetimeSeconds)
    && x.schedule.env(k + 3).prunedAt < x.schedule.env(k + 2).now + x.cfg.lifetime
  }

  /** Other clients use their own connections, and before the bind nobody else
      draws or binds the same connection id. */
  predicate Undisturbed(x: Setup, k: nat, control: nat, data: nat)
  {
    && control != data
    && (forall j :: k <= j < k + 5 ==> Avoids(x.schedule.traffic(j), control))
    && Avoids(x.schedule.traffic(k + 4), data)
    && LeavesAlone(x.schedule.traffic(k + 4), ConnectionId(x.schedule.env(k + 3).draw))
  }

  predicate CanDial(x: Setup, k: nat, control: nat, data: nat, target: SocketAddr)
    requires target.Valid()
  {
    && target.V4? && x.schedule.env(k + 3).accepts
    && BuffersSuffice(x, k, control, target) && InTime(x, k) && Undisturbed(x, k, control, data)
  }

  // --- proof ----------------------------------------------------------------

  /** No STUN request is taken for HTTP or for a bridge header. */
  lemma RequestsAreTurn(c: Crypto, m: Outgoing, key: Option<bytes>)
    requires c.Valid()
    ensures Demux(Cut(Wire(c, m, key), 7)) == Turn
  {
    hide Body, BodyLen, AttrBytes, BeU32, Padding, DecodeType, EncodeType, BeU16;
    TypeRoundTrip(m.op, m.cls);
    var b := Cut(Wire(c, m, key), 7);
    FirstByte(EncodeType(m.op, m.cls));
    assert Wire(c, m, key)[0] == BeU16(EncodeType(m.op, m.cls))[0];
    assert b[0] < 64;
    FirstLetters();
    assert |b| >= 4 ==> b[..4][0] == b[0];
    assert |b| >= 7 ==> b[..7][0] == b[0];
  }

  lemma FirstByte(n: nat)
    requires n < 0x4000
    ensures BeU16(n)[0] < 64
  {
    hide Quot, Rem;
    QuotIsDivision(n, 256);
    QuotIsDivision(n / 256, 256);
  }

  lemma FirstLetters()
    ensures |Utf8.Encode("GET ")| > 0 && Utf8.Encode("GET ")[0] == 71
    ensures |Utf8.Encode("POST")| > 0 && Utf8.Encode("POST")[0] == 80
    ensures |Utf8.Encode("BRIDGE ")| > 0 && Utf8.Encode("BRIDGE ")[0] == 66
  {
    assert Utf8.EncodeChar('G') == [71] && Utf8.EncodeChar('P') == [80] && Utf8.EncodeChar('B') == [66];
  }

  lemma OpensSession(x: Setup, s: State, conn: nat, m: Outgoing, key: Option<bytes>)
    requires x.Valid()
    ensures var s' := Connected(x, s, conn, Wire(x.c, m, key));
            s' == s.(steps := s.steps + 1, server := s.server.(
                       conns := s.server.conns[conn := Session(x.schedule.nonce(conn), None, map[])]))
  {
    hide Wire, Cut;
    RequestsAreTurn(x.c, m, key);
  }

  lemma AnyTidFits(cfg: Config, s: Session, t: Tid, u: Tid)
    requires ReplyFits(ChallengeReply(cfg, s, Incoming(Allocate, Request, t, [])))
    ensures ReplyFits(ChallengeReply(cfg, s, Incoming(Allocate, Request, u, [])))
  {
    hide Utf8.Encode, Body;
  }

  /** After the challenge the client knows the server's realm and nonce. */
  lemma ChallengePasses(x: Setup, s: State, control: nat, nonce: string)
    requires x.Valid() && control in s.server.conns && s.server.conns[control] == Session(nonce, None, map[])
    requires Avoids(x.schedule.traffic(s.sent), control)
    requires var msg := Incoming(Allocate, Request, x.schedule.tid(s.sent), []);
             ReplyFits(ChallengeReply(x.cfg, Session(nonce, None, map[]), msg))
    ensures var (s', r) := Challenge(x, s, control);
            && r == Ok(())
            && control in s'.server.conns && s'.server.conns[control] == Session(nonce, None, map[])
            && s'.realm == x.cfg.realm && s'.nonce == nonce && s'.sent == s.sent + 1
            && s'.steps == s.steps + |x.schedule.traffic(s.sent)| + 1
  {
    hide Step, Exchange, ErrorCodeOf, StringAttr, AllocateRequest, ReplyFits;
    var others, env := x.schedule.traffic(s.sent), x.schedule.env(s.sent);
    var sv := Serve(x.c, x.cfg, s.server, others, s.steps);
    TrafficElsewhere(x.c, x.cfg, s.server, others, s.steps, control, 0);
    ChallengeAnswered(x.c, x.cfg, sv, control, x.schedule.tid(s.sent), x.lifetimeSeconds, env, s.steps + |others|);
    assert Prune(sv.conns[control], env.prunedAt) == sv.conns[control];
  }

  /** The Allocate after it is granted if and only if the client's code is the
      server's; otherwise the dial step reports 401. */
  lemma AllocatePasses(x: Setup, s: State, control: nat, nonce: string)
    requires x.Valid() && control in s.server.conns && s.server.conns[control] == Session(nonce, None, map[])
    requires Avoids(x.schedule.traffic(s.sent), control)
    requires var msg := Incoming(Allocate, Request, x.schedule.tid(s.sent), []);
             ReplyFits(ChallengeReply(x.cfg, Session(nonce, None, map[]), msg))
    requires Fits(x.c, Sign(CredOf(x, s), AllocateRequest(x.schedule.tid(s.sent), x.lifetimeSeconds)),
                  Some(Key(x.c, CredOf(x, s))))
    ensures var (s', r) := Must(x, s, control, AskAllocate, "allocate");
            var env := x.schedule.env(s.sent);
            if SameCode(x, CredOf(x, s), AllocateRequest(x.schedule.tid(s.sent), x.lifetimeSeconds))
            then && r.Ok? && CredOf(x, s') == CredOf(x, s) && s'.sent == s.sent + 1
                 && s'.steps == s.steps + |x.schedule.traffic(s.sent)| + 1
                 && control in s'.server.conns && RelayedPort(env.draw) in s'.server.conns[control].allocations
                 && s'.server.conns[control].allocations[RelayedPort(env.draw)].deadline
                    == env.now + AllocateLifetime(x.cfg, x.lifetimeSeconds)
            else r == Err(Rejected(401, ""))
  {
    hide Step, Exchange, ErrorCodeOf, AllocateRequest, ReplyFits, Sign, Key, SignedPart, ServerKey, Fits, RelayedPort;
    var others, env := x.schedule.traffic(s.sent), x.schedule.env(s.sent);
    var sv := Serve(x.c, x.cfg, s.server, others, s.steps);
    TrafficElsewhere(x.c, x.cfg, s.server, others, s.steps, control, 0);
    AllocateAnswered(x.c, x.cfg, sv, control, CredOf(x, s), x.schedule.tid(s.sent), x.lifetimeSeconds, env,
      s.steps + |others|);
  }

  /** The integrity code under the client's key is the code under the key the
      server derives. */
  predicate SameCode(x: Setup, cred: Cred, m: Outgoing)
  {
    var part := SignedPart(Sign(cred, m));
    x.c.hmac(ServerKey(x.c, x.cfg.realm, x.cfg.secret, cred.username), part) == x.c.hmac(Key(x.c, cred), part)
  }

  lemma PermissionPasses(x: Setup, s: State, control: nat, target: SocketAddr, port: nat)
    requires x.Valid() && target.Valid() && target.V4?
    requires s.realm == x.cfg.realm && HonestPassword(x.c, x.cfg, CredOf(x, s))
    requires Avoids(x.schedule.traffic(s.sent), control)
    requires Fits(x.c, Sign(CredOf(x, s), PeerRequest(CreatePermission, x.schedule.tid(s.sent), target)),
                  Some(Key(x.c, CredOf(x, s))))
    requires control in s.server.conns && port in s.server.conns[control].allocations
    requires s.server.conns[control].allocations[port].deadline > x.schedule.env(s.sent).prunedAt
    ensures var (s', r) := Must(x, s, control, AskPeer(CreatePermission, target), "create-permission");
            && r.Ok? && CredOf(x, s') == CredOf(x, s) && s'.sent == s.sent + 1
            && s'.steps == s.steps + |x.schedule.traffic(s.sent)| + 1
            && control in s'.server.conns && port in s'.server.conns[control].allocations
            && target.ip in s'.server.conns[control].allocations[port].permissions
            && s'.server.conns[control].allocations[port].deadline == x.schedule.env(s.sent).now + x.cfg.lifetime
  {
    hide Step, Exchange, ErrorCodeOf, PeerRequest, Sign, Key, Fits, HonestPassword;
    var others, env := x.schedule.traffic(s.sent), x.schedule.env(s.sent);
    var sv := Serve(x.c, x.cfg, s.server, others, s.steps);
    TrafficElsewhere(x.c, x.cfg, s.server, others, s.steps, control, 0);
    PermissionAnswered(x.c, x.cfg, sv, control, CredOf(x, s), x.schedule.tid(s.sent), target, port, env,
      s.steps + |others|);
  }

  lemma ConnectPasses(x: Setup, s: State, control: nat, target: SocketAddr, port: nat)
    requires x.Valid() && target.Valid() && target.V4? && x.schedule.env(s.sent).accepts
    requires Avoids(x.schedule.traffic(s.sent), control)
    requires Fits(x.c, Sign(CredOf(x, s), PeerRequest(Connect, x.schedule.tid(s.sent), target)),
                  Some(Key(x.c, CredOf(x, s))))
    requires control in s.server.conns && port in s.server.conns[control].allocations
    requires s.server.conns[control].allocations[port].deadline > x.schedule.env(s.sent).prunedAt
    requires target.ip in s.server.conns[control].allocations[port].permissions
    ensures var (s', r) := Must(x, s, control, AskPeer(Connect, target), "connect");
            var id := ConnectionId(x.schedule.env(s.sent).draw);
            && r.Ok? && U32Attr(r.value.attrs, CONNECTION_ID) == Some(id)
            && CredOf(x, s') == CredOf(x, s) && s'.sent == s.sent + 1
            && s'.steps == s.steps + |x.schedule.traffic(s.sent)| + 1
            && id in s'.server.pending && s'.server.pending[id] == s'.steps - 1
  {
    hide Step, Exchange, ErrorCodeOf, PeerRequest, Sign, Key, Fits, U32Attr, ConnectionId;
    var others, env := x.schedule.traffic(s.sent), x.schedule.env(s.sent);
    var sv := Serve(x.c, x.cfg, s.server, others, s.steps);
    TrafficElsewhere(x.c, x.cfg, s.server, others, s.steps, control, 0);
    ConnectAnswered(x.c, x.cfg, sv, control, CredOf(x, s), x.schedule.tid(s.sent), target, port, env,
      s.steps + |others|);
  }

  lemma BindPasses(x: Setup, s: State, data: nat, id: nat)
    requires x.Valid() && id < 0x1_0000_0000
    requires Avoids(x.schedule.traffic(s.sent), data) && LeavesAlone(x.schedule.traffic(s.sent), id)
    requires Fits(x.c, Sign(CredOf(x, s), BindRequest(x.schedule.tid(s.sent), id)), Some(Key(x.c, CredOf(x, s))))
    requires data in s.server.conns && id in s.server.pending
    ensures var (s', r) := Must(x, s, data, AskBind(id), "connection-bind");
            && r.Ok? && s'.server.bound != []
            && s'.server.bound[|s'.server.bound| - 1] == s.server.pending[id]
            && id !in s'.server.pending
  {
    hide Step, Exchange, ErrorCodeOf, BindRequest, Sign, Key, Fits, LeavesAlone;
    var others, env := x.schedule.traffic(s.sent), x.schedule.env(s.sent);
    var sv := Serve(x.c, x.cfg, s.server, others, s.steps);
    TrafficElsewhere(x.c, x.cfg, s.server, others, s.steps, data, id);
    BindAnswered(x.c, x.cfg, sv, data, CredOf(x, s), x.schedule.tid(s.sent), id, env, s.steps + |others|);
  }

  lemma HonestSameCode(x: Setup, cred: Cred, m: Outgoing)
    requires HonestPassword(x.c, x.cfg, cred) && cred.realm == x.cfg.realm
    ensures SameCode(x, cred, m)
  {
  }

  lemma IdIsU32(draw: nat)
    ensures ConnectionId(draw) < 0x1_0000_0000
  {
  }

  // --- when the buffers suffice ---------------------------------------------

  function NamesLength(cred: Cred): nat
  {
    |Utf8.Encode(cred.username)| + |Utf8.Encode(cred.realm)| + |Utf8.Encode(cred.nonce)|
  }

  lemma SignedLength(cred: Cred, m: Outgoing)
    ensures BodyLen(Sign(cred, m).attrs) <= BodyLen(m.attrs) + 21 + NamesLength(cred)
  {
    hide BodyLen, Utf8.Encode, Padding;
    var u, r, n := Utf8.Encode(cred.username), Utf8.Encode(cred.realm), Utf8.Encode(cred.nonce);
    WithLength(m, USERNAME, u);
    WithLength(m.With(USERNAME, u), REALM, r);
    WithLength(m.With(USERNAME, u).With(REALM, r), NONCE, n);
    PaddingAligns(|u|);
    PaddingAligns(|r|);
    PaddingAligns(|n|);
  }

  lemma RequestLength(x: Setup, ask: Ask, tid: Tid)
    requires ask.Valid()
    ensures BodyLen(Build(x, ask, tid).attrs) <= 24
  {
    hide BodyLen, XorAddressBytes, BeU32, Padding;
    var blank := Outgoing(Allocate, Request, tid, []);
    assert BodyLen([]) == 0 by { EmptyLength(); }
    PaddingAligns(4);
    match ask {
      case AskAllocate =>
        WithLength(blank, REQUESTED_TRANSPORT, [6, 0, 0, 0]);
        WithLength(blank.With(REQUESTED_TRANSPORT, [6, 0, 0, 0]), LIFETIME, BeU32(x.lifetimeSeconds));
        FourAligned();
      case AskPeer(op, target) =>
        WithLength(Outgoing(op, Request, tid, []), XOR_PEER_ADDRESS, XorAddressBytes(target, tid));
        AddressLength(target, tid);
      case AskBind(id) =>
        WithLength(Outgoing(ConnectionBind, Request, tid, []), CONNECTION_ID, BeU32(id));
        FourAligned();
    }
  }

  lemma EmptyLength()
    ensures BodyLen([]) == 0
  {
  }

  lemma FourAligned()
    ensures Padding(4) == 0 && Padding(8) == 0 && Padding(20) == 0
  {
  }

  lemma AddressLength(addr: SocketAddr, tid: Tid)
    requires addr.Valid()
    ensures |XorAddressBytes(addr, tid)| in {8, 20} && Padding(|XorAddressBytes(addr, tid)|) == 0
  {
    FourAligned();
  }

  lemma SignedFits(x: Setup, cred: Cred, ask: Ask, tid: Tid)
    requires x.c.Valid() && ask.Valid() && NamesLength(cred) <= 4000
    ensures Fits(x.c, Sign(cred, Build(x, ask, tid)), Some(Key(x.c, cred)))
  {
    hide BodyLen, Wire, Sign, Build, NamesLength, Key;
    SignedLength(cred, Build(x, ask, tid));
    RequestLength(x, ask, tid);
    WireLength(x.c, Sign(cred, Build(x, ask, tid)), Some(Key(x.c, cred)));
  }

  lemma ChallengeFits(cfg: Config, s: Session, msg: Incoming)
    requires |Utf8.Encode(cfg.realm)| + |Utf8.Encode(s.nonce)| <= 4000
    ensures ReplyFits(ChallengeReply(cfg, s, msg))
  {
    hide EncodePlain, Utf8.Encode, Padding;
    var r, n := Utf8.Encode(cfg.realm), Utf8.Encode(s.nonce);
    var a, b, c := AttrPair(ERROR_CODE, [0, 0, 4, 1]), AttrPair(REALM, r), AttrPair(NONCE, n);
    assert [a, b, c][1..] == [b, c] && [b, c][1..] == [c] && [c][1..] == [];
    PaddingAligns(4);
    PaddingAligns(|r|);
    PaddingAligns(|n|);
    assert BodyLen([c]) == 4 + |n| + Padding(|n|);
    assert BodyLen([b, c]) == 4 + |r| + Padding(|r|) + BodyLen([c]);
    assert BodyLen([a, b, c]) == 8 + Padding(4) + BodyLen([b, c]);
    ShortReplyFits(ChallengeReply(cfg, s, msg));
  }

  /** User name, realm and nonce of at most 4000 bytes together are short enough
      for every message of a dial. */
  lemma ShortNamesSuffice(x: Setup, k: nat, control: nat, target: SocketAddr)
    requires x.c.Valid() && target.Valid()
    requires NamesLength(Cred(x.username, x.password, x.cfg.realm, x.schedule.nonce(control))) <= 4000
    ensures BuffersSuffice(x, k, control, target)
  {
    hide Fits, ReplyFits, ChallengeReply, Sign, Key, ConnectionId, Utf8.Encode;
    var cred := Cred(x.username, x.password, x.cfg.realm, x.schedule.nonce(control));
    ChallengeFits(x.cfg, Session(cred.nonce, None, map[]), Incoming(Allocate, Request, x.schedule.tid(k), []));
    SignedFits(x, cred, AskAllocate, x.schedule.tid(k + 1));
    SignedFits(x, cred, AskPeer(CreatePermission, target), x.schedule.tid(k + 2));
    SignedFits(x, cred, AskPeer(Connect, target), x.schedule.tid(k + 3));
    SignedFits(x, cred, AskBind(ConnectionId(x.schedule.env(k + 3).draw)), x.schedule.tid(k + 4));
  }

  // --- the dial -------------------------------------------------------------

  /** A client whose password is the REST password of its user name under the
      server's secret completes the whole dial, whatever other connections do in
      between; and the pipe it gets is the socket the server opened to the target
      for this very dial. */
  lemma DialCompletes(x: Setup, s0: State, target: SocketAddr, control: nat, data: nat)
    requires x.Valid() && target.Valid()
    requires x.password == RestPassword(x.c, x.cfg.secret, x.username)
    requires CanDial(x, s0.sent, control, data, target)
    ensures var (s, r) := Dial(x, s0, target, control, data);
            var k := s0.sent;
            && r == Ok(()) && s.server.bound != []
            && s.server.bound[|s.server.bound| - 1]
               == s0.steps + 4 + |x.schedule.traffic(k)| + |x.schedule.traffic(k + 1)|
                  + |x.schedule.traffic(k + 2)| + |x.schedule.traffic(k + 3)|
  {
    hide Step, Must, Challenge, ReplyFits, Fits, Sign, Key, LeavesAlone, Avoids, RestPassword, Connected, SameCode,
         AllocateRequest, PeerRequest, BindRequest, ConnectionId, RelayedPort, Wire, ChallengeReply, U32Attr;
    var k, nonce := s0.sent, x.schedule.nonce(control);
    var probe := AllocateRequest(x.schedule.tid(k), x.lifetimeSeconds);
    OpensSession(x, s0, control, probe, None);
    var online := Connected(x, s0, control, Wire(x.c, probe, None));
    ChallengePasses(x, online, control, nonce);
    var s1 := Challenge(x, online, control).0;
    AnyTidFits(x.cfg, Session(nonce, None, map[]), x.schedule.tid(k), x.schedule.tid(k + 1));
    AllocatePasses(x, s1, control, nonce);
    HonestSameCode(x, CredOf(x, s1), AllocateRequest(x.schedule.tid(k + 1), x.lifetimeSeconds));
    var s2 := Must(x, s1, control, AskAllocate, "allocate").0;
    var port := RelayedPort(x.schedule.env(k + 1).draw);
    PermissionPasses(x, s2, control, target, port);
    var s3 := Must(x, s2, control, AskPeer(CreatePermission, target), "create-permission").0;
    ConnectPasses(x, s3, control, target, port);
    var s4 := Must(x, s3, control, AskPeer(Connect, target), "connect").0;
    var id := ConnectionId(x.schedule.env(k + 3).draw);
    IdIsU32(x.schedule.env(k + 3).draw);
    var first := Sign(CredOf(x, s4), BindRequest(x.schedule.tid(k + 4), id));
    OpensSession(x, s4, data, first, Some(Key(x.c, CredOf(x, s4))));
    BindPasses(x, Connected(x, s4, data, Wire(x.c, first, Some(Key(x.c, CredOf(x, s4))))), data, id);
  }

  /** The challenge and the signed Allocate fit their buffers, and other clients
      use their own connections. */
  predicate CanAllocate(x: Setup, k: nat, control: nat)
  {
    var cred := Cred(x.username, x.password, x.cfg.realm, x.schedule.nonce(control));
    var session := Session(cred.nonce, None, map[]);
    && ReplyFits(ChallengeReply(x.cfg, session, Incoming(Allocate, Request, x.schedule.tid(k), [])))
    && Fits(x.c, Sign(cred, AllocateRequest(x.schedule.tid(k + 1), x.lifetimeSeconds)), Some(Key(x.c, cred)))
    && Avoids(x.schedule.traffic(k), control) && Avoids(x.schedule.traffic(k + 1), control)
  }

  /** And a client whose code for the signed Allocate is not the server's gets 401
      and no further, whatever the target. */
  lemma WrongCodeIsRejected(x: Setup, s0: State, target: SocketAddr, control: nat, data: nat)
    requires x.Valid() && target.Valid() && CanAllocate(x, s0.sent, control)
    requires !SameCode(x, Cred(x.username, x.password, x.cfg.realm, x.schedule.nonce(control)),
                       AllocateRequest(x.schedule.tid(s0.sent + 1), x.lifetimeSeconds))
    ensures Dial(x, s0, target, control, data).1 == Err(Rejected(401, ""))
  {
    hide Step, Must, Challenge, ReplyFits, Fits, Sign, Key, LeavesAlone, Avoids, Connected, SameCode,
         AllocateRequest, PeerRequest, BindRequest, ConnectionId, RelayedPort, Wire, ChallengeReply, U32Attr;
    var k, nonce := s0.sent, x.schedule.nonce(control);
    var probe := AllocateRequest(x.schedule.tid(k), x.lifetimeSeconds);
    OpensSession(x, s0, control, probe, None);
    var online := Connected(x, s0, control, Wire(x.c, probe, None));
    ChallengePasses(x, online, control, nonce);
    var s1 := Challenge(x, online, control).0;
    AnyTidFits(x.cfg, Session(nonce, None, map[]), x.schedule.tid(k), x.schedule.tid(k + 1));
    AllocatePasses(x, s1, control, nonce);
  }
}
