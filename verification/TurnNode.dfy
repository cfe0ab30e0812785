/** The relay's two ends as running objects: the server process, whose handlers
    update the sessions and the parked sockets in place, and the dialler, which
    overwrites realm and nonce as it learns them. */
module TurnNode {
  import opened Bytes
  import opened Stun
  import opened Credentials
  import opened TurnServer
  import opened TurnClient
  import StunWire
  import opened TurnRuns
  import opened TurnAuth
  import opened TurnLeases
  import TurnDial

  /** `for a in allocations.values_mut()` */
  method UpdateAll(all: map<nat, Allocation>, f: Allocation -> Allocation) returns (r: map<nat, Allocation>)
    ensures r == map p | p in all :: f(all[p])
  {
    r := all;
    var left := all.Keys;
    while left != {}
      invariant left <= all.Keys && r.Keys == all.Keys
      invariant forall p :: p in all ==> r[p] == if p in left then all[p] else f(all[p])
      decreases |left|
    {
      var p :| p in left;
      r := r[p := f(r[p])];
      left := left - {p};
    }
  }

  lemma OwnEntryOverwritten(cfg: Config, sv: Server, s: Session, msg: Incoming, i: Input, socket: nat)
    requires i.Data?
    ensures HandleConnect(cfg, sv.(conns := sv.conns[i.conn := s]), s, msg, i, socket)
         == HandleConnect(cfg, sv, s, msg, i, socket)
  {
    hide ConnectTarget, ErrorReply, ConnectionId, BeU32, ParkAll;
    var t := ParkAll(s, ConnectionId(i.draw), i.now + cfg.lifetime);
    assert sv.conns[i.conn := s][i.conn := t] == sv.conns[i.conn := t];
    assert sv.conns[i.conn := s][i.conn := s] == sv.conns[i.conn := s];
  }

  class TurnProcess {
    const c: Crypto
    const cfg: Config
    var conns: map<nat, Session>
    var pending: map<nat, nat>
    var bound: seq<nat>
    /** Inputs handled so far; names the next peer socket. */
    var steps: nat
    /** And which ones they were. */
    ghost var log: seq<Input>

    constructor (c: Crypto, cfg: Config)
      ensures this.c == c && this.cfg == cfg && Valid() && log == []
    {
      this.c, this.cfg, conns, pending, bound, steps, log := c, cfg, map[], map[], [], 0, [];
    }

    /** The process is where a run of the machine over its log has taken it. */
    ghost predicate Valid()
      reads this
    {
      AllWellformed(log) && Value() == After(c, cfg, log) && steps == |log|
    }

    function Value(): Server
      reads this
    {
      Server(conns, pending, bound)
    }

    method Allocate(conn: nat, raw: bytes, msg: Incoming, draw: nat, now: int) returns (reply: Outgoing)
      requires conn in conns && Decode(raw) == Ok(msg)
      modifies this`conns
      ensures var (s, m) := HandleAllocate(c, cfg, old(conns[conn]), raw, msg, draw, now);
              reply == m && conns == old(conns)[conn := s]
    {
      hide Decode, VerifyIntegrity, Find, XorAddressBytes, ErrorReply, ChallengeReply, BeU32, RelayedPort, AsksForTcp,
           RequestedLifetime, StringAttr;
      var s := conns[conn];
      if !AsksForTcp(msg) {
        return ErrorReply(msg, 442, "TCP only");
      }
      if !VerifyIntegrity(c, raw, msg, cfg.realm, cfg.secret) {
        return ChallengeReply(cfg, s, msg);
      }
      var username := UserOf(raw, msg);
      if s.username == None {
        s := s.(username := Some(username));
      } else if s.username.value != username {
        return ErrorReply(msg, 441, "wrong credentials");
      }
      var port := RelayedPort(draw);
      var lifetime := RequestedLifetime(cfg, msg);
      s := s.(allocations := s.allocations[port := Allocation([], [], now + lifetime)]);
      conns := conns[conn := s];
      var m := new StunWire.Message(msg.op, SuccessResponse, msg.tid);
      m.Push(XOR_RELAYED_ADDRESS, XorAddressBytes(V4(cfg.external, port), msg.tid));
      m.Push(LIFETIME, BeU32(Quot(lifetime, SECOND)));
      reply := m.Value();
    }

    function UserOf(raw: bytes, msg: Incoming): string
      requires Decode(raw) == Ok(msg) && VerifyIntegrity(c, raw, msg, cfg.realm, cfg.secret)
    {
      StringAttr(msg.attrs, USERNAME).value
    }

    method Refresh(conn: nat, raw: bytes, msg: Incoming, now: int) returns (reply: Outgoing)
      requires conn in conns && Decode(raw) == Ok(msg)
      modifies this`conns
      ensures var (s, m) := HandleRefresh(c, cfg, old(conns[conn]), raw, msg, now);
              reply == m && conns == old(conns)[conn := s]
    {
      hide Decode, VerifyIntegrity, ErrorReply, BeU32, RequestedLifetime;
      assert conns == conns[conn := conns[conn]];
      if !VerifyIntegrity(c, raw, msg, cfg.realm, cfg.secret) {
        return ErrorReply(msg, 401, "unauthorized");
      }
      var lifetime := RequestedLifetime(cfg, msg);
      var all := UpdateAll(conns[conn].allocations, (a: Allocation) => a.(deadline := now + lifetime));
      assert all == RefreshAll(conns[conn], now + lifetime).allocations;
      conns := conns[conn := conns[conn].(allocations := all)];
      reply := Success(msg).With(LIFETIME, BeU32(Quot(lifetime, SECOND)));
    }

    method Permission(conn: nat, raw: bytes, msg: Incoming, now: int) returns (reply: Outgoing)
      requires conn in conns && Decode(raw) == Ok(msg)
      modifies this`conns
      ensures var (s, m) := HandlePermission(c, cfg, old(conns[conn]), raw, msg, now);
              reply == m && conns == old(conns)[conn := s]
    {
      hide Decode, VerifyIntegrity, PeerOf, ErrorReply, Permit;
      assert conns == conns[conn := conns[conn]];
      if !VerifyIntegrity(c, raw, msg, cfg.realm, cfg.secret) {
        return ErrorReply(msg, 401, "unauthorized");
      }
      var peer := PeerOf(msg);
      if peer == None {
        return ErrorReply(msg, 400, "missing xor-peer-address");
      }
      var ip, deadline := peer.value.ip, now + cfg.lifetime;
      var all := UpdateAll(conns[conn].allocations, a => Permit(a, ip, deadline));
      assert all == PermitAll(conns[conn], ip, deadline).allocations;
      conns := conns[conn := conns[conn].(allocations := all)];
      reply := Success(msg);
    }

    method Connect(s: Session, msg: Incoming, i: Input) returns (reply: Outgoing)
      requires i.Data? && i.conn in conns && conns[i.conn] == s
      modifies this`conns, this`pending
      ensures (Value(), reply) == HandleConnect(cfg, old(Value()), s, msg, i, steps)
    {
      hide ConnectTarget, ErrorReply, ConnectionId, BeU32, Park;
      assert conns == conns[i.conn := s];
      var target := ConnectTarget(s, msg);
      if target.Err? {
        return target.error;
      }
      if !i.accepts {
        return ErrorReply(msg, 447, "connection failed");
      }
      var id, deadline := ConnectionId(i.draw), i.now + cfg.lifetime;
      pending := pending[id := steps];
      var all := UpdateAll(s.allocations, a => Park(a, id, deadline));
      assert all == ParkAll(s, id, deadline).allocations;
      conns := conns[i.conn := s.(allocations := all)];
      reply := Success(msg).With(CONNECTION_ID, BeU32(id));
    }

    method ConnectionBind(msg: Incoming, conn: nat) returns (reply: Outgoing)
      modifies this`conns, this`pending, this`bound
      ensures (Value(), reply) == HandleBind(old(Value()), msg, conn)
    {
      hide U32Attr, ErrorReply;
      conns := conns - {conn};
      var id := U32Attr(msg.attrs, CONNECTION_ID);
      if id == None {
        return ErrorReply(msg, 400, "missing connection id");
      }
      if id.value !in pending {
        return ErrorReply(msg, 437, "allocation mismatch");
      }
      bound := bound + [pending[id.value]];
      pending := pending - {id.value};
      reply := Success(msg);
    }

    /** Every allocation the process holds was made by a signed Allocate in its log,
        every permission in it by a later signed CreatePermission, and its deadline
        by the last lease; no peer socket was handed out twice; and none was lost
        unless an id was drawn while in use. */
    ghost predicate Accounted()
      requires Valid()
      reads this
    {
      && (forall conn, port :: conn in conns && port in conns[conn].allocations ==>
            && (exists k :: SignedOn(c, cfg, log, k, conn, Method.Allocate)
                            && SignedPermissions(c, cfg, log, k, conn, conns[conn].allocations[port]))
            && (exists k :: LeasedBy(c, cfg, log, k, conn, port, conns[conn].allocations[port].deadline)))
      && SocketsOnce(Value())
      && (Held(Value()) == ParkedSockets(c, cfg, log) <==> FreshIds(c, cfg, log))
    }

    /** One turn of a connection's loop, or a new connection. What the process
        holds is accounted for by its log, and a Connect succeeds only with a signed
        Allocate, a signed CreatePermission and a lease that has not run out behind
        it. */
    method Receive(i: Input) returns (reply: Option<Outgoing>)
      requires Valid() && Wellformed(i)
      modifies this
      ensures Valid() && log == old(log) + [i] && Accounted()
      ensures (Value(), reply) == Step(c, cfg, old(Value()), i, old(steps)) && steps == old(steps) + 1
      ensures Does(c, cfg, old(Value()), i, old(steps), Method.Connect) ==>
                && PeerOf(Decode(i.raw).value).Some?
                && ConnectBacked(c, cfg, old(log), i.conn, PeerOf(Decode(i.raw).value).value.ip, i.prunedAt)
    {
      hide Step, Decode, PeerOf, ParkedSockets, FreshIds, Held, SocketsOnce, SignedOn, SignedPermissions, LeasedBy,
           ConnectBacked, Does;
      reply := Handle(i);
      log := log + [i];
      assert log[..|log| - 1] == old(log);
      assert Valid();
      forall conn, port | conn in conns && port in conns[conn].allocations
        ensures exists k :: SignedOn(c, cfg, log, k, conn, Method.Allocate)
                            && SignedPermissions(c, cfg, log, k, conn, conns[conn].allocations[port])
        ensures exists k :: LeasedBy(c, cfg, log, k, conn, port, conns[conn].allocations[port].deadline)
      {
        var k := SignedAllocate(c, cfg, log, conn, port);
        var l := DeadlineIsLastLease(c, cfg, log, conn, port);
      }
      SocketConservation(c, cfg, log);
      if Does(c, cfg, old(Value()), i, old(steps), Method.Connect) {
        ConnectIsBacked(c, cfg, old(log), i);
      }
    }

    method Handle(i: Input) returns (reply: Option<Outgoing>)
      requires Wellformed(i)
      modifies this`conns, this`pending, this`bound, this`steps
      ensures (Value(), reply) == Step(c, cfg, old(Value()), i, old(steps)) && steps == old(steps) + 1
    {
      hide Decode, Prune, Demux, HandleAllocate, HandleRefresh, HandlePermission, HandleConnect, HandleBind,
           XorAddressBytes;
      reply := None;
      if i.Open? {
        if Demux(i.peeked) == Turn {
          conns := conns[i.conn := Session(i.nonce, None, map[])];
        }
      } else if i.conn in conns {
        var s := Prune(conns[i.conn], i.prunedAt);
        var d := StunWire.DecodeMessage(i.raw);
        if i.raw == [] || d.Err? {
          conns := conns - {i.conn};
        } else if d.value.cls == Request && d.value.op == Method.ConnectionBind {
          var m := ConnectionBind(d.value, i.conn);
          reply := Some(m);
        } else {
          ghost var before := Value();
          conns := conns[i.conn := s];
          if d.value.cls == Request {
            var m := Respond(before, s, d.value, i);
            reply := Some(m);
          }
        }
      }
      steps := steps + 1;
    }

    method Respond(ghost before: Server, s: Session, msg: Incoming, i: Input) returns (m: Outgoing)
      requires i.Data? && Wellformed(i) && Decode(i.raw) == Ok(msg) && msg.op != Method.ConnectionBind
      requires Value() == before.(conns := before.conns[i.conn := s])
      modifies this`conns, this`pending
      ensures if msg.op == Method.Connect then (Value(), m) == HandleConnect(cfg, before, s, msg, i, steps)
              else var (s', reply) := HandleOwn(c, cfg, s, msg, i);
                   m == reply && Value() == before.(conns := before.conns[i.conn := s'])
    {
      hide Decode, HandleAllocate, HandleRefresh, HandlePermission, XorAddressBytes, HandleConnect, ErrorReply;
      OwnEntryOverwritten(cfg, before, s, msg, i, steps);
      match msg.op {
        case Binding =>
          m := Success(msg).With(XOR_MAPPED_ADDRESS, XorAddressBytes(i.peer, msg.tid))
          .With(XOR_PEER_ADDRESS, XorAddressBytes(i.peer, msg.tid));
        case Allocate => m := Allocate(i.conn, i.raw, msg, i.draw, i.now);
        case Refresh => m := Refresh(i.conn, i.raw, msg, i.now);
        case CreatePermission => m := Permission(i.conn, i.raw, msg, i.now);
        case Connect => m := Connect(s, msg, i);
      }
    }
  }

  class Dialer {
    const x: TurnDial.Setup
    const net: TurnProcess
    var realm: string
    var nonce: string
    var sent: nat

    constructor (x: TurnDial.Setup, net: TurnProcess, realm: string)
      ensures this.x == x && this.net == net
      ensures State() == TurnDial.State(net.Value(), net.steps, realm, "", 0)
    {
      this.x, this.net, this.realm, this.nonce, this.sent := x, net, realm, "", 0;
    }

    ghost predicate Valid()
      reads net
    {
      x.Valid() && net.c == x.c && net.cfg == x.cfg && net.Valid()
    }

    ghost function State(): TurnDial.State
      reads this, net
    {
      TurnDial.State(net.Value(), net.steps, realm, nonce, sent)
    }

    method Transact(conn: nat, m: Outgoing, key: Option<bytes>) returns (r: Result<Incoming, RelayError>)
      requires Valid()
      modifies this`sent, net
      ensures Valid() && (State(), r) == TurnDial.Transact(x, old(State()), conn, m, key)
    {
      hide Step, Decode, EncodePlain, Wire, After, TurnProcess.Accounted, Does, ConnectBacked;
      var others := x.schedule.traffic(sent);
      for k := 0 to |others|
        invariant Valid() && net.steps == old(net.steps) + k && sent == old(sent)
        invariant Serve(x.c, x.cfg, net.Value(), others[k..], net.steps)
               == Serve(x.c, x.cfg, old(net.Value()), others, old(net.steps))
      {
        var _ := net.Receive(others[k]);
        assert others[k..][1..] == others[k + 1..];
      }
      var reply := net.Receive(Received(conn, Wire(x.c, m, key), x.schedule.env(sent)));
      r := Understand(reply, m.tid);
      sent := sent + 1;
    }

    method Challenge(conn: nat) returns (r: Result<(), RelayError>)
      requires Valid()
      modifies this, net
      ensures Valid() && (State(), r) == TurnDial.Challenge(x, old(State()), conn)
    {
      hide TurnDial.Transact, AllocateRequest, ErrorCodeOf, StringAttr;
      var resp := Transact(conn, AllocateRequest(x.schedule.tid(sent), x.lifetimeSeconds), None);
      if resp.Err? {
        return Err(resp.error);
      }
      r := TurnDial.ExpectChallenge(resp.value);
      if r.Err? {
        return;
      }
      var newRealm := StringAttr(resp.value.attrs, REALM);
      if newRealm == None {
        return Err(Protocol("401 without REALM"));
      }
      realm := newRealm.value;
      var newNonce := StringAttr(resp.value.attrs, NONCE);
      if newNonce == None {
        return Err(Protocol("401 without NONCE"));
      }
      nonce := newNonce.value;
    }

    method SignedTransact(conn: nat, ask: TurnDial.Ask) returns (r: Result<Incoming, RelayError>)
      requires Valid() && ask.Valid()
      modifies this, net
      ensures Valid() && (State(), r) == TurnDial.SignedTransact(x, old(State()), conn, ask)
    {
      hide TurnDial.Transact, Sign, Key, TurnDial.Build;
      var cred := Cred(x.username, x.password, realm, nonce);
      r := Transact(conn, Sign(cred, TurnDial.Build(x, ask, x.schedule.tid(sent))), Some(Key(x.c, cred)));
    }

    method AuthTransact(conn: nat, ask: TurnDial.Ask) returns (r: Result<Incoming, RelayError>)
      requires Valid() && ask.Valid()
      modifies this, net
      ensures Valid() && (State(), r) == TurnDial.AuthTransact(x, old(State()), conn, ask)
    {
      hide TurnDial.SignedTransact, TurnDial.Challenge, ErrorCodeOf;
      r := SignedTransact(conn, ask);
      if r.Ok? && r.value.cls == ErrorResponse {
        var code := ErrorCodeOf(r.value.attrs);
        if code == None {
          return Err(Protocol("error response without ERROR-CODE"));
        }
        if code.value.0 == 438 {
          var again := Challenge(conn);
          if again.Err? {
            return Err(again.error);
          }
          r := SignedTransact(conn, ask);
        }
      }
    }

    method Must(conn: nat, ask: TurnDial.Ask, step: string) returns (r: Result<Incoming, RelayError>)
      requires Valid() && ask.Valid()
      modifies this, net
      ensures Valid() && (State(), r) == TurnDial.Must(x, old(State()), conn, ask, step)
    {
      hide TurnDial.AuthTransact, TurnDial.ExpectSuccess;
      r := AuthTransact(conn, ask);
      if r.Ok? {
        var ok := TurnDial.ExpectSuccess(r.value, step);
        if ok.Err? {
          r := Err(ok.error);
        }
      }
    }

    method Connected(conn: nat, first: bytes)
      requires Valid()
      modifies net
      ensures Valid() && State() == TurnDial.Connected(x, old(State()), conn, first)
    {
      hide Step, Cut;
      var _ := net.Receive(Open(conn, x.schedule.nonce(conn), Cut(first, 7)));
    }

    /** The dial itself. An honest client gets through when the circumstances
        allow, and the socket it is given is the one the relay opened for it. */
    method Dial(target: SocketAddr, control: nat, data: nat) returns (r: Result<(), RelayError>)
      requires Valid() && target.Valid()
      modifies this, net
      ensures Valid() && (State(), r) == TurnDial.Dial(x, old(State()), target, control, data)
      ensures x.password == RestPassword(x.c, x.cfg.secret, x.username)
              && TurnDial.CanDial(x, old(sent), control, data, target) ==>
                r == Ok(()) && net.bound != [] && net.bound[|net.bound| - 1] == Opened(old(net.steps), old(sent))
    {
      hide TurnDial.Dial, TurnDial.CanDial, RestPassword, After, AllWellformed;
      ghost var before := State();
      r := DialSteps(target, control, data);
      if x.password == RestPassword(x.c, x.cfg.secret, x.username)
         && TurnDial.CanDial(x, before.sent, control, data, target) {
        TurnDial.DialCompletes(x, before, target, control, data);
      }
    }

    /** The position of the dial's Connect among the relay's inputs. */
    ghost function Opened(steps: nat, sent: nat): nat
    {
      var t := x.schedule.traffic;
      steps + 4 + |t(sent)| + |t(sent + 1)| + |t(sent + 2)| + |t(sent + 3)|
    }

    method DialSteps(target: SocketAddr, control: nat, data: nat) returns (r: Result<(), RelayError>)
      requires Valid() && target.Valid()
      modifies this, net
      ensures Valid() && (State(), r) == TurnDial.Dial(x, old(State()), target, control, data)
    {
      hide TurnDial.Must, TurnDial.Challenge, TurnDial.Connected, Wire, AllocateRequest, BindRequest, Sign, Key,
           U32Attr;
      Connected(control, Wire(x.c, AllocateRequest(x.schedule.tid(sent), x.lifetimeSeconds), None));
      r := Challenge(control);
      if r.Err? {
        return;
      }
      var step := Must(control, TurnDial.AskAllocate, "allocate");
      if step.Err? {
        return Err(step.error);
      }
      step := Must(control, TurnDial.AskPeer(CreatePermission, target), "create-permission");
      if step.Err? {
        return Err(step.error);
      }
      step := Must(control, TurnDial.AskPeer(Method.Connect, target), "connect");
      if step.Err? {
        return Err(step.error);
      }
      var id := U32Attr(step.value.attrs, CONNECTION_ID);
      if id == None {
        return Err(Protocol("connect success without CONNECTION-ID"));
      }
      var cred := Cred(x.username, x.password, realm, nonce);
      Connected(data, Wire(x.c, Sign(cred, BindRequest(x.schedule.tid(sent), id.value)), Some(Key(x.c, cred))));
      step := Must(data, TurnDial.AskBind(id.value), "connection-bind");
      r := if step.Err? then Err(step.error) else Ok(());
    }
  }
}
