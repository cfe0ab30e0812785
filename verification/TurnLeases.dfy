/** How long allocations live: what one input does to a connection's allocations,
    and the deadline of every allocation over whole runs. */
module TurnLeases {
  import opened Bytes
  import opened Stun
  import opened Credentials
  import opened TurnServer
  import opened TurnRuns
  import opened TurnAuth
  import Utf8

  /** The input is a granted request of this kind. */
  ghost predicate Does(c: Crypto, cfg: Config, sv: Server, i: Input, socket: nat, op: Method)
  {
    Served(sv, i, op) && Granted(c, cfg, sv, i, socket)
  }

  /** The allocation at `port` when the input has been handled, given the one that
      was there before: only a granted request changes or opens one, and one whose
      deadline has come when the clock is looked at is gone. */
  ghost function Becomes(
    c: Crypto, cfg: Config, sv: Server, i: Input, socket: nat, port: nat,
    before: Option<Allocation>): Option<Allocation>
    requires i.Data?
  {
    if Does(c, cfg, sv, i, socket, Allocate) && port == 49152 + i.draw % 16384 then
      Some(Allocation([], [], i.now + LeaseOf(cfg, Decode(i.raw).value.attrs)))
    else if before.None? || before.value.deadline <= i.prunedAt then None
    else if Does(c, cfg, sv, i, socket, Refresh) then
      Some(before.value.(deadline := i.now + LeaseOf(cfg, Decode(i.raw).value.attrs)))
    else if Does(c, cfg, sv, i, socket, CreatePermission) && PeerOf(Decode(i.raw).value).Some? then
      var ip := PeerOf(Decode(i.raw).value).value.ip;
      var a := before.value;
      Some(a.(permissions := if ip in a.permissions then a.permissions else a.permissions + [ip],
              deadline := i.now + cfg.lifetime))
    else if Does(c, cfg, sv, i, socket, Connect) then
      Some(before.value.(connections := before.value.connections + [i.draw / 0x1_0000_0000 % 0x1_0000_0000],
                         deadline := i.now + cfg.lifetime))
    else before
  }

  function At(s: Session, port: nat): Option<Allocation>
  {
    if port in s.allocations then Some(s.allocations[port]) else None
  }

  lemma PrunedAt(s: Session, now: int, port: nat)
    ensures At(Prune(s, now), port)
         == if At(s, port).Some? && At(s, port).value.deadline > now then At(s, port) else None
    ensures Prune(s, now).username == s.username
  {
  }

  /** What every read on a connection does to each of its allocations; and the
      connection is dropped exactly on an empty or undecodable read or a
      ConnectionBind. */
  lemma AllocationStep(c: Crypto, cfg: Config, sv: Server, i: Input, socket: nat, port: nat)
    requires i.Data? && Wellformed(i) && i.conn in sv.conns
    ensures var after := Step(c, cfg, sv, i, socket).0.conns;
            && (i.conn !in after <==> i.raw == [] || Decode(i.raw).Err? || Served(sv, i, ConnectionBind))
            && (i.conn in after ==>
                  At(after[i.conn], port) == Becomes(c, cfg, sv, i, socket, port, At(sv.conns[i.conn], port)))
  {
    hide Decode, Prune, HandleOwn, HandleConnect, Becomes, At, Granted;
    EmptyDoesNotDecode(i.raw);
    if Decode(i.raw).Ok? && Decode(i.raw).value.cls == Request {
      var msg := Decode(i.raw).value;
      match msg.op {
        case ConnectionBind =>
        case Connect => ConnectBecomes(c, cfg, sv, i, socket, port);
        case Allocate => AllocateBecomes(c, cfg, sv, i, socket, port);
        case Refresh => RefreshBecomes(c, cfg, sv, i, socket, port);
        case CreatePermission => PermissionBecomes(c, cfg, sv, i, socket, port);
        case Binding => OnlyExpires(c, cfg, sv, i, socket, port);
      }
    } else if Decode(i.raw).Ok? {
      OnlyExpires(c, cfg, sv, i, socket, port);
    }
  }

  /** Requests that change no allocation: Binding, and what is not a request. */
  lemma OnlyExpires(c: Crypto, cfg: Config, sv: Server, i: Input, socket: nat, port: nat)
    requires i.Data? && Wellformed(i) && i.conn in sv.conns && i.raw != [] && Decode(i.raw).Ok?
    requires Decode(i.raw).value.cls == Request ==> Decode(i.raw).value.op == Binding
    ensures var after := Step(c, cfg, sv, i, socket).0.conns;
            && i.conn in after
            && At(after[i.conn], port) == Becomes(c, cfg, sv, i, socket, port, At(sv.conns[i.conn], port))
  {
    hide Decode, Prune, XorAddressBytes, At, Granted;
    PrunedAt(sv.conns[i.conn], i.prunedAt, port);
  }

  lemma AllocateBecomes(c: Crypto, cfg: Config, sv: Server, i: Input, socket: nat, port: nat)
    requires Served(sv, i, Allocate)
    ensures var after := Step(c, cfg, sv, i, socket).0.conns;
            && i.conn in after
            && At(after[i.conn], port) == Becomes(c, cfg, sv, i, socket, port, At(sv.conns[i.conn], port))
  {
    hide Decode, Prune, VerifyIntegrity, StringAttr, XorAddressBytes, BeU32, ErrorReply, ChallengeReply, AsksForTcp,
         RelayedPort, RequestedLifetime;
    var msg := Decode(i.raw).value;
    EmptyDoesNotDecode(i.raw);
    PrunedAt(sv.conns[i.conn], i.prunedAt, port);
    PortExactly(i.draw);
    LeaseExactly(cfg, msg);
    Classes(cfg, Prune(sv.conns[i.conn], i.prunedAt), msg);
  }

  lemma RefreshBecomes(c: Crypto, cfg: Config, sv: Server, i: Input, socket: nat, port: nat)
    requires Served(sv, i, Refresh)
    ensures var after := Step(c, cfg, sv, i, socket).0.conns;
            && i.conn in after
            && At(after[i.conn], port) == Becomes(c, cfg, sv, i, socket, port, At(sv.conns[i.conn], port))
  {
    hide Decode, Prune, VerifyIntegrity, BeU32, ErrorReply, RequestedLifetime;
    var msg := Decode(i.raw).value;
    EmptyDoesNotDecode(i.raw);
    PrunedAt(sv.conns[i.conn], i.prunedAt, port);
    LeaseExactly(cfg, msg);
    Classes(cfg, sv.conns[i.conn], msg);
  }

  lemma PermissionBecomes(c: Crypto, cfg: Config, sv: Server, i: Input, socket: nat, port: nat)
    requires Served(sv, i, CreatePermission)
    ensures var after := Step(c, cfg, sv, i, socket).0.conns;
            && i.conn in after
            && At(after[i.conn], port) == Becomes(c, cfg, sv, i, socket, port, At(sv.conns[i.conn], port))
  {
    hide Decode, Prune, VerifyIntegrity, ErrorReply, PeerOf;
    var msg := Decode(i.raw).value;
    EmptyDoesNotDecode(i.raw);
    PrunedAt(sv.conns[i.conn], i.prunedAt, port);
    Classes(cfg, sv.conns[i.conn], msg);
  }

  lemma ConnectBecomes(c: Crypto, cfg: Config, sv: Server, i: Input, socket: nat, port: nat)
    requires Served(sv, i, Connect)
    ensures var after := Step(c, cfg, sv, i, socket).0.conns;
            && i.conn in after
            && At(after[i.conn], port) == Becomes(c, cfg, sv, i, socket, port, At(sv.conns[i.conn], port))
  {
    hide Decode, Prune, BeU32, ErrorReply, PeerOf, ConnectionId, Permitted;
    var msg := Decode(i.raw).value;
    EmptyDoesNotDecode(i.raw);
    PrunedAt(sv.conns[i.conn], i.prunedAt, port);
    ConnectionIdExactly(i.draw);
    Classes(cfg, sv.conns[i.conn], msg);
  }

  // --- deadlines over whole runs --------------------------------------------

  /** How long the input leases the allocation at `port` for, if it does. */
  ghost function Lease(c: Crypto, cfg: Config, sv: Server, i: Input, socket: nat, port: nat): Option<nat>
  {
    if (Does(c, cfg, sv, i, socket, Allocate) && port == 49152 + i.draw % 16384) || Does(c, cfg, sv, i, socket, Refresh)
    then Some(LeaseOf(cfg, Decode(i.raw).value.attrs))
    else if Does(c, cfg, sv, i, socket, CreatePermission) || Does(c, cfg, sv, i, socket, Connect)
    then Some(cfg.lifetime)
    else None
  }

  lemma LeaseOfStep(c: Crypto, cfg: Config, sv: Server, i: Input, socket: nat, port: nat, before: Option<Allocation>)
    requires i.Data? && Becomes(c, cfg, sv, i, socket, port, before).Some?
    ensures var a := Becomes(c, cfg, sv, i, socket, port, before).value;
            match Lease(c, cfg, sv, i, socket, port)
            case Some(lease) => a.deadline == i.now + lease
            case None => before.Some? && a.deadline == before.value.deadline && i.prunedAt < a.deadline
  {
    hide Decode, Granted, LeaseOf, PeerOf;
    if Does(c, cfg, sv, i, socket, CreatePermission) {
      GrantedNamesPeer(c, cfg, sv, i, socket);
    }
  }

  lemma GrantedNamesPeer(c: Crypto, cfg: Config, sv: Server, i: Input, socket: nat)
    requires Does(c, cfg, sv, i, socket, CreatePermission)
    ensures PeerOf(Decode(i.raw).value).Some?
  {
    hide Step, Decode, PeerOf, NamesPeer, Signed, Refused;
    PermissionExactly(c, cfg, sv, i, socket);
    PeerExactly(Decode(i.raw).value);
  }

  /** What input `k` of the run leases the allocation for. */
  ghost function LeaseAt(c: Crypto, cfg: Config, inputs: seq<Input>, k: nat, port: nat): Option<nat>
    requires AllWellformed(inputs) && k < |inputs|
  {
    Lease(c, cfg, After(c, cfg, Before(inputs, k)), inputs[k], k, port)
  }

  function Before(inputs: seq<Input>, k: nat): (r: seq<Input>)
    requires AllWellformed(inputs) && k <= |inputs|
    ensures AllWellformed(r)
  {
    assert forall i :: i in inputs[..k] ==> i in inputs;
    inputs[..k]
  }

  /** Input `k` leased the allocation until its deadline, and after it every read on
      the connection came before that deadline and leased nothing new. */
  ghost predicate LeasedBy(
    c: Crypto, cfg: Config, inputs: seq<Input>, k: nat, conn: nat, port: nat, deadline: int)
    requires AllWellformed(inputs)
  {
    && k < |inputs| && inputs[k].Data? && inputs[k].conn == conn
    && LeaseAt(c, cfg, inputs, k, port).Some? && deadline == inputs[k].now + LeaseAt(c, cfg, inputs, k, port).value
    && forall l :: k < l < |inputs| && inputs[l].Data? && inputs[l].conn == conn ==>
         LeaseAt(c, cfg, inputs, l, port).None? && inputs[l].prunedAt < deadline
  }

  /** In every reachable state, every allocation's deadline is the time of the last
      granted Allocate, Refresh, CreatePermission or Connect that concerned it, plus
      what that request leases; and no look at the clock since has reached it. */
  lemma {:induction false} DeadlineIsLastLease(c: Crypto, cfg: Config, inputs: seq<Input>, conn: nat, port: nat)
    returns (k: nat)
    requires AllWellformed(inputs)
    requires var sv := After(c, cfg, inputs); conn in sv.conns && port in sv.conns[conn].allocations
    ensures LeasedBy(c, cfg, inputs, k, conn, port, After(c, cfg, inputs).conns[conn].allocations[port].deadline)
    decreases |inputs|
  {
    hide Step, Becomes, Lease, Decode;
    var n := |inputs| - 1;
    var prefix, last := Before(inputs, n), inputs[n];
    var sv, sv' := After(c, cfg, prefix), After(c, cfg, inputs);
    assert sv' == Step(c, cfg, sv, last, n).0;
    assert last in inputs;
    var a := sv'.conns[conn].allocations[port];
    HeldBefore(c, cfg, sv, last, n, conn, port);
    if last.Data? && last.conn == conn {
      AllocationStep(c, cfg, sv, last, n, port);
      LeaseOfStep(c, cfg, sv, last, n, port, At(sv.conns[conn], port));
    }
    if last.Data? && last.conn == conn && LeaseAt(c, cfg, inputs, n, port).Some? {
      k := n;
    } else {
      k := DeadlineIsLastLease(c, cfg, prefix, conn, port);
      SameLeases(c, cfg, inputs, port);
    }
  }

  /** Where there is an allocation now, the connection was open before; and without
      a read on it, the allocation was there. */
  lemma HeldBefore(c: Crypto, cfg: Config, sv: Server, i: Input, socket: nat, conn: nat, port: nat)
    requires Wellformed(i)
    requires var after := Step(c, cfg, sv, i, socket).0; conn in after.conns && port in after.conns[conn].allocations
    ensures conn in sv.conns
    ensures !(i.Data? && i.conn == conn) ==>
              && port in sv.conns[conn].allocations
              && Step(c, cfg, sv, i, socket).0.conns[conn].allocations[port] == sv.conns[conn].allocations[port]
  {
    hide Decode, HandleOwn, ConnectTarget, ParkAll, Prune, ConnectionId, Demux, U32Attr, ErrorReply, Success, BeU32;
  }

  lemma SameLeases(c: Crypto, cfg: Config, inputs: seq<Input>, port: nat)
    requires AllWellformed(inputs) && inputs != []
    ensures var prefix := Before(inputs, |inputs| - 1);
            forall l :: 0 <= l < |prefix| ==> LeaseAt(c, cfg, prefix, l, port) == LeaseAt(c, cfg, inputs, l, port)
  {
    hide After, Lease;
    var n := |inputs| - 1;
    var prefix := Before(inputs, n);
    forall l | 0 <= l < n ensures LeaseAt(c, cfg, prefix, l, port) == LeaseAt(c, cfg, inputs, l, port) {
      assert prefix[..l] == inputs[..l];
    }
  }

  // --- Connect over whole runs ----------------------------------------------

  /** What stands behind a Connect to `ip` on the connection that the run after
      `log` grants: an allocation made by a signed Allocate, on which a later signed
      CreatePermission permitted the address, and whose last lease had not run out
      when the clock was last looked at. */
  ghost predicate ConnectBacked(c: Crypto, cfg: Config, log: seq<Input>, conn: nat, ip: bytes, now: int)
    requires AllWellformed(log)
  {
    exists port: nat, made: nat, permitted: nat, leased: nat, deadline: int ::
      && made < permitted && SignedOn(c, cfg, log, made, conn, Allocate) && SignedFor(c, cfg, log, permitted, conn, ip)
      && LeasedBy(c, cfg, log, leased, conn, port, deadline) && now < deadline
  }

  lemma ConnectIsBacked(c: Crypto, cfg: Config, log: seq<Input>, i: Input)
    requires AllWellformed(log) && Does(c, cfg, After(c, cfg, log), i, |log|, Connect)
    ensures PeerOf(Decode(i.raw).value).Some?
    ensures ConnectBacked(c, cfg, log, i.conn, PeerOf(Decode(i.raw).value).value.ip, i.prunedAt)
  {
    hide Step, After, Decode, PeerOf, NamesPeer, SignedOn, SignedFor, LeasedBy, Refused;
    var sv := After(c, cfg, log);
    var conn := i.conn;
    ConnectExactly(c, cfg, sv, i, |log|);
    PeerExactly(Decode(i.raw).value);
    var ip := PeerOf(Decode(i.raw).value).value.ip;
    var s := sv.conns[conn];
    var port :| port in s.allocations && s.allocations[port].deadline > i.prunedAt
      && ip in s.allocations[port].permissions;
    var made := SignedAllocate(c, cfg, log, conn, port);
    var permitted :| made < permitted < |log| && SignedFor(c, cfg, log, permitted, conn, ip);
    var leased := DeadlineIsLastLease(c, cfg, log, conn, port);
  }
}
