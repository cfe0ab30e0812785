/** What holds in every state the TURN server can reach. */
module TurnRuns {
  import opened Bytes
  import opened Stun
  import opened Credentials
  import opened TurnServer
  import Utf8

  /** A verified request of the given kind on a connection. */
  predicate VerifiedOn(c: Crypto, cfg: Config, i: Input, conn: nat, op: Method)
  {
    && i.Data? && i.conn == conn && Decode(i.raw).Ok?
    && Decode(i.raw).value.cls == Request && Decode(i.raw).value.op == op
    && VerifyIntegrity(c, i.raw, Decode(i.raw).value, cfg.realm, cfg.secret)
  }

  /** Input `k` of the run creates the allocation for `port`. */
  predicate Creates(c: Crypto, cfg: Config, inputs: seq<Input>, k: nat, conn: nat, port: nat)
    requires AllWellformed(inputs)
  {
    && k < |inputs| && VerifiedOn(c, cfg, inputs[k], conn, Allocate)
    && AsksForTcp(Decode(inputs[k].raw).value) && RelayedPort(inputs[k].draw) == port
    && AllWellformed(inputs[..k])
    && var before := After(c, cfg, inputs[..k]).conns;
       && conn in before
       && before[conn].username in {None, StringAttr(Decode(inputs[k].raw).value.attrs, USERNAME)}
  }

  /** A verified CreatePermission for an address. */
  predicate PermitsOn(c: Crypto, cfg: Config, i: Input, conn: nat, ip: bytes)
  {
    && VerifiedOn(c, cfg, i, conn, CreatePermission)
    && PeerOf(Decode(i.raw).value).Some? && PeerOf(Decode(i.raw).value).value.ip == ip
  }

  predicate PermittedBetween(c: Crypto, cfg: Config, inputs: seq<Input>, after: nat, conn: nat, ip: bytes)
  {
    exists j :: after < j < |inputs| && PermitsOn(c, cfg, inputs[j], conn, ip)
  }

  /** Input `k` created the allocation, nothing has replaced it since, and every
      address it permits was permitted by a later verified request. */
  ghost predicate Justified(c: Crypto, cfg: Config, inputs: seq<Input>, k: nat, conn: nat, port: nat, a: Allocation)
    requires AllWellformed(inputs)
  {
    && Creates(c, cfg, inputs, k, conn, port)
    && (forall l :: k < l < |inputs| ==> !Creates(c, cfg, inputs, l, conn, port))
    && (forall ip :: ip in a.permissions ==> PermittedBetween(c, cfg, inputs, k, conn, ip))
  }

  lemma VerifiedNamesUser(c: Crypto, cfg: Config, raw: bytes, msg: Incoming)
    requires Decode(raw) == Ok(msg) && VerifyIntegrity(c, raw, msg, cfg.realm, cfg.secret)
    ensures StringAttr(msg.attrs, USERNAME).Some?
  {
  }

  /** What one message on the connection can do to its allocations. */
  lemma OwnEffect(c: Crypto, cfg: Config, s: Session, msg: Incoming, i: Input, port: nat)
    requires i.Data? && Wellformed(i) && Decode(i.raw) == Ok(msg) && msg.cls == Request
    requires port in HandleOwn(c, cfg, s, msg, i).0.allocations
    ensures var a := HandleOwn(c, cfg, s, msg, i).0.allocations[port];
            if && VerifiedOn(c, cfg, i, i.conn, Allocate) && AsksForTcp(msg) && port == RelayedPort(i.draw)
               && s.username in {None, StringAttr(msg.attrs, USERNAME)}
            then a.permissions == []
            else && port in s.allocations
                 && forall ip :: ip in a.permissions ==>
                      ip in s.allocations[port].permissions || PermitsOn(c, cfg, i, i.conn, ip)
  {
    hide Decode, VerifyIntegrity, StringAttr, XorAddressBytes, ErrorReply, PeerOf, AsksForTcp, RelayedPort,
         HandleAllocate, HandleRefresh, HandlePermission;
    match msg.op {
      case Allocate => AllocateEffect(c, cfg, s, i.raw, msg, i.draw, i.now);
      case Refresh => RefreshEffect(c, cfg, s, i.raw, msg, i.now);
      case CreatePermission => PermissionEffect(c, cfg, s, i.raw, msg, i.now);
      case _ =>
    }
  }

  lemma AllocateEffect(c: Crypto, cfg: Config, s: Session, raw: bytes, msg: Incoming, draw: nat, now: int)
    requires Decode(raw) == Ok(msg)
    ensures var after := HandleAllocate(c, cfg, s, raw, msg, draw, now).0.allocations;
            if && VerifyIntegrity(c, raw, msg, cfg.realm, cfg.secret) && AsksForTcp(msg)
               && s.username in {None, StringAttr(msg.attrs, USERNAME)}
            then IsOpened(s.allocations, after, RelayedPort(draw))
            else after == s.allocations
  {
    hide Decode, VerifyIntegrity, StringAttr, XorAddressBytes, BeU32, ErrorReply, ChallengeReply, RelayedPort,
         AsksForTcp, RequestedLifetime;
    if VerifyIntegrity(c, raw, msg, cfg.realm, cfg.secret) {
      VerifiedNamesUser(c, cfg, raw, msg);
      var u := StringAttr(msg.attrs, USERNAME);
      assert s.username in {None, u} <==> !(s.username.Some? && s.username.value != u.value);
    }
    var deadline := now + RequestedLifetime(cfg, msg);
    Opened(s.allocations, RelayedPort(draw), deadline);
  }

  lemma Opened(before: map<nat, Allocation>, port: nat, deadline: int)
    ensures IsOpened(before, before[port := Allocation([], [], deadline)], port)
  {
    assert before[port := Allocation([], [], deadline)][port].deadline == deadline;
  }

  /** The one change an Allocate makes: a blank allocation at the port. */
  ghost predicate IsOpened(before: map<nat, Allocation>, after: map<nat, Allocation>, port: nat)
  {
    port in after && after == before[port := Allocation([], [], after[port].deadline)]
  }

  lemma RefreshEffect(c: Crypto, cfg: Config, s: Session, raw: bytes, msg: Incoming, now: int)
    requires Decode(raw) == Ok(msg)
    ensures var after := HandleRefresh(c, cfg, s, raw, msg, now).0.allocations;
            && after.Keys == s.allocations.Keys
            && forall p :: p in after ==> after[p].permissions == s.allocations[p].permissions
  {
    hide Decode, VerifyIntegrity, BeU32, ErrorReply, RequestedLifetime;
  }

  lemma PermissionEffect(c: Crypto, cfg: Config, s: Session, raw: bytes, msg: Incoming, now: int)
    requires Decode(raw) == Ok(msg)
    ensures var after := HandlePermission(c, cfg, s, raw, msg, now).0.allocations;
            && after.Keys == s.allocations.Keys
            && forall p, ip :: p in after && ip in after[p].permissions && ip !in s.allocations[p].permissions ==>
                 VerifyIntegrity(c, raw, msg, cfg.realm, cfg.secret) && PeerOf(msg).Some? && PeerOf(msg).value.ip == ip
  {
    hide Decode, VerifyIntegrity, ErrorReply, PeerOf;
  }

  /** And the same for the whole server step, whatever the input. */
  lemma StepEffect(c: Crypto, cfg: Config, sv: Server, i: Input, socket: nat, conn: nat, port: nat)
    requires Wellformed(i)
    requires var after := Step(c, cfg, sv, i, socket).0; conn in after.conns && port in after.conns[conn].allocations
    ensures var a := Step(c, cfg, sv, i, socket).0.conns[conn].allocations[port];
            && conn in sv.conns
            && var s := sv.conns[conn];
               if && VerifiedOn(c, cfg, i, conn, Allocate) && AsksForTcp(Decode(i.raw).value)
                  && port == RelayedPort(i.draw)
                  && s.username in {None, StringAttr(Decode(i.raw).value.attrs, USERNAME)}
               then a.permissions == []
               else && port in s.allocations
                    && forall ip :: ip in a.permissions ==>
                         ip in s.allocations[port].permissions || PermitsOn(c, cfg, i, conn, ip)
  {
    hide Decode, VerifyIntegrity, Find, StringAttr, U32Attr, XorAddressBytes, DecodeXorAddress, BeU32, RelayedPort,
         HandleOwn, Demux, ConnectionId, ErrorReply, PeerOf, AsksForTcp;
    if i.Data? && i.conn == conn && conn in sv.conns {
      var s := Prune(sv.conns[conn], i.prunedAt);
      var d := Decode(i.raw);
      if d.Ok? && i.raw != [] && d.value.cls == Request && d.value.op != ConnectionBind && d.value.op != Connect {
        OwnEffect(c, cfg, s, d.value, i, port);
      }
    }
  }

  /** Every allocation in every reachable state stems from a verified Allocate,
      and every permission in it from a verified CreatePermission that came later
      on the same connection. */
  lemma {:induction false} AllocationsAreJustified(c: Crypto, cfg: Config, inputs: seq<Input>, conn: nat, port: nat)
    returns (k: nat)
    requires AllWellformed(inputs)
    requires var sv := After(c, cfg, inputs); conn in sv.conns && port in sv.conns[conn].allocations
    ensures Justified(c, cfg, inputs, k, conn, port, After(c, cfg, inputs).conns[conn].allocations[port])
    decreases |inputs|
  {
    hide Step, VerifyIntegrity, Decode, VerifiedOn, RelayedPort, AsksForTcp, PeerOf;
    var n := |inputs| - 1;
    var prefix, last := inputs[..n], inputs[n];
    assert inputs == prefix + [last];
    var sv := After(c, cfg, prefix);
    var a := After(c, cfg, inputs).conns[conn].allocations[port];
    StepEffect(c, cfg, sv, last, n, conn, port);
    if Creates(c, cfg, inputs, n, conn, port) {
      k := n;
    } else {
      k := AllocationsAreJustified(c, cfg, prefix, conn, port);
      CreatesExtends(c, cfg, prefix, last, conn, port);
      forall ip | ip in a.permissions
        ensures PermittedBetween(c, cfg, inputs, k, conn, ip)
      {
        if ip in sv.conns[conn].allocations[port].permissions {
          var j :| k < j < |prefix| && PermitsOn(c, cfg, prefix[j], conn, ip);
          assert PermitsOn(c, cfg, inputs[j], conn, ip);
        } else {
          assert PermitsOn(c, cfg, inputs[n], conn, ip);
        }
      }
    }
  }

  lemma CreatesExtends(c: Crypto, cfg: Config, prefix: seq<Input>, last: Input, conn: nat, port: nat)
    requires AllWellformed(prefix + [last])
    ensures AllWellformed(prefix)
    ensures forall l :: 0 <= l < |prefix| ==>
              (Creates(c, cfg, prefix, l, conn, port) <==> Creates(c, cfg, prefix + [last], l, conn, port))
  {
    hide After, VerifiedOn, AsksForTcp, RelayedPort, Decode;
    forall i | i in prefix ensures Wellformed(i) { assert i in prefix + [last]; }
    forall l | 0 <= l < |prefix|
      ensures Creates(c, cfg, prefix, l, conn, port) <==> Creates(c, cfg, prefix + [last], l, conn, port)
    {
      assert (prefix + [last])[..l] == prefix[..l];
    }
  }

  predicate ConnectOn(i: Input, conn: nat, ip: bytes)
  {
    && i.Data? && i.conn == conn && Decode(i.raw).Ok?
    && Decode(i.raw).value.cls == Request && Decode(i.raw).value.op == Connect
    && PeerOf(Decode(i.raw).value).Some? && PeerOf(Decode(i.raw).value).value.ip == ip
  }

  lemma ConnectRefusedUnlessPermitted(c: Crypto, cfg: Config, sv: Server, i: Input, socket: nat, ip: bytes)
    requires Wellformed(i) && i.Data? && ConnectOn(i, i.conn, ip)
    requires Step(c, cfg, sv, i, socket).1.Some? && Step(c, cfg, sv, i, socket).1.value.cls == SuccessResponse
    ensures i.conn in sv.conns
    ensures Permitted(Prune(sv.conns[i.conn], i.prunedAt), ip)
  {
    hide Decode, PeerOf, Permitted, Prune, ParkAll, BeU32, ConnectionId, Demux, HandleOwn, HandleBind;
  }

  /** A Connect (which carries no checked signature of its own) is answered with
      success only if, earlier on the same connection, a verified Allocate was
      followed by a verified CreatePermission for that very address. */
  lemma ConnectNeedsPermission(c: Crypto, cfg: Config, inputs: seq<Input>, k: nat, ip: bytes)
    returns (port: nat, created: nat, permitted: nat)
    requires AllWellformed(inputs) && k < |inputs| && AllWellformed(inputs[..k])
    requires inputs[k].Data? && ConnectOn(inputs[k], inputs[k].conn, ip)
    requires var reply := Step(c, cfg, After(c, cfg, inputs[..k]), inputs[k], k).1;
             reply.Some? && reply.value.cls == SuccessResponse
    ensures created < permitted < k
    ensures Creates(c, cfg, inputs[..k], created, inputs[k].conn, port)
    ensures PermitsOn(c, cfg, inputs[permitted], inputs[k].conn, ip)
  {
    hide Step, After, VerifyIntegrity, Decode, VerifiedOn, RelayedPort, AsksForTcp, PeerOf;
    var conn := inputs[k].conn;
    var prefix := inputs[..k];
    var sv := After(c, cfg, prefix);
    ConnectRefusedUnlessPermitted(c, cfg, sv, inputs[k], k, ip);
    var s := sv.conns[conn];
    port :| port in Prune(s, inputs[k].prunedAt).allocations
            && ip in Prune(s, inputs[k].prunedAt).allocations[port].permissions;
    created := AllocationsAreJustified(c, cfg, prefix, conn, port);
    assert PermittedBetween(c, cfg, prefix, created, conn, ip);
    permitted :| created < permitted < k && PermitsOn(c, cfg, prefix[permitted], conn, ip);
  }

  // --- parked peer sockets --------------------------------------------------

  /** Input `k` opened and parked a peer socket. */
  predicate Parks(c: Crypto, cfg: Config, inputs: seq<Input>, k: nat)
    requires AllWellformed(inputs) && k < |inputs| && AllWellformed(inputs[..k])
  {
    && inputs[k].Data? && Decode(inputs[k].raw).Ok?
    && Decode(inputs[k].raw).value.cls == Request && Decode(inputs[k].raw).value.op == Connect
    && var reply := Step(c, cfg, After(c, cfg, inputs[..k]), inputs[k], k).1;
       reply.Some? && reply.value.cls == SuccessResponse
  }

  ghost function ParkedSockets(c: Crypto, cfg: Config, inputs: seq<Input>): set<nat>
    requires AllWellformed(inputs)
  {
    set k: nat | k < |inputs| && AllWellformed(inputs[..k]) && Parks(c, cfg, inputs, k)
  }

  /** No connection id is drawn while a socket is parked under it. */
  ghost predicate FreshIds(c: Crypto, cfg: Config, inputs: seq<Input>)
    requires AllWellformed(inputs)
  {
    forall k: nat :: k < |inputs| && AllWellformed(inputs[..k]) && Parks(c, cfg, inputs, k) ==>
      ConnectionId(inputs[k].draw) !in After(c, cfg, inputs[..k]).pending
  }

  predicate Distinct(s: seq<nat>)
  {
    forall i, j :: 0 <= i < j < |s| ==> s[i] != s[j]
  }

  ghost predicate SocketsOnce(sv: Server)
  {
    && Distinct(sv.bound)
    && (forall id :: id in sv.pending ==> sv.pending[id] !in sv.bound)
    && (forall id, id' :: id in sv.pending && id' in sv.pending && id != id' ==> sv.pending[id] != sv.pending[id'])
  }

  ghost predicate Binds(sv: Server, sv': Server)
  {
    exists id :: id in sv.pending && sv'.pending == sv.pending - {id} && sv'.bound == sv.bound + [sv.pending[id]]
  }

  /** Where the sockets are after a step: a Connect that succeeds parks the new
      one, a bind that succeeds moves one, nothing else touches them. */
  lemma SocketStep(c: Crypto, cfg: Config, sv: Server, i: Input, socket: nat)
    requires Wellformed(i)
    ensures var (sv', reply) := Step(c, cfg, sv, i, socket);
            var parks := && i.Data? && Decode(i.raw).Ok? && Decode(i.raw).value.cls == Request
                         && Decode(i.raw).value.op == Connect && reply.Some? && reply.value.cls == SuccessResponse;
            || (parks && sv'.pending == sv.pending[ConnectionId(i.draw) := socket] && sv'.bound == sv.bound)
            || (!parks && sv'.pending == sv.pending && sv'.bound == sv.bound)
            || (!parks && Binds(sv, sv'))
  {
    hide Decode, HandleOwn, HandleConnect, HandleBind, Prune, ConnectionId, Demux, Binds;
    if i.Data? && i.conn in sv.conns && Decode(i.raw).Ok? {
      var msg := Decode(i.raw).value;
      BindEffect(sv, msg, i.conn);
      ConnectEffect(cfg, sv, Prune(sv.conns[i.conn], i.prunedAt), msg, i, socket);
    }
  }

  lemma BindEffect(sv: Server, msg: Incoming, conn: nat)
    ensures var sv' := HandleBind(sv, msg, conn).0;
            (sv'.pending == sv.pending && sv'.bound == sv.bound) || Binds(sv, sv')
  {
    hide U32Attr, ErrorReply, Success;
    var id := U32Attr(msg.attrs, CONNECTION_ID);
    if id.Some? && id.value in sv.pending {
      assert HandleBind(sv, msg, conn).0.bound == sv.bound + [sv.pending[id.value]];
    }
  }

  lemma ConnectEffect(cfg: Config, sv: Server, s: Session, msg: Incoming, i: Input, socket: nat)
    requires i.Data?
    ensures var (sv', reply) := HandleConnect(cfg, sv, s, msg, i, socket);
            && sv'.bound == sv.bound
            && sv'.pending == if reply.cls == SuccessResponse then sv.pending[ConnectionId(i.draw) := socket]
              else sv.pending
  {
    hide PeerOf, Permitted, ParkAll, BeU32, ConnectionId, Utf8.Encode;
  }

  ghost function Held(sv: Server): set<nat> { sv.pending.Values + set s | s in sv.bound }

  /** With ids drawn at random or not: no peer socket ever goes to two binds, and
      none is both parked and bound. Every parked socket is still parked or was
      bound if and only if no id was drawn while in use. */
  lemma {:induction false} SocketConservation(c: Crypto, cfg: Config, inputs: seq<Input>)
    requires AllWellformed(inputs)
    ensures SocketsOnce(After(c, cfg, inputs))
    ensures Held(After(c, cfg, inputs)) <= ParkedSockets(c, cfg, inputs)
    ensures Held(After(c, cfg, inputs)) == ParkedSockets(c, cfg, inputs) <==> FreshIds(c, cfg, inputs)
    decreases |inputs|
  {
    hide Step, Decode, ConnectionId, Wellformed, Held, SocketsOnce, ParkedSockets, FreshIds, Binds;
    if inputs == [] {
      NothingParked(c, cfg);
    } else {
      var n := |inputs| - 1;
      var prefix := inputs[..n];
      assert inputs == prefix + [inputs[n]];
      SocketConservation(c, cfg, prefix);
      ParkedExtends(c, cfg, prefix, inputs[n]);
      var sv, sv' := After(c, cfg, prefix), After(c, cfg, inputs);
      SocketStep(c, cfg, sv, inputs[n], n);
      if Parks(c, cfg, inputs, n) {
        ParkAccount(sv, sv', ConnectionId(inputs[n].draw), n, ParkedSockets(c, cfg, prefix));
      } else if Binds(sv, sv') {
        BindAccount(sv, sv');
      } else {
        assert sv' == Server(sv'.conns, sv.pending, sv.bound);
        NoAccount(sv, sv');
      }
    }
  }

  lemma NothingParked(c: Crypto, cfg: Config)
    ensures SocketsOnce(EMPTY) && FreshIds(c, cfg, [])
    ensures Held(EMPTY) == {} == ParkedSockets(c, cfg, [])
  {
  }

  lemma NoAccount(sv: Server, sv': Server)
    requires SocketsOnce(sv) && sv'.pending == sv.pending && sv'.bound == sv.bound
    ensures SocketsOnce(sv') && Held(sv') == Held(sv)
  {
  }

  lemma ParkedExtends(c: Crypto, cfg: Config, prefix: seq<Input>, last: Input)
    requires AllWellformed(prefix + [last])
    ensures AllWellformed(prefix)
    ensures var inputs := prefix + [last];
            && ParkedSockets(c, cfg, inputs)
               == ParkedSockets(c, cfg, prefix) + (if Parks(c, cfg, inputs, |prefix|) then {|prefix|} else {})
            && (FreshIds(c, cfg, inputs) <==>
                && FreshIds(c, cfg, prefix)
                && (Parks(c, cfg, inputs, |prefix|)
                    ==> ConnectionId(last.draw) !in After(c, cfg, prefix).pending))
            && forall k :: k in ParkedSockets(c, cfg, prefix) ==> k < |prefix|
  {
    hide Step, Decode, ConnectionId, After, Wellformed;
    var inputs := prefix + [last];
    forall i | i in prefix ensures Wellformed(i) { assert i in inputs; }
    assert inputs[..|prefix|] == prefix;
    assert forall k :: 0 <= k < |prefix| ==> inputs[..k] == prefix[..k];
    assert forall k: nat :: k < |prefix| && AllWellformed(prefix[..k]) ==>
      (Parks(c, cfg, prefix, k) <==> Parks(c, cfg, inputs, k));
  }

  lemma ParkAccount(sv: Server, sv': Server, id: nat, socket: nat, parked: set<nat>)
    requires SocketsOnce(sv) && Held(sv) <= parked && socket !in parked
    requires sv'.pending == sv.pending[id := socket] && sv'.bound == sv.bound
    ensures SocketsOnce(sv') && Held(sv') <= parked + {socket}
    ensures Held(sv') == parked + {socket} <==> Held(sv) == parked && id !in sv.pending
  {
    assert socket in Held(sv') by { assert sv'.pending[id] == socket; }
    forall s | s in Held(sv') && s != socket ensures s in Held(sv) {
      if s in sv'.pending.Values {
        var other :| other in sv'.pending && sv'.pending[other] == s;
        assert sv.pending[other] == s;
      }
    }
    forall s | s in Held(sv) ensures s in Held(sv') || (id in sv.pending && sv.pending[id] == s) {
      if s in sv.pending.Values {
        var other :| other in sv.pending && sv.pending[other] == s;
        assert other != id ==> sv'.pending[other] == s;
      }
    }
    if id in sv.pending {
      assert sv.pending[id] in Held(sv) && sv.pending[id] !in Held(sv');
    }
  }

  lemma BindAccount(sv: Server, sv': Server)
    requires SocketsOnce(sv)
    requires Binds(sv, sv')
    ensures SocketsOnce(sv') && Held(sv') == Held(sv)
  {
    var id :| id in sv.pending && sv'.pending == sv.pending - {id} && sv'.bound == sv.bound + [sv.pending[id]];
    forall s | s in Held(sv) ensures s in Held(sv') {
      if s in sv.pending.Values {
        var other :| other in sv.pending && sv.pending[other] == s;
        assert other != id ==> other in sv'.pending;
        assert s == sv.pending[id] ==> s in sv'.bound;
      }
    }
  }
}
