/** Which requests the TURN server serves, in terms of the bytes it receives. */
module TurnAuth {
  import opened Bytes
  import opened Stun
  import opened Credentials
  import opened TurnServer
  import opened TurnRuns
  import Utf8

  // --- attributes -----------------------------------------------------------

  /** The first attribute of the kind has this value. */
  ghost predicate First(attrs: Attrs, kind: nat, value: bytes)
  {
    exists i ::
      0 <= i < |attrs| && attrs[i] == AttrPair(kind, value) && forall j :: 0 <= j < i ==> attrs[j].kind != kind
  }

  predicate Has(attrs: Attrs, kind: nat) { exists i :: 0 <= i < |attrs| && attrs[i].kind == kind }

  lemma {:induction false} FindIsFirst(attrs: Attrs, kind: nat)
    ensures Find(attrs, kind).Some? <==> Has(attrs, kind)
    ensures forall v :: Find(attrs, kind) == Some(v) <==> First(attrs, kind, v)
  {
    if attrs != [] {
      var rest := attrs[1..];
      FindIsFirst(rest, kind);
      if attrs[0].kind == kind {
        FirstHere(attrs, kind);
      } else {
        FirstLater(attrs, kind);
      }
    }
  }

  lemma FirstHere(attrs: Attrs, kind: nat)
    requires attrs != [] && attrs[0].kind == kind
    ensures Has(attrs, kind) && forall v :: First(attrs, kind, v) <==> v == attrs[0].value
  {
    forall v ensures First(attrs, kind, v) <==> v == attrs[0].value {
      assert attrs[0] == AttrPair(kind, attrs[0].value);
    }
  }

  lemma FirstLater(attrs: Attrs, kind: nat)
    requires attrs != [] && attrs[0].kind != kind
    ensures Has(attrs, kind) <==> Has(attrs[1..], kind)
    ensures forall v :: First(attrs, kind, v) <==> First(attrs[1..], kind, v)
  {
    var rest := attrs[1..];
    if i :| 0 <= i < |rest| && rest[i].kind == kind {
      assert attrs[i + 1].kind == kind;
    }
    if i :| 0 <= i < |attrs| && attrs[i].kind == kind {
      assert rest[i - 1].kind == kind;
    }
    forall v ensures First(attrs, kind, v) <==> First(rest, kind, v) {
      if First(rest, kind, v) {
        var i :| 0 <= i < |rest| && rest[i] == AttrPair(kind, v) && forall j :: 0 <= j < i ==> rest[j].kind != kind;
        assert attrs[i + 1] == rest[i] && forall j :: 0 < j < i + 1 ==> attrs[j] == rest[j - 1];
      }
      if First(attrs, kind, v) {
        var i :| 0 <= i < |attrs| && attrs[i] == AttrPair(kind, v) && forall j :: 0 <= j < i ==> attrs[j].kind != kind;
        assert rest[i - 1] == attrs[i] && forall j :: 0 <= j < i - 1 ==> rest[j] == attrs[j + 1];
      }
    }
  }

  // --- signatures -----------------------------------------------------------

  /** The bytes name `user` in their first USERNAME, have a MESSAGE-INTEGRITY
      attribute, and end in one that holds the code of everything before it, with
      the length field set to count it, under the key of `user`, the realm, and the
      password the secret gives `user`. */
  ghost predicate SignedAs(c: Crypto, cfg: Config, raw: bytes, user: string)
  {
    var n := |raw|;
    && Decode(raw).Ok? && n >= 28
    && (exists name :: First(Decode(raw).value.attrs, 0x0006, name) && user == Utf8.DecodeLossy(name))
    && Has(Decode(raw).value.attrs, 0x0008)
    && raw[n - 24..n - 22] == [0x00, 0x08]
    && var password := c.base64(c.hmac(Utf8.Encode(cfg.secret), Utf8.Encode(user)));
       var key := c.md5(Utf8.Encode(user + ":" + cfg.realm + ":" + password));
       raw[n - 20..] == c.hmac(key, raw[..2] + BeU16(n - 20) + raw[4..n - 24])
  }

  ghost predicate Signed(c: Crypto, cfg: Config, raw: bytes) { exists user :: SignedAs(c, cfg, raw, user) }

  /** The server's check, on all bytes that decode: it accepts exactly what is
      signed. */
  lemma VerifiedExactly(c: Crypto, cfg: Config, raw: bytes, msg: Incoming)
    requires Decode(raw) == Ok(msg)
    ensures VerifyIntegrity(c, raw, msg, cfg.realm, cfg.secret) <==> Signed(c, cfg, raw)
    ensures forall user :: SignedAs(c, cfg, raw, user) ==> StringAttr(msg.attrs, USERNAME) == Some(user)
  {
    hide Decode, Utf8.Encode, Utf8.DecodeLossy, ConstantTimeEq, Find;
    FindIsFirst(msg.attrs, USERNAME);
    FindIsFirst(msg.attrs, MESSAGE_INTEGRITY);
    IntegrityBytes();
    if Find(msg.attrs, USERNAME).Some? && Find(msg.attrs, MESSAGE_INTEGRITY).Some? {
      SignedMessageLength(raw, msg);
      var user := StringAttr(msg.attrs, USERNAME).value;
      ConstantTimeEqIsEquality(c.hmac(ServerKey(c, cfg.realm, cfg.secret, user), Covered(raw)), raw[|raw| - 20..]);
      assert VerifyIntegrity(c, raw, msg, cfg.realm, cfg.secret) <==> SignedAs(c, cfg, raw, user);
    }
  }

  lemma IntegrityBytes()
    ensures BeU16(MESSAGE_INTEGRITY) == [0x00, 0x08]
  {
    U16Reprints(0, 8);
  }

  // --- answers --------------------------------------------------------------

  /** A request that reaches its handler. */
  ghost predicate Served(sv: Server, i: Input, op: Method)
  {
    && i.Data? && Wellformed(i) && i.conn in sv.conns && Decode(i.raw).Ok?
    && Decode(i.raw).value.cls == Request && Decode(i.raw).value.op == op
  }

  ghost predicate Granted(c: Crypto, cfg: Config, sv: Server, i: Input, socket: nat)
    requires Wellformed(i)
  {
    var reply := Step(c, cfg, sv, i, socket).1;
    reply.Some? && reply.value.cls == SuccessResponse
  }

  /** Refused, with this code and reason to be read from the answer. */
  ghost predicate Refused(c: Crypto, cfg: Config, sv: Server, i: Input, socket: nat, code: nat, reason: string)
    requires Wellformed(i)
  {
    var reply := Step(c, cfg, sv, i, socket).1;
    reply.Some? && reply.value.cls == ErrorResponse && ErrorCodeOf(reply.value.attrs) == Some((code, reason))
  }

  /** A code between 100 and 799 can be read back from an error answer. */
  lemma ErrorReads(msg: Incoming, code: nat, reason: string)
    requires 100 <= code < 800
    ensures ErrorCodeOf(ErrorReply(msg, code, reason).attrs) == Some((code, reason))
  {
    hide Utf8.Encode, Utf8.DecodeLossy;
    var v := [0, 0, code / 100, code % 100] + Utf8.Encode(reason);
    assert v[4..] == Utf8.Encode(reason);
    Utf8.RoundTrip(reason);
    assert code / 100 < 8;
  }

  lemma ChallengeReadsBack(cfg: Config, s: Session, msg: Incoming)
    ensures ErrorCodeOf(ChallengeReply(cfg, s, msg).attrs) == Some((401, ""))
  {
    hide Utf8.Encode;
    assert [0, 0, 4, 1][4..] == [];
  }

  /** Asks for TCP: the first REQUESTED-TRANSPORT starts with protocol number 6. */
  ghost predicate WantsTcp(msg: Incoming)
  {
    exists v :: First(msg.attrs, 0x0019, v) && v != [] && v[0] == 6
  }

  lemma TcpExactly(msg: Incoming)
    ensures AsksForTcp(msg) <==> WantsTcp(msg)
  {
    hide Find;
    FindIsFirst(msg.attrs, REQUESTED_TRANSPORT);
  }

  /** Names an IPv4 peer: the first XOR-PEER-ADDRESS is eight bytes of family 1. */
  ghost predicate NamesPeer(msg: Incoming)
  {
    exists v :: First(msg.attrs, 0x0012, v) && |v| == 8 && v[1] == 0x01
  }

  lemma PeerExactly(msg: Incoming)
    ensures PeerOf(msg).Some? <==> NamesPeer(msg)
  {
    hide Find, XorBytes, Xor;
    FindIsFirst(msg.attrs, XOR_PEER_ADDRESS);
  }

  /** An Allocate is granted if and only if it asks for TCP, is signed, and names
      the user the connection first allocated for, if any. The refusals say why. */
  lemma AllocateExactly(c: Crypto, cfg: Config, sv: Server, i: Input, socket: nat)
    requires Served(sv, i, Allocate)
    ensures var msg, owner := Decode(i.raw).value, sv.conns[i.conn].username;
            && (Granted(c, cfg, sv, i, socket) <==>
                  WantsTcp(msg) && exists user :: SignedAs(c, cfg, i.raw, user) && owner in {None, Some(user)})
            && (!WantsTcp(msg) ==> Refused(c, cfg, sv, i, socket, 442, "TCP only"))
            && (WantsTcp(msg) && !Signed(c, cfg, i.raw) ==> Refused(c, cfg, sv, i, socket, 401, ""))
            && (WantsTcp(msg) && Signed(c, cfg, i.raw) && !Granted(c, cfg, sv, i, socket) ==>
                  Refused(c, cfg, sv, i, socket, 441, "wrong credentials"))
  {
    hide Decode, VerifyIntegrity, SignedAs, ErrorCodeOf, ErrorReply, ChallengeReply, StringAttr, XorAddressBytes, BeU32,
         RelayedPort, AsksForTcp, WantsTcp, RequestedLifetime, Prune;
    var msg := Decode(i.raw).value;
    var s := Prune(sv.conns[i.conn], i.prunedAt);
    EmptyDoesNotDecode(i.raw);
    PruneKeepsOwner(sv.conns[i.conn], i.prunedAt);
    TcpExactly(msg);
    VerifiedExactly(c, cfg, i.raw, msg);
    ErrorReads(msg, 442, "TCP only");
    ErrorReads(msg, 441, "wrong credentials");
    ChallengeReadsBack(cfg, s, msg);
    Classes(cfg, s, msg);
    if VerifyIntegrity(c, i.raw, msg, cfg.realm, cfg.secret) {
      VerifiedNamesUser(c, cfg, i.raw, msg);
      var user :| SignedAs(c, cfg, i.raw, user);
      assert StringAttr(msg.attrs, USERNAME) == Some(user);
    }
  }

  lemma EmptyDoesNotDecode(raw: bytes)
    ensures raw == [] ==> Decode(raw).Err?
  {
  }

  lemma PruneKeepsOwner(s: Session, now: int)
    ensures Prune(s, now).username == s.username
  {
  }

  lemma Classes(cfg: Config, s: Session, msg: Incoming)
    ensures ChallengeReply(cfg, s, msg).cls == ErrorResponse
    ensures forall code: nat, reason: string | code < 25600 :: ErrorReply(msg, code, reason).cls == ErrorResponse
  {
  }

  /** A Refresh is granted if and only if it is signed, and refused with 401
      otherwise. */
  lemma RefreshExactly(c: Crypto, cfg: Config, sv: Server, i: Input, socket: nat)
    requires Served(sv, i, Refresh)
    ensures Granted(c, cfg, sv, i, socket) <==> Signed(c, cfg, i.raw)
    ensures !Signed(c, cfg, i.raw) ==> Refused(c, cfg, sv, i, socket, 401, "unauthorized")
  {
    hide Decode, VerifyIntegrity, SignedAs, ErrorCodeOf, ErrorReply, BeU32, RequestedLifetime, Prune, RefreshAll;
    var msg := Decode(i.raw).value;
    EmptyDoesNotDecode(i.raw);
    VerifiedExactly(c, cfg, i.raw, msg);
    ErrorReads(msg, 401, "unauthorized");
    Classes(cfg, sv.conns[i.conn], msg);
  }

  /** A CreatePermission is granted if and only if it is signed and names an IPv4
      peer; unsigned it is refused with 401, without a peer with 400. */
  lemma PermissionExactly(c: Crypto, cfg: Config, sv: Server, i: Input, socket: nat)
    requires Served(sv, i, CreatePermission)
    ensures var msg := Decode(i.raw).value;
            && (Granted(c, cfg, sv, i, socket) <==> Signed(c, cfg, i.raw) && NamesPeer(msg))
            && (!Signed(c, cfg, i.raw) ==> Refused(c, cfg, sv, i, socket, 401, "unauthorized"))
            && (Signed(c, cfg, i.raw) && !NamesPeer(msg) ==>
                  Refused(c, cfg, sv, i, socket, 400, "missing xor-peer-address"))
  {
    hide Decode, VerifyIntegrity, SignedAs, ErrorCodeOf, ErrorReply, Prune, PermitAll, PeerOf, NamesPeer;
    var msg := Decode(i.raw).value;
    EmptyDoesNotDecode(i.raw);
    PeerExactly(msg);
    VerifiedExactly(c, cfg, i.raw, msg);
    ErrorReads(msg, 401, "unauthorized");
    ErrorReads(msg, 400, "missing xor-peer-address");
    Classes(cfg, sv.conns[i.conn], msg);
  }

  /** A Connect is granted if and only if it names an IPv4 peer that accepts the
      connection and that is permitted on an allocation whose deadline lies after
      the last look at the clock. The refusals say which of these fails. */
  lemma ConnectExactly(c: Crypto, cfg: Config, sv: Server, i: Input, socket: nat)
    requires Served(sv, i, Connect)
    ensures var msg := Decode(i.raw).value;
            && (Granted(c, cfg, sv, i, socket) <==>
                  NamesPeer(msg) && i.accepts && PermittedNow(sv.conns[i.conn], PeerOf(msg), i.prunedAt))
            && (!NamesPeer(msg) ==> Refused(c, cfg, sv, i, socket, 400, "missing xor-peer-address"))
            && (NamesPeer(msg) && !PermittedNow(sv.conns[i.conn], PeerOf(msg), i.prunedAt) ==>
                  Refused(c, cfg, sv, i, socket, 403, "no permission for peer"))
            && (NamesPeer(msg) && PermittedNow(sv.conns[i.conn], PeerOf(msg), i.prunedAt) && !i.accepts ==>
                  Refused(c, cfg, sv, i, socket, 447, "connection failed"))
  {
    hide Decode, ErrorCodeOf, ErrorReply, Prune, ParkAll, PeerOf, NamesPeer, Permitted, PermittedNow, ConnectionId,
         BeU32;
    var msg := Decode(i.raw).value;
    EmptyDoesNotDecode(i.raw);
    PeerExactly(msg);
    PermittedExactly(sv.conns[i.conn], PeerOf(msg), i.prunedAt);
    ErrorReads(msg, 400, "missing xor-peer-address");
    ErrorReads(msg, 403, "no permission for peer");
    ErrorReads(msg, 447, "connection failed");
    Classes(cfg, sv.conns[i.conn], msg);
  }

  ghost predicate PermittedNow(s: Session, peer: Option<SocketAddr>, now: int)
  {
    && peer.Some?
    && exists p ::
         p in s.allocations && s.allocations[p].deadline > now && peer.value.ip in s.allocations[p].permissions
  }

  lemma PermittedExactly(s: Session, peer: Option<SocketAddr>, now: int)
    ensures PermittedNow(s, peer, now) <==> peer.Some? && Permitted(Prune(s, now), peer.value.ip)
  {
    var t := Prune(s, now);
    if peer.Some? {
      if p :| p in s.allocations && s.allocations[p].deadline > now && peer.value.ip in s.allocations[p].permissions {
        assert p in t.allocations && peer.value.ip in t.allocations[p].permissions;
      }
      if p :| p in t.allocations && peer.value.ip in t.allocations[p].permissions {
        assert p in s.allocations && s.allocations[p].deadline > now;
      }
    }
  }

  /** A ConnectionBind is granted if and only if a socket is parked under its id. */
  lemma BindExactly(c: Crypto, cfg: Config, sv: Server, i: Input, socket: nat)
    requires Served(sv, i, ConnectionBind)
    ensures var id := U32Attr(Decode(i.raw).value.attrs, 0x002A);
            && (Granted(c, cfg, sv, i, socket) <==> id.Some? && id.value in sv.pending)
            && (id.None? ==> Refused(c, cfg, sv, i, socket, 400, "missing connection id"))
            && (id.Some? && id.value !in sv.pending ==> Refused(c, cfg, sv, i, socket, 437, "allocation mismatch"))
            && i.conn !in Step(c, cfg, sv, i, socket).0.conns
  {
    hide Decode, ErrorCodeOf, ErrorReply, U32Attr;
    var msg := Decode(i.raw).value;
    EmptyDoesNotDecode(i.raw);
    ErrorReads(msg, 400, "missing connection id");
    ErrorReads(msg, 437, "allocation mismatch");
    Classes(cfg, sv.conns[i.conn], msg);
  }

  // --- over whole runs ------------------------------------------------------

  /** A connection on which no request carries MESSAGE-INTEGRITY never holds an
      allocation, let alone a permission. */
  lemma UnsignedNeverAllocates(c: Crypto, cfg: Config, inputs: seq<Input>, conn: nat)
    requires AllWellformed(inputs)
    requires forall k :: 0 <= k < |inputs| && inputs[k].Data? && inputs[k].conn == conn && Decode(inputs[k].raw).Ok? ==>
               !Has(Decode(inputs[k].raw).value.attrs, 0x0008)
    ensures var sv := After(c, cfg, inputs); conn in sv.conns ==> sv.conns[conn].allocations == map[]
  {
    hide After, Decode, Has, SignedAs, VerifyIntegrity;
    var sv := After(c, cfg, inputs);
    if conn in sv.conns {
      if port :| port in sv.conns[conn].allocations {
        var k := SignedAllocate(c, cfg, inputs, conn, port);
        assert false;
      }
    }
  }

  /** Behind every allocation of every reachable state there is a signed Allocate on
      its connection, and behind every permission a later signed CreatePermission
      that names the address. */
  lemma SignedAllocate(c: Crypto, cfg: Config, inputs: seq<Input>, conn: nat, port: nat) returns (k: nat)
    requires AllWellformed(inputs)
    requires var sv := After(c, cfg, inputs); conn in sv.conns && port in sv.conns[conn].allocations
    ensures SignedOn(c, cfg, inputs, k, conn, Allocate)
    ensures SignedPermissions(c, cfg, inputs, k, conn, After(c, cfg, inputs).conns[conn].allocations[port])
  {
    hide After, Decode, VerifyIntegrity, SignedAs, Has, RelayedPort, AsksForTcp, StringAttr, PeerOf;
    k := AllocationsAreJustified(c, cfg, inputs, conn, port);
    SignedIfVerified(c, cfg, inputs, k, conn, Allocate);
    forall ip | ip in After(c, cfg, inputs).conns[conn].allocations[port].permissions
      ensures exists j :: k < j < |inputs| && SignedFor(c, cfg, inputs, j, conn, ip)
    {
      assert PermittedBetween(c, cfg, inputs, k, conn, ip);
      var j :| k < j < |inputs| && PermitsOn(c, cfg, inputs[j], conn, ip);
      SignedIfVerified(c, cfg, inputs, j, conn, CreatePermission);
      assert SignedFor(c, cfg, inputs, j, conn, ip);
    }
  }

  /** Input `k` is a signed request of this kind on the connection. */
  ghost predicate SignedOn(c: Crypto, cfg: Config, inputs: seq<Input>, k: nat, conn: nat, op: Method)
  {
    && k < |inputs| && inputs[k].Data? && inputs[k].conn == conn && Decode(inputs[k].raw).Ok?
    && Decode(inputs[k].raw).value.cls == Request && Decode(inputs[k].raw).value.op == op
    && Signed(c, cfg, inputs[k].raw) && Has(Decode(inputs[k].raw).value.attrs, 0x0008)
  }

  /** Every address the allocation permits was permitted by a signed request after
      input `k`. */
  ghost predicate SignedPermissions(c: Crypto, cfg: Config, inputs: seq<Input>, k: nat, conn: nat, a: Allocation)
  {
    forall ip :: ip in a.permissions ==> exists j :: k < j < |inputs| && SignedFor(c, cfg, inputs, j, conn, ip)
  }

  /** A signed CreatePermission for the address. */
  ghost predicate SignedFor(c: Crypto, cfg: Config, inputs: seq<Input>, k: nat, conn: nat, ip: bytes)
  {
    && SignedOn(c, cfg, inputs, k, conn, CreatePermission)
    && PeerOf(Decode(inputs[k].raw).value).Some? && PeerOf(Decode(inputs[k].raw).value).value.ip == ip
  }

  lemma SignedIfVerified(c: Crypto, cfg: Config, inputs: seq<Input>, k: nat, conn: nat, op: Method)
    requires k < |inputs| && VerifiedOn(c, cfg, inputs[k], conn, op)
    ensures SignedOn(c, cfg, inputs, k, conn, op)
  {
    hide Decode, VerifyIntegrity, Has;
    VerifiedExactly(c, cfg, inputs[k].raw, Decode(inputs[k].raw).value);
  }

  // --- the rest of the answers ----------------------------------------------

  /** A Binding is answered with the caller's own address, to be read back. */
  lemma BindingTells(c: Crypto, cfg: Config, sv: Server, i: Input, socket: nat)
    requires Served(sv, i, Binding) && i.peer.V4?
    ensures var reply := Step(c, cfg, sv, i, socket).1;
            && Granted(c, cfg, sv, i, socket)
            && (exists v :: First(reply.value.attrs, 0x0020, v) && DecodeXorAddress(v) == Some(i.peer))
            && (exists v :: First(reply.value.attrs, 0x0012, v) && DecodeXorAddress(v) == Some(i.peer))
  {
    hide Decode, XorAddressBytes, DecodeXorAddress, Prune;
    var msg := Decode(i.raw).value;
    EmptyDoesNotDecode(i.raw);
    XorAddressRoundTrip(i.peer, msg.tid);
    var v := XorAddressBytes(i.peer, msg.tid);
    var attrs := [AttrPair(0x0020, v), AttrPair(0x0012, v)];
    assert Step(c, cfg, sv, i, socket).1.value.attrs == attrs;
    assert attrs[0] == AttrPair(0x0020, v) && attrs[1] == AttrPair(0x0012, v);
    assert First(attrs, 0x0020, v) && First(attrs, 0x0012, v);
  }

  /** A granted Allocate tells the relayed address, the external one with a port
      from 49152 up, and the lifetime in whole seconds. */
  lemma AllocateTells(c: Crypto, cfg: Config, sv: Server, i: Input, socket: nat)
    requires Served(sv, i, Allocate) && Granted(c, cfg, sv, i, socket)
    ensures var attrs := Step(c, cfg, sv, i, socket).1.value.attrs;
            var relayed := V4(cfg.external, 49152 + i.draw % 16384);
            && (exists v :: First(attrs, 0x0016, v) && DecodeXorAddress(v) == Some(relayed))
            && U32Attr(attrs, 0x000D)
               == Some(LeaseOf(cfg, Decode(i.raw).value.attrs) / 1_000_000_000 % 0x1_0000_0000)
  {
    hide Decode, XorAddressBytes, DecodeXorAddress, Prune, ErrorReply, ChallengeReply, VerifyIntegrity, StringAttr,
         BeU32, ReadU32, AsksForTcp, RelayedPort, Quot;
    var msg := Decode(i.raw).value;
    EmptyDoesNotDecode(i.raw);
    Classes(cfg, Prune(sv.conns[i.conn], i.prunedAt), msg);
    var port, lease := RelayedPort(i.draw), RequestedLifetime(cfg, msg);
    PortExactly(i.draw);
    LeaseExactly(cfg, msg);
    XorAddressRoundTrip(V4(cfg.external, port), msg.tid);
    QuotIsDivision(lease, 1_000_000_000);
    U32Wraps(Quot(lease, SECOND));
    var v, w := XorAddressBytes(V4(cfg.external, port), msg.tid), BeU32(Quot(lease, SECOND));
    var attrs := [AttrPair(0x0016, v), AttrPair(0x000D, w)];
    assert Step(c, cfg, sv, i, socket).1.value.attrs == attrs;
    TwoAttributes(v, w);
  }

  lemma TwoAttributes(v: bytes, w: bytes)
    requires |w| == 4
    ensures var attrs := [AttrPair(0x0016, v), AttrPair(0x000D, w)];
            First(attrs, 0x0016, v) && U32Attr(attrs, 0x000D) == Some(ReadU32(w))
  {
    var attrs := [AttrPair(0x0016, v), AttrPair(0x000D, w)];
    assert attrs[0] == AttrPair(0x0016, v);
    assert attrs[1..] == [AttrPair(0x000D, w)];
    assert Find(attrs, 0x000D) == Find(attrs[1..], 0x000D) == Some(w);
  }

  /** How long a request asks for: the first LIFETIME, if it is four bytes and not
      zero, in seconds; else what the server is configured for. */
  function LeaseOf(cfg: Config, attrs: Attrs): nat
  {
    var asked := U32Attr(attrs, 0x000D);
    if asked.Some? && asked.value > 0 then asked.value * 1_000_000_000 else cfg.lifetime
  }

  lemma LeaseExactly(cfg: Config, msg: Incoming)
    ensures RequestedLifetime(cfg, msg) == LeaseOf(cfg, msg.attrs)
  {
    hide U32Attr;
  }

  lemma PortExactly(draw: nat)
    ensures RelayedPort(draw) == 49152 + draw % 16384
  {
    hide Rem;
    QuotIsDivision(draw, 16384);
  }

  /** The upper half of a 64-bit draw. */
  lemma ConnectionIdExactly(draw: nat)
    ensures ConnectionId(draw) == draw / 0x1_0000_0000 % 0x1_0000_0000
  {
    hide Quot, Rem;
    QuotIsDivision(draw, 0x1_0000_0000);
    QuotIsDivision(Quot(draw, 0x1_0000_0000), 0x1_0000_0000);
  }

  /** Who serves a connection, by the first bytes: the letters GET and a space, or
      POST, are HTTP; BRIDGE and a space is the bridge; all else is TURN. */
  lemma DemuxExactly(peeked: bytes)
    ensures Demux(peeked) == Http <==> [71, 69, 84, 32] <= peeked || [80, 79, 83, 84] <= peeked
    ensures Demux(peeked) == Bridge <==> [66, 82, 73, 68, 71, 69, 32] <= peeked
  {
    hide Utf8.Encode;
    Letters();
    assert |peeked| >= 4 ==> (peeked[..4] == [71, 69, 84, 32] <==> [71, 69, 84, 32] <= peeked);
    assert |peeked| >= 4 ==> (peeked[..4] == [80, 79, 83, 84] <==> [80, 79, 83, 84] <= peeked);
    assert |peeked| >= 7 ==> (peeked[..7] == [66, 82, 73, 68, 71, 69, 32] <==> [66, 82, 73, 68, 71, 69, 32] <= peeked);
  }

  lemma Letters()
    ensures Utf8.Encode("GET ") == [71, 69, 84, 32] && Utf8.Encode("POST") == [80, 79, 83, 84]
    ensures Utf8.Encode("BRIDGE ") == [66, 82, 73, 68, 71, 69, 32]
  {
    AsciiEncodes("GET ", [71, 69, 84, 32]);
    AsciiEncodes("POST", [80, 79, 83, 84]);
    AsciiEncodes("BRIDGE ", [66, 82, 73, 68, 71, 69, 32]);
  }

  lemma {:induction false} AsciiEncodes(s: string, b: bytes)
    requires |s| == |b| && forall i :: 0 <= i < |s| ==> s[i] as int == b[i] && b[i] < 128
    ensures Utf8.Encode(s) == b
  {
    if s != [] {
      AsciiEncodes(s[1..], b[1..]);
      assert b == [b[0]] + b[1..];
    }
  }
}
