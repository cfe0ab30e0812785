/** How a parked peer socket gets lost: two Connects that draw the same id. */
module TurnRedraw {
  import opened Bytes
  import opened Stun
  import opened Credentials
  import opened TurnServer
  import opened TurnRuns
  import opened TurnClient
  import TurnDial
  import Utf8

  const FROM: SocketAddr := V4([127, 0, 0, 1], 1)

  /** One connection throughout, at one instant, with every draw the same. */
  function Sent(c: Crypto, cred: Cred, m: Outgoing): Input
  {
    Received(0, Wire(c, Sign(cred, m), Some(Key(c, cred))), Env(0, 0, 0, FROM, true))
  }

  /** Open a connection, allocate, permit the peer, and connect to it twice. */
  function RedrawRun(c: Crypto, cred: Cred, tid: Tid, target: SocketAddr): seq<Input>
    requires target.Valid()
  {
    var allocate := AllocateRequest(tid, 0);
    [Open(0, cred.nonce, Cut(Wire(c, allocate, None), 7)),
     Sent(c, cred, allocate),
     Sent(c, cred, PeerRequest(CreatePermission, tid, target)),
     Sent(c, cred, PeerRequest(Connect, tid, target)),
     Sent(c, cred, PeerRequest(Connect, tid, target))]
  }

  /** An honest client whose names are short enough for the buffers. */
  ghost predicate Plain(c: Crypto, cfg: Config, cred: Cred, target: SocketAddr)
  {
    && c.Valid() && cfg.lifetime > 0 && cred.realm == cfg.realm && HonestPassword(c, cfg, cred)
    && target.Valid() && target.V4? && TurnDial.NamesLength(cred) <= 4000
  }

  lemma AllFit(c: Crypto, cfg: Config, cred: Cred, tid: Tid, target: SocketAddr)
    requires Plain(c, cfg, cred, target)
    ensures Fits(c, Sign(cred, AllocateRequest(tid, 0)), Some(Key(c, cred)))
    ensures Fits(c, Sign(cred, PeerRequest(CreatePermission, tid, target)), Some(Key(c, cred)))
    ensures Fits(c, Sign(cred, PeerRequest(Connect, tid, target)), Some(Key(c, cred)))
    ensures ReplyFits(ChallengeReply(cfg, Session(cred.nonce, None, map[]), Incoming(Allocate, Request, tid, [])))
  {
    hide Fits, ReplyFits, ChallengeReply, Sign, Key, Utf8.Encode;
    var env := Env(0, 0, 0, FROM, true);
    var x := TurnDial.Setup(c, cfg, cred.username, cred.password, 0,
                            TurnDial.Schedule(_ => tid, _ => env, _ => [], _ => cred.nonce));
    TurnDial.SignedFits(x, cred, TurnDial.AskAllocate, tid);
    TurnDial.SignedFits(x, cred, TurnDial.AskPeer(CreatePermission, target), tid);
    TurnDial.SignedFits(x, cred, TurnDial.AskPeer(Connect, target), tid);
    TurnDial.ChallengeFits(cfg, Session(cred.nonce, None, map[]), Incoming(Allocate, Request, tid, []));
  }

  lemma AfterStep(c: Crypto, cfg: Config, inputs: seq<Input>, i: Input)
    requires AllWellformed(inputs) && Wellformed(i)
    ensures AllWellformed(inputs + [i])
    ensures After(c, cfg, inputs + [i]) == Step(c, cfg, After(c, cfg, inputs), i, |inputs|).0
    ensures After(c, cfg, []) == EMPTY
  {
    hide Step;
    assert (inputs + [i])[..|inputs|] == inputs;
  }

  /** A signed request, as a step of the run. */
  lemma SentStep(c: Crypto, cfg: Config, cred: Cred, inputs: seq<Input>, m: Outgoing)
    requires AllWellformed(inputs)
    ensures FROM.Valid() && Wellformed(Sent(c, cred, m)) && AllWellformed(inputs + [Sent(c, cred, m)])
    ensures After(c, cfg, inputs + [Sent(c, cred, m)])
         == Exchange(c, cfg, After(c, cfg, inputs), 0, Sign(cred, m), Some(Key(c, cred)),
                     Env(0, 0, 0, FROM, true), |inputs|).0
  {
    hide Step, Wire, Sign, Key, After, Understand;
    AfterStep(c, cfg, inputs, Sent(c, cred, m));
  }

  lemma OpenStep(c: Crypto, cfg: Config, cred: Cred, tid: Tid)
    requires c.Valid()
    ensures var opening := Open(0, cred.nonce, Cut(Wire(c, AllocateRequest(tid, 0), None), 7));
            && AllWellformed([opening])
            && After(c, cfg, [opening]) == Server(map[0 := Session(cred.nonce, None, map[])], map[], [])
  {
    hide Demux, Wire, Cut, After;
    var opening := Open(0, cred.nonce, Cut(Wire(c, AllocateRequest(tid, 0), None), 7));
    TurnDial.RequestsAreTurn(c, AllocateRequest(tid, 0), None);
    AfterStep(c, cfg, [], opening);
    assert [] + [opening] == [opening];
  }

  /** The allocation and its permission are in place after three inputs. */
  lemma ThreeSteps(c: Crypto, cfg: Config, cred: Cred, tid: Tid, target: SocketAddr, inputs: seq<Input>)
    requires Plain(c, cfg, cred, target) && inputs == RedrawRun(c, cred, tid, target)[..3]
    ensures AllWellformed(inputs)
    ensures Prepared(cfg, After(c, cfg, inputs), target) && After(c, cfg, inputs).pending == map[]
  {
    hide Step, Exchange, After, Sign, Key, AllocateRequest, PeerRequest, Fits, ReplyFits, ChallengeReply, SignedPart,
         ServerKey, Sent, AllWellformed, RestPassword, Cut, Wire;
    AllFit(c, cfg, cred, tid, target);
    var env := Env(0, 0, 0, FROM, true);
    var one, two := inputs[..1], inputs[..2];
    OpenStep(c, cfg, cred, tid);
    assert one == [Open(0, cred.nonce, Cut(Wire(c, AllocateRequest(tid, 0), None), 7))];
    assert two == one + [Sent(c, cred, AllocateRequest(tid, 0))];
    assert inputs == two + [Sent(c, cred, PeerRequest(CreatePermission, tid, target))];
    SentStep(c, cfg, cred, one, AllocateRequest(tid, 0));
    HonestKey(c, cfg, cred);
    AllocateAnswered(c, cfg, After(c, cfg, one), 0, cred, tid, 0, env, 1);
    SentStep(c, cfg, cred, two, PeerRequest(CreatePermission, tid, target));
    PermissionAnswered(c, cfg, After(c, cfg, two), 0, cred, tid, target, RelayedPort(0), env, 2);
  }

  lemma HonestKey(c: Crypto, cfg: Config, cred: Cred)
    requires cred.realm == cfg.realm && HonestPassword(c, cfg, cred)
    ensures Key(c, cred) == ServerKey(c, cfg.realm, cfg.secret, cred.username)
  {
  }

  lemma HoldsOne(sv: Server, id: nat, socket: nat)
    requires sv.pending == map[id := socket] && sv.bound == []
    ensures Held(sv) == {socket}
  {
    assert sv.pending[id] == socket;
  }

  /** The peer is permitted on an allocation that does not expire at once. */
  ghost predicate Prepared(cfg: Config, sv: Server, target: SocketAddr)
  {
    && 0 in sv.conns && RelayedPort(0) in sv.conns[0].allocations
    && target.ip in sv.conns[0].allocations[RelayedPort(0)].permissions
    && sv.conns[0].allocations[RelayedPort(0)].deadline == cfg.lifetime
    && sv.bound == []
  }

  lemma ConnectStep(c: Crypto, cfg: Config, cred: Cred, tid: Tid, target: SocketAddr, inputs: seq<Input>)
    requires Plain(c, cfg, cred, target) && AllWellformed(inputs) && Prepared(cfg, After(c, cfg, inputs), target)
    ensures var more := inputs + [Sent(c, cred, PeerRequest(Connect, tid, target))];
            && AllWellformed(more) && Prepared(cfg, After(c, cfg, more), target)
            && After(c, cfg, more).pending == After(c, cfg, inputs).pending[ConnectionId(0) := |inputs|]
  {
    hide Step, Exchange, After, Sign, Key, PeerRequest, Fits, ReplyFits, ChallengeReply, Sent, AllWellformed,
         RestPassword, U32Attr, ConnectionId, RelayedPort;
    AllFit(c, cfg, cred, tid, target);
    SentStep(c, cfg, cred, inputs, PeerRequest(Connect, tid, target));
    ConnectAnswered(c, cfg, After(c, cfg, inputs), 0, cred, tid, target, RelayedPort(0), Env(0, 0, 0, FROM, true),
                    |inputs|);
  }

  /** In this run the second Connect draws the id under which the first one's
      socket is parked: socket 3 was parked, was never bound, and is gone. */
  lemma RedrawLosesSocket(c: Crypto, cfg: Config, cred: Cred, tid: Tid, target: SocketAddr)
    requires Plain(c, cfg, cred, target)
    ensures var inputs := RedrawRun(c, cred, tid, target);
            && AllWellformed(inputs) && 3 in ParkedSockets(c, cfg, inputs) && 3 !in Held(After(c, cfg, inputs))
            && !FreshIds(c, cfg, inputs)
  {
    hide Step, After, PeerRequest, Sent, AllWellformed, ConnectionId, ParkedSockets, FreshIds, AllocateRequest,
         HonestPassword;
    var inputs := RedrawRun(c, cred, tid, target);
    var connect := Sent(c, cred, PeerRequest(Connect, tid, target));
    var three, four := inputs[..3], inputs[..4];
    assert four == three + [connect] && inputs == four + [connect];
    ThreeSteps(c, cfg, cred, tid, target, three);
    ConnectStep(c, cfg, cred, tid, target, three);
    ConnectStep(c, cfg, cred, tid, target, four);
    var sv4, sv5 := After(c, cfg, four), After(c, cfg, inputs);
    assert sv4.pending == map[ConnectionId(0) := 3] && sv5.pending == map[ConnectionId(0) := 4];
    HoldsOne(sv4, ConnectionId(0), 3);
    HoldsOne(sv5, ConnectionId(0), 4);
    SocketConservation(c, cfg, four);
    SocketConservation(c, cfg, inputs);
    ParkedExtends(c, cfg, four, connect);
  }
}
