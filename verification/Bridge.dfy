/** The relay bridge: LISTEN and CONNECT handlers running concurrently over one
    locked registry and a channel of capacity one per listener. One event is one
    critical section, one channel operation or one write. */
module Bridge {

  /** A listener's handler: waiting on its channel, holding a sender it has not
      yet unregistered for, woken by a closed channel, splicing, or over. */
  datatype ListenPhase = Waiting | Paired(sender: nat) | Closing | Splicing(peer: nat) | Over

  datatype Listener = Listener(fingerprint: string, phase: ListenPhase, queue: seq<nat>)

  /** A sender's handler: holding a channel handle, blocked in send after its
      "BRIDGE OK", handed over to a listener, received by it, or finished. */
  datatype ConnectPhase = Holding(listener: nat) | Sending(listener: nat) | Queued(listener: nat)
    | Taken(listener: nat) | Gone

  datatype Connector = Connector(target: string, phase: ConnectPhase)

  /** `splices` records every splice ever started: listener and sender. */
  datatype State = State(
    listeners: map<nat, Listener>, connectors: map<nat, Connector>, registry: map<string, nat>,
    splices: seq<(nat, nat)>)

  datatype Event =
    | Listen(conn: nat, fingerprint: string)   // insert under the lock
    | Receive(conn: nat)                       // recv yields a sender
    | Unregister(conn: nat)                    // remove by key, then splice
    | ChannelClosed(conn: nat)                 // recv yields nothing
    | CleanUp(conn: nat)                       // remove by key, then return
    | SpliceEnds(conn: nat)
    | Connect(conn: nat, target: string)       // look up under the lock
    | WriteOk(conn: nat)
    | WriteFails(conn: nat)
    | Send(conn: nat)                          // send completes, or fails at a dropped receiver

  /** Somebody still holds a sending handle of the listener's channel. */
  predicate HasSender(s: State, l: nat)
  {
    || (exists fp :: fp in s.registry && s.registry[fp] == l)
    || (exists c :: c in s.connectors && s.connectors[c].phase in {Holding(l), Sending(l)})
  }

  predicate NewConn(s: State, conn: nat) { conn !in s.listeners && conn !in s.connectors }

  predicate ListenerIn(s: State, conn: nat, phase: ListenPhase)
  {
    conn in s.listeners && s.listeners[conn].phase == phase
  }

  predicate Enabled(s: State, e: Event)
  {
    match e
    case Listen(l, _) => NewConn(s, l)
    case Receive(l) => ListenerIn(s, l, Waiting) && s.listeners[l].queue != []
    case Unregister(l) => l in s.listeners && s.listeners[l].phase.Paired?
    case ChannelClosed(l) => ListenerIn(s, l, Waiting) && s.listeners[l].queue == [] && !HasSender(s, l)
    case CleanUp(l) => ListenerIn(s, l, Closing)
    case SpliceEnds(l) => l in s.listeners && s.listeners[l].phase.Splicing?
    case Connect(c, _) => NewConn(s, c)
    case WriteOk(c) => c in s.connectors && s.connectors[c].phase.Holding?
    case WriteFails(c) => c in s.connectors && s.connectors[c].phase.Holding?
    case Send(c) =>
      && c in s.connectors && s.connectors[c].phase.Sending?
      && var l := s.connectors[c].phase.listener;
         l in s.listeners && (s.listeners[l].phase == Over || s.listeners[l].queue == [])
  }

  function SetPhase(s: State, l: nat, phase: ListenPhase): State
    requires l in s.listeners
  {
    s.(listeners := s.listeners[l := s.listeners[l].(phase := phase)])
  }

  function SetConnector(s: State, c: nat, phase: ConnectPhase): State
    requires c in s.connectors
  {
    s.(connectors := s.connectors[c := s.connectors[c].(phase := phase)])
  }

  function RemoveKey(s: State, l: nat): State
    requires l in s.listeners
  {
    s.(registry := s.registry - {s.listeners[l].fingerprint})
  }

  function Take(s: State, l: nat): State
    requires Enabled(s, Receive(l)) && s.listeners[l].queue[0] in s.connectors
  {
    var sender := s.listeners[l].queue[0];
    var listener := s.listeners[l].(phase := Paired(sender), queue := s.listeners[l].queue[1..]);
    SetConnector(s.(listeners := s.listeners[l := listener]), sender, Taken(l))
  }

  /** An event that is not enabled changes nothing. */
  function Next(s: State, e: Event): State
  {
    if !Enabled(s, e) then s
    else match e
      case Listen(l, fp) =>
        s.(listeners := s.listeners[l := Listener(fp, Waiting, [])], registry := s.registry[fp := l])
      case Receive(l) => if s.listeners[l].queue[0] in s.connectors then Take(s, l) else s
      case Unregister(l) =>
        var sender := s.listeners[l].phase.sender;
        SetPhase(RemoveKey(s, l), l, Splicing(sender)).(splices := s.splices + [(l, sender)])
      case ChannelClosed(l) => SetPhase(s, l, Closing)
      case CleanUp(l) => SetPhase(RemoveKey(s, l), l, Over)
      case SpliceEnds(l) => SetPhase(s, l, Over)
      case Connect(c, target) =>
        var phase := if target in s.registry then Holding(s.registry[target]) else Gone;
        s.(connectors := s.connectors[c := Connector(target, phase)])
      case WriteOk(c) => SetConnector(s, c, Sending(s.connectors[c].phase.listener))
      case WriteFails(c) => SetConnector(s, c, Gone)
      case Send(c) =>
        var l := s.connectors[c].phase.listener;
        if s.listeners[l].phase == Over then SetConnector(s, c, Gone)
        else SetConnector(s.(listeners := s.listeners[l := s.listeners[l].(queue := [c])]), c, Queued(l))
  }

  const EMPTY := State(map[], map[], map[], [])

  function After(events: seq<Event>): State
  {
    if events == [] then EMPTY else Next(After(events[..|events| - 1]), events[|events| - 1])
  }

  // --- what every interleaving keeps ----------------------------------------

  /** Registry entries belong to listeners of their key that are not yet spliced
      or finished. */
  ghost predicate RegistryOk(s: State)
  {
    forall fp :: fp in s.registry ==>
      && s.registry[fp] in s.listeners
      && s.listeners[s.registry[fp]].fingerprint == fp
      && (s.listeners[s.registry[fp]].phase == Waiting || s.listeners[s.registry[fp]].phase.Paired?)
  }

  /** A sender is only ever in touch with a listener of the key it asked for. */
  ghost predicate ConnectorsOk(s: State)
  {
    forall c :: c in s.connectors && s.connectors[c].phase != Gone ==>
      var l := s.connectors[c].phase.listener;
      l in s.listeners && s.listeners[l].fingerprint == s.connectors[c].target
  }

  ghost predicate ListenerOk(s: State, l: nat)
    requires l in s.listeners
  {
    var x := s.listeners[l];
    && |x.queue| <= 1
    && (x.queue != [] ==> x.queue[0] in s.connectors && s.connectors[x.queue[0]].phase == Queued(l))
    && (x.phase.Paired? ==> TakenBy(s, x.phase.sender, l))
    && (x.phase.Splicing? ==> (l, x.phase.peer) in s.splices)
  }

  ghost predicate ListenersOk(s: State)
  {
    forall l :: l in s.listeners ==> ListenerOk(s, l)
  }

  ghost predicate TakenBy(s: State, c: nat, l: nat) { c in s.connectors && s.connectors[c].phase == Taken(l) }

  ghost predicate SplicesOk(s: State)
  {
    && (forall p :: p in s.splices ==>
          && TakenBy(s, p.1, p.0) && p.0 in s.listeners
          && (s.listeners[p.0].phase.Splicing? || s.listeners[p.0].phase == Over))
    && (forall i, j :: 0 <= i < j < |s.splices| ==>
          s.splices[i].0 != s.splices[j].0 && s.splices[i].1 != s.splices[j].1)
  }

  ghost predicate Inv(s: State)
  {
    s.listeners.Keys !! s.connectors.Keys && RegistryOk(s) && ConnectorsOk(s) && ListenersOk(s) && SplicesOk(s)
  }

  lemma KeepsRegistry(s: State, e: Event)
    requires Inv(s)
    ensures RegistryOk(Next(s, e))
  {
    hide SplicesOk, ConnectorsOk, ListenerOk;
    if e.ChannelClosed? && Enabled(s, e) {
      assert forall fp :: fp in s.registry ==> s.registry[fp] != e.conn;
    }
  }

  lemma KeepsConnectors(s: State, e: Event)
    requires Inv(s)
    ensures ConnectorsOk(Next(s, e))
    ensures Next(s, e).listeners.Keys !! Next(s, e).connectors.Keys
  {
    hide SplicesOk, HasSender;
    if e.Receive? && Enabled(s, e) {
      assert ListenerOk(s, e.conn);
    }
  }

  lemma KeepsListeners(s: State, e: Event)
    requires Inv(s)
    ensures ListenersOk(Next(s, e))
  {
    forall l | l in Next(s, e).listeners ensures ListenerOk(Next(s, e), l) {
      if e.Receive? && Enabled(s, e) {
        ReceiveKeeps(s, e, l);
      } else if e.Send? && Enabled(s, e) {
        SendKeeps(s, e, l);
      } else {
        OthersKeep(s, e, l);
      }
    }
  }

  lemma ReceiveKeeps(s: State, e: Event, l: nat)
    requires Inv(s) && e.Receive? && Enabled(s, e) && l in Next(s, e).listeners
    ensures ListenerOk(Next(s, e), l)
  {
    hide RegistryOk, ConnectorsOk, SplicesOk, HasSender;
    assert ListenerOk(s, l) && ListenerOk(s, e.conn);
  }

  lemma SendKeeps(s: State, e: Event, l: nat)
    requires Inv(s) && e.Send? && Enabled(s, e) && l in Next(s, e).listeners
    ensures ListenerOk(Next(s, e), l)
  {
    hide RegistryOk, SplicesOk, HasSender;
    assert ListenerOk(s, l);
  }

  lemma OthersKeep(s: State, e: Event, l: nat)
    requires Inv(s) && (Enabled(s, e) ==> !e.Receive? && !e.Send?) && l in Next(s, e).listeners
    ensures ListenerOk(Next(s, e), l)
  {
    hide RegistryOk, ConnectorsOk, SplicesOk, HasSender;
    if l in s.listeners {
      assert ListenerOk(s, l);
    }
  }

  lemma KeepsSplices(s: State, e: Event)
    requires Inv(s)
    ensures SplicesOk(Next(s, e))
  {
    hide RegistryOk, ConnectorsOk, ListenersOk, Next;
    var s' := Next(s, e);
    forall q | q in s.splices
      ensures TakenBy(s', q.1, q.0) && q.0 in s'.listeners
      ensures s'.listeners[q.0].phase.Splicing? || s'.listeners[q.0].phase == Over
    {
      SpliceStays(s, e, q);
    }
    NewSplice(s, e);
  }

  /** The list of splices grows only by a pair neither of whose ends is in it. */
  lemma NewSplice(s: State, e: Event)
    requires Inv(s)
    ensures var s' := Next(s, e);
            || s'.splices == s.splices
            || exists p ::
                 && s'.splices == s.splices + [p] && TakenBy(s', p.1, p.0)
                 && p.0 in s'.listeners && s'.listeners[p.0].phase.Splicing?
                 && forall q :: q in s.splices ==> q.0 != p.0 && q.1 != p.1
  {
    hide RegistryOk, ConnectorsOk, HasSender;
    if e.Unregister? && Enabled(s, e) {
      var p := (e.conn, s.listeners[e.conn].phase.sender);
      assert ListenerOk(s, e.conn);
      assert Next(s, e).splices == s.splices + [p];
      forall q | q in s.splices ensures q.0 != p.0 && q.1 != p.1 {
        assert TakenBy(s, q.1, q.0);
      }
    }
  }

  lemma SpliceStays(s: State, e: Event, q: (nat, nat))
    requires Inv(s) && q in s.splices
    ensures var s' := Next(s, e);
            && TakenBy(s', q.1, q.0) && q.0 in s'.listeners
            && (s'.listeners[q.0].phase.Splicing? || s'.listeners[q.0].phase == Over)
  {
    hide RegistryOk, ConnectorsOk, HasSender;
    assert TakenBy(s, q.1, q.0);
    if e.Receive? && Enabled(s, e) {
      assert ListenerOk(s, e.conn);
    }
  }

  lemma {:induction false} InvAlways(events: seq<Event>)
    ensures Inv(After(events))
  {
    if events != [] {
      var n := |events| - 1;
      InvAlways(events[..n]);
      KeepsRegistry(After(events[..n]), events[n]);
      KeepsConnectors(After(events[..n]), events[n]);
      KeepsListeners(After(events[..n]), events[n]);
      KeepsSplices(After(events[..n]), events[n]);
    }
  }

  // --- what each event does, one connection at a time -----------------------

  /** A sender moves on exactly like this: its own writes and sends, and the receive
      that finds it in the channel. A send to a listener that is over fails. */
  lemma SenderLaw(s: State, e: Event, c: nat)
    requires Inv(s) && c in s.connectors
    ensures var after := Next(s, e).connectors;
            c in after && after[c].target == s.connectors[c].target && SenderMoves(s, e, c, after[c].phase)
  {
    hide RegistryOk, SplicesOk, HasSender, ListenersOk, SenderMoves;
    if e.Receive? && Enabled(s, e) {
      ReceiveMoves(s, e.conn, c);
    } else {
      OthersMove(s, e, c);
    }
  }

  lemma OthersMove(s: State, e: Event, c: nat)
    requires Inv(s) && c in s.connectors && !(e.Receive? && Enabled(s, e))
    ensures var after := Next(s, e).connectors;
            c in after && after[c].target == s.connectors[c].target && SenderMoves(s, e, c, after[c].phase)
  {
    hide RegistryOk, SplicesOk, HasSender, ListenersOk;
  }

  lemma ReceiveMoves(s: State, l: nat, c: nat)
    requires Inv(s) && c in s.connectors && Enabled(s, Receive(l))
    ensures var after := Next(s, Receive(l)).connectors;
            && c in after && after[c].target == s.connectors[c].target
            && SenderMoves(s, Receive(l), c, after[c].phase)
  {
    hide RegistryOk, SplicesOk, HasSender;
    assert ListenerOk(s, l);
  }

  ghost predicate SenderMoves(s: State, e: Event, c: nat, phase: ConnectPhase)
    requires Inv(s) && c in s.connectors
  {
    match s.connectors[c].phase
    case Holding(l) => phase == if e == WriteOk(c) then Sending(l) else if e == WriteFails(c) then Gone else Holding(l)
    case Sending(l) =>
      phase == (if e != Send(c) then Sending(l)
                else if s.listeners[l].phase == Over then Gone
                else if s.listeners[l].queue == [] then Queued(l) else Sending(l))
    case Queued(l) =>
      phase == if e == Receive(l) && s.listeners[l].phase == Waiting && c in s.listeners[l].queue then Taken(l)
        else Queued(l)
    case Taken(l) => phase == Taken(l)
    case Gone => phase == Gone
  }

  /** And a listener like this: it receives, unregisters and splices, or finds its
      channel closed once nobody holds an end of it, and cleans up. */
  lemma ListenerLaw(s: State, e: Event, l: nat)
    requires Inv(s) && l in s.listeners
    ensures var after := Next(s, e).listeners;
            l in after && after[l].fingerprint == s.listeners[l].fingerprint && ListenerMoves(s, e, l, after[l].phase)
  {
    hide RegistryOk, ConnectorsOk, SplicesOk, HasSender, Held;
    assert ListenerOk(s, l);
    HeldExactly(s, l);
  }

  ghost predicate ListenerMoves(s: State, e: Event, l: nat, phase: ListenPhase)
    requires l in s.listeners
  {
    match s.listeners[l].phase
    case Waiting =>
      phase == (if e == Receive(l) && s.listeners[l].queue != [] then Paired(s.listeners[l].queue[0])
                else if e == ChannelClosed(l) && s.listeners[l].queue == [] && !Held(s, l) then Closing
                else Waiting)
    case Paired(c) => phase == if e == Unregister(l) then Splicing(c) else Paired(c)
    case Closing => phase == if e == CleanUp(l) then Over else Closing
    case Splicing(c) => phase == if e == SpliceEnds(l) then Over else Splicing(c)
    case Over => phase == Over
  }

  /** The registry still names the listener, or a sender that looked it up has yet
      to send. */
  ghost predicate Held(s: State, l: nat)
  {
    || (exists fp :: fp in s.registry && s.registry[fp] == l)
    || (exists c :: c in s.connectors && (s.connectors[c].phase == Holding(l) || s.connectors[c].phase == Sending(l)))
  }

  lemma HeldExactly(s: State, l: nat)
    ensures HasSender(s, l) <==> Held(s, l)
  {
  }

  /** New connections: a listener takes the key over, a sender gets hold of whoever
      has the key at that moment, if anybody. */
  lemma NewcomerLaw(s: State, conn: nat, fp: string)
    requires conn !in s.listeners && conn !in s.connectors
    ensures var after := Next(s, Listen(conn, fp));
            after.registry == s.registry[fp := conn] && after.listeners
              == s.listeners[conn := Listener(fp, Waiting, [])]
    ensures Next(s, Connect(conn, fp)).connectors
         == s.connectors[conn := Connector(fp, if fp in s.registry then Holding(s.registry[fp]) else Gone)]
    ensures Next(s, Connect(conn, fp)).registry == s.registry
  {
  }

  // --- which events took effect ----------------------------------------------

  /** Event `k` was a LISTEN for the key that took effect. */
  predicate Registers(events: seq<Event>, k: nat, fp: string)
    requires k < |events|
  {
    events[k].Listen? && events[k].fingerprint == fp && Enabled(After(events[..k]), events[k])
  }

  /** Event `k` was a CONNECT for the key that took effect. */
  predicate Asks(events: seq<Event>, k: nat, fp: string)
    requires k < |events|
  {
    events[k].Connect? && events[k].target == fp && Enabled(After(events[..k]), events[k])
  }

  /** Event `k` removes the key from the registry: some listener of that key
      cleans up, its own entry or not. */
  predicate Removes(events: seq<Event>, k: nat, fp: string)
    requires k < |events|
  {
    var s := After(events[..k]);
    && (events[k].Unregister? || events[k].CleanUp?) && Enabled(s, events[k])
    && s.listeners[events[k].conn].fingerprint == fp
  }

  /** Over every interleaving: a splice joins a sender that asked for a
      fingerprint with a listener that registered it. */
  lemma {:induction false} SplicesMatch(events: seq<Event>, l: nat, c: nat)
    requires (l, c) in After(events).splices
    ensures exists i, j, fp ::
              && 0 <= i < |events| && 0 <= j < |events| && Registers(events, i, fp) && events[i].conn == l
              && Asks(events, j, fp) && events[j].conn == c
  {
    InvAlways(events);
    var s := After(events);
    assert TakenBy(s, c, l);
    var i := ListenedAs(events, l);
    var j := AskedFor(events, c);
    var fp := s.listeners[l].fingerprint;
    assert Registers(events, i, fp) && events[i].conn == l;
    assert Asks(events, j, fp) && events[j].conn == c;
  }

  lemma {:induction false} ListenedAs(events: seq<Event>, l: nat) returns (i: nat)
    requires l in After(events).listeners
    ensures i < |events| && Registers(events, i, After(events).listeners[l].fingerprint) && events[i].conn == l
  {
    var n := |events| - 1;
    if l in After(events[..n]).listeners {
      i := ListenedAs(events[..n], l);
      assert events[..n][..i] == events[..i];
    } else {
      i := n;
    }
  }

  lemma {:induction false} AskedFor(events: seq<Event>, c: nat) returns (i: nat)
    requires c in After(events).connectors
    ensures i < |events| && Asks(events, i, After(events).connectors[c].target) && events[i].conn == c
  {
    var n := |events| - 1;
    if c in After(events[..n]).connectors {
      i := AskedFor(events[..n], c);
      assert events[..n][..i] == events[..i];
    } else {
      i := n;
    }
  }

  /** And no connection is ever in two splices, on either side. */
  lemma ConnectionsSplicedOnce(events: seq<Event>, i: nat, j: nat)
    requires i < j < |After(events).splices|
    ensures var (l, c) := After(events).splices[i];
            var (l', c') := After(events).splices[j];
            l != l' && l != c' && c != l' && c != c' && l != c && l' != c'
  {
    InvAlways(events);
    var s := After(events);
    assert s.splices[i] in s.splices && s.splices[j] in s.splices;
    assert TakenBy(s, s.splices[i].1, s.splices[i].0) && TakenBy(s, s.splices[j].1, s.splices[j].0);
  }

  // --- which waiting senders are ever spliced -------------------------------

  /** A queued sender is the one thing in its listener's channel. */
  ghost predicate QueuesOk(s: State)
  {
    forall c :: c in s.connectors && s.connectors[c].phase.Queued? ==>
      var l := s.connectors[c].phase.listener;
      l in s.listeners && s.listeners[l].queue == [c]
  }

  lemma QueueStep(s: State, e: Event)
    requires Inv(s) && QueuesOk(s)
    ensures QueuesOk(Next(s, e))
  {
    hide RegistryOk, SplicesOk, HasSender;
    if e.Receive? && Enabled(s, e) {
      assert ListenerOk(s, e.conn);
    }
  }

  lemma {:induction false} QueuesAlways(events: seq<Event>)
    ensures QueuesOk(After(events))
  {
    hide Next, Inv;
    if events != [] {
      var n := |events| - 1;
      QueuesAlways(events[..n]);
      InvAlways(events[..n]);
      QueueStep(After(events[..n]), events[n]);
    }
  }

  /** A sender that looked the listener up and has not been handed over: it was
      told "BRIDGE OK", or is about to be. */
  predicate Approaches(s: State, c: nat, l: nat)
  {
    c in s.connectors && s.connectors[c].phase in {Holding(l), Sending(l), Queued(l)}
  }

  /** The listener still waits, and nobody else is in its channel. */
  predicate WayIsFree(s: State, c: nat, l: nat)
  {
    ListenerIn(s, l, Waiting) && (s.listeners[l].queue == [] || s.listeners[l].queue == [c])
  }

  /** Too late: the sender has given up, or its way is not free any more. */
  ghost predicate Doomed(s: State, c: nat, l: nat)
  {
    && c in s.connectors && l in s.listeners
    && (s.connectors[c].phase == Gone || (Approaches(s, c, l) && !WayIsFree(s, c, l)))
  }

  lemma DoomedStays(s: State, e: Event, c: nat, l: nat)
    requires Inv(s) && QueuesOk(s) && Doomed(s, c, l)
    ensures Doomed(Next(s, e), c, l)
  {
    hide RegistryOk, ConnectorsOk, SplicesOk, HasSender;
    if e.Receive? && Enabled(s, e) {
      assert ListenerOk(s, e.conn);
    }
  }

  lemma {:induction false} DoomedForever(events: seq<Event>, more: seq<Event>, c: nat, l: nat)
    requires Doomed(After(events), c, l)
    ensures Doomed(After(events + more), c, l)
    decreases |more|
  {
    hide Next, Inv, Doomed, QueuesOk;
    if more == [] {
      assert events + more == events;
    } else {
      var n := |more| - 1;
      var all := events + more;
      assert all[..|all| - 1] == events + more[..n] && all[|all| - 1] == more[n];
      DoomedForever(events, more[..n], c, l);
      InvAlways(events + more[..n]);
      QueuesAlways(events + more[..n]);
      DoomedStays(After(events + more[..n]), more[n], c, l);
    }
  }

  lemma DoomedNotSpliced(s: State, c: nat, l: nat)
    requires Inv(s) && Doomed(s, c, l)
    ensures forall p :: p in s.splices ==> p.1 != c
  {
    forall p | p in s.splices ensures p.1 != c {
      assert TakenBy(s, p.1, p.0);
    }
  }

  /** For every run and every sender on its way to a listener: some continuation
      splices the two if and only if the listener still waits with nobody else in
      its channel. Otherwise no continuation splices the sender with anybody,
      "BRIDGE OK" or not. */
  lemma SplicedExactly(events: seq<Event>, c: nat, l: nat)
    requires Approaches(After(events), c, l)
    ensures WayIsFree(After(events), c, l) <==> exists more :: (l, c) in After(events + more).splices
    ensures !WayIsFree(After(events), c, l) ==>
              forall more, p :: p in After(events + more).splices ==> p.1 != c
  {
    hide After, Next, Inv, WayIsFree, Approaches;
    var s := After(events);
    InvAlways(events);
    ListenerExists(s, c, l);
    if WayIsFree(s, c, l) {
      var more := SpliceThem(events, c, l);
    } else {
      assert Doomed(s, c, l);
      forall more ensures forall p :: p in After(events + more).splices ==> p.1 != c {
        DoomedForever(events, more, c, l);
        InvAlways(events + more);
        DoomedNotSpliced(After(events + more), c, l);
      }
    }
  }

  lemma ListenerExists(s: State, c: nat, l: nat)
    requires Inv(s) && Approaches(s, c, l)
    ensures c in s.connectors && l in s.listeners
  {
  }

  /** One step further along a run. */
  lemma Continue(events: seq<Event>, more: seq<Event>, e: Event)
    ensures After(events + (more + [e])) == Next(After(events + more), e)
  {
    hide Next;
    assert events + (more + [e]) == (events + more) + [e];
    AfterStep(events + more, e);
  }

  /** The steps a sender whose way is free has yet to take. */
  function StepsLeft(phase: ConnectPhase, c: nat): seq<Event>
  {
    match phase
    case Holding(_) => [WriteOk(c), Send(c)]
    case Sending(_) => [Send(c)]
    case _ => []
  }

  lemma GetsQueued(events: seq<Event>, c: nat, l: nat)
    requires Approaches(After(events), c, l) && WayIsFree(After(events), c, l)
    ensures var steps := StepsLeft(After(events).connectors[c].phase, c);
            var s := After(events + steps);
            && c in s.connectors && s.connectors[c].phase == Queued(l)
            && ListenerIn(s, l, Waiting) && s.listeners[l].queue == [c]
  {
    hide After, HasSender;
    var s := After(events);
    QueuesAlways(events);
    InvAlways(events);
    QueueHolder(s, c, l);
    assert events + [] == events;
    if s.connectors[c].phase == Holding(l) {
      Continue(events, [], WriteOk(c));
      Continue(events, [WriteOk(c)], Send(c));
      assert [] + [WriteOk(c)] == [WriteOk(c)] && [WriteOk(c)] + [Send(c)] == [WriteOk(c), Send(c)];
    } else if s.connectors[c].phase == Sending(l) {
      Continue(events, [], Send(c));
      assert [] + [Send(c)] == [Send(c)];
    }
  }

  /** Whoever is in a channel is queued there. */
  lemma QueueHolder(s: State, c: nat, l: nat)
    requires Inv(s) && QueuesOk(s) && Approaches(s, c, l) && WayIsFree(s, c, l)
    ensures s.listeners[l].queue == [c] <==> s.connectors[c].phase == Queued(l)
  {
    assert ListenerOk(s, l);
  }

  lemma SpliceThem(events: seq<Event>, c: nat, l: nat) returns (more: seq<Event>)
    requires Approaches(After(events), c, l) && WayIsFree(After(events), c, l)
    ensures (l, c) in After(events + more).splices
  {
    hide After, HasSender, StepsLeft;
    var steps := StepsLeft(After(events).connectors[c].phase, c);
    GetsQueued(events, c, l);
    Continue(events, steps, Receive(l));
    Continue(events, steps + [Receive(l)], Unregister(l));
    more := steps + [Receive(l)] + [Unregister(l)];
  }

  // --- the registry as a function of the run --------------------------------

  /** Event `i` registered the key, and since then it was neither registered
      again nor removed. */
  ghost predicate LastRegistered(events: seq<Event>, i: nat, fp: string)
  {
    && i < |events| && Registers(events, i, fp)
    && forall k :: i < k < |events| ==> !Registers(events, k, fp) && !Removes(events, k, fp)
  }

  lemma PrefixAgrees(events: seq<Event>, fp: string)
    requires events != []
    ensures var n := |events| - 1;
            forall k :: 0 <= k < n ==>
              && (Registers(events[..n], k, fp) <==> Registers(events, k, fp))
              && (Removes(events[..n], k, fp) <==> Removes(events, k, fp))
  {
    hide After, Enabled;
    var n := |events| - 1;
    assert forall k :: 0 <= k < n ==> events[..n][..k] == events[..k];
  }

  /** A key is in the registry exactly when, since a listener last registered it,
      no listener of that key has cleaned up; and then it names that listener.
      In particular a newer listener loses its entry to an older one's clean-up. */
  lemma {:induction false} RegistryIsLastListen(events: seq<Event>, fp: string) returns (i: nat)
    ensures fp in After(events).registry <==> LastRegistered(events, i, fp)
    ensures fp in After(events).registry ==> After(events).registry[fp] == events[i].conn
    ensures forall j :: LastRegistered(events, j, fp) ==> j == i
  {
    i := 0;
    if events != [] {
      var n := |events| - 1;
      PrefixAgrees(events, fp);
      if Registers(events, n, fp) {
        i := n;
      } else {
        i := RegistryIsLastListen(events[..n], fp);
        RegistryStep(events, fp);
        forall j: nat | LastRegistered(events, j, fp) ensures LastRegistered(events[..n], j, fp) {
          assert j < n;
        }
        if i < n && fp !in After(events).registry {
          assert !LastRegistered(events, i, fp);
        }
      }
    }
  }

  lemma RegistryStep(events: seq<Event>, fp: string)
    requires events != []
    ensures var n := |events| - 1;
            var s, s' := After(events[..n]), After(events);
            if Registers(events, n, fp) then fp in s'.registry && s'.registry[fp] == events[n].conn
            else if Removes(events, n, fp) then fp !in s'.registry
            else (fp in s'.registry <==> fp in s.registry) && (fp in s.registry ==> s'.registry[fp] == s.registry[fp])
  {
  }

  /** A listener of the key that registered before event `i`. */
  predicate Older(events: seq<Event>, i: nat, conn: nat, fp: string)
    requires i < |events|
  {
    exists j :: 0 <= j < i && Registers(events, j, fp) && events[j].conn == conn
  }

  /** For the newest listener of a key, as long as it is still waiting: it is the
      registered one if and only if no older listener of the key has cleaned up
      since it registered. */
  lemma NewestListenerRegistered(events: seq<Event>, i: nat, fp: string)
    requires i < |events| && Registers(events, i, fp)
    requires forall k :: i < k < |events| ==> !Registers(events, k, fp)
    requires ListenerIn(After(events), events[i].conn, Waiting)
    ensures (fp in After(events).registry && After(events).registry[fp] == events[i].conn) <==>
            !exists k :: i < k < |events| && Removes(events, k, fp) && Older(events, i, events[k].conn, fp)
  {
    hide After, Enabled, Removes, Registers;
    var last := RegistryIsLastListen(events, fp);
    forall k | i < k < |events| && Removes(events, k, fp) ensures Older(events, i, events[k].conn, fp) {
      RemoverIsOlder(events, i, k, fp);
    }
    assert LastRegistered(events, i, fp) ==> i == last;
    if LastRegistered(events, last, fp) {
      assert last == i;
    } else {
      var k :| i < k < |events| && Removes(events, k, fp);
      assert Older(events, i, events[k].conn, fp);
    }
  }

  lemma RemoverIsOlder(events: seq<Event>, i: nat, k: nat, fp: string)
    requires i < k < |events| && Registers(events, i, fp) && Removes(events, k, fp)
    requires forall j :: i < j < |events| ==> !Registers(events, j, fp)
    requires ListenerIn(After(events), events[i].conn, Waiting)
    ensures Older(events, i, events[k].conn, fp)
  {
    var l := events[k].conn;
    assert !ListenerIn(After(events[..k]), l, Waiting);
    hide After;
    NotWaitingAgain(events, k, l);
    var j := ListenedAs(events[..k], l);
    assert events[..k][..j] == events[..j];
    assert Registers(events, j, fp);
  }

  lemma {:induction false} NotWaitingAgain(events: seq<Event>, k: nat, l: nat)
    requires k <= |events| && l in After(events[..k]).listeners && !ListenerIn(After(events[..k]), l, Waiting)
    ensures l in After(events).listeners && !ListenerIn(After(events), l, Waiting)
    decreases |events|
  {
    hide Next;
    if k == |events| {
      assert events[..k] == events;
    } else {
      var n := |events| - 1;
      assert events[..n][..k] == events[..k];
      NotWaitingAgain(events[..n], k, l);
      PhasesMoveOn(After(events[..n]), events[n], l);
    }
  }

  lemma PhasesMoveOn(s: State, e: Event, l: nat)
    requires l in s.listeners && !ListenerIn(s, l, Waiting)
    ensures l in Next(s, e).listeners && !ListenerIn(Next(s, e), l, Waiting)
  {
    hide HasSender;
  }

  /** The older listener 1 is handed sender 2; before it cleans up, listener 3
      registers the same key; the clean-up then takes 3's entry away although 3
      is still waiting. */
  lemma NewestListenerCanBeUnregistered(fp: string)
    ensures var events :=
              [Listen(1, fp), Connect(2, fp), WriteOk(2), Send(2), Receive(1), Listen(3, fp), Unregister(1)];
            fp !in After(events).registry && ListenerIn(After(events), 3, Waiting)
  {
    var e1, e2, e3, e4 := Listen(1, fp), Connect(2, fp), WriteOk(2), Send(2);
    var e5, e6, e7 := Receive(1), Listen(3, fp), Unregister(1);
    AfterStep([], e1);
    AfterStep([e1], e2);
    AfterStep([e1, e2], e3);
    AfterStep([e1, e2, e3], e4);
    AfterStep([e1, e2, e3, e4], e5);
    AfterStep([e1, e2, e3, e4, e5], e6);
    AfterStep([e1, e2, e3, e4, e5, e6], e7);
    hide After;
    assert [e1] == [] + [e1] && [e1, e2] == [e1] + [e2] && [e1, e2, e3] == [e1, e2] + [e3];
    assert [e1, e2, e3, e4] == [e1, e2, e3] + [e4] && [e1, e2, e3, e4, e5] == [e1, e2, e3, e4] + [e5];
    assert [e1, e2, e3, e4, e5, e6] == [e1, e2, e3, e4, e5] + [e6];
    assert [e1, e2, e3, e4, e5, e6, e7] == [e1, e2, e3, e4, e5, e6] + [e7];
    SevenSteps(fp);
  }

  lemma AfterStep(events: seq<Event>, e: Event)
    ensures After(events + [e]) == Next(After(events), e)
    ensures After([]) == EMPTY
  {
    assert (events + [e])[..|events|] == events;
  }

  lemma SevenSteps(fp: string)
    ensures var s4 := Next(Next(Next(Next(EMPTY, Listen(1, fp)), Connect(2, fp)), WriteOk(2)), Send(2));
            var s7 := Next(Next(Next(s4, Receive(1)), Listen(3, fp)), Unregister(1));
            fp !in s7.registry && ListenerIn(s7, 3, Waiting)
  {
    hide Next;
    FourSteps(fp);
    var s4 := Next(Next(Next(Next(EMPTY, Listen(1, fp)), Connect(2, fp)), WriteOk(2)), Send(2));
    LastSteps(s4, fp);
  }

  lemma FourSteps(fp: string)
    ensures var s4 := Next(Next(Next(Next(EMPTY, Listen(1, fp)), Connect(2, fp)), WriteOk(2)), Send(2));
            && s4.listeners == map[1 := Listener(fp, Waiting, [2])]
            && s4.connectors == map[2 := Connector(fp, Queued(1))]
  {
    hide HasSender;
    var s2 := Next(Next(EMPTY, Listen(1, fp)), Connect(2, fp));
    assert s2.connectors == map[2 := Connector(fp, Holding(1))];
    assert s2.listeners == map[1 := Listener(fp, Waiting, [])];
  }

  lemma LastSteps(s4: State, fp: string)
    requires s4.listeners == map[1 := Listener(fp, Waiting, [2])] && s4.connectors == map[2 := Connector(fp, Queued(1))]
    ensures var s7 := Next(Next(Next(s4, Receive(1)), Listen(3, fp)), Unregister(1));
            fp !in s7.registry && ListenerIn(s7, 3, Waiting)
  {
    hide HasSender;
    var s5 := Next(s4, Receive(1));
    assert [2][1..] == [];
    assert s5.listeners == map[1 := Listener(fp, Paired(2), [])];
  }
}
