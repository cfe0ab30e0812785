/** One transfer between two actors that are busy with other things as well: the
    sender's run and the receiver's run, each with any other traffic in between. */
module TransferRuns {
  import opened Bytes
  import opened SessionModel
  import opened SessionRuns
  import opened SendDriver
  import opened TransferEnds

  // --- a session without what only informs ----------------------------------

  /** The session apart from its events and route labels. */
  function Core(s: Session): Session
  {
    s.(events := [], viaRelay := false, route := "")
  }

  /** Messages that only inform. */
  predicate Quiet(m: Message) { m.ReportProgress? || m.MarkViaRelay? || m.MarkRoute? }

  lemma CoreFinish(s: Session)
    ensures Core(CheckFinish(s)) == Core(CheckFinish(Core(s)))
  {
    assert s.Done() == Core(s).Done();
  }

  lemma CoreMark(s: Session, f: string, st: FileState)
    ensures Core(MarkFile(s, f, st)) == Core(MarkFile(Core(s), f, st))
  {
  }

  lemma CoreFail(s: Session, reason: string)
    ensures Core(FailSession(s, reason)) == Core(FailSession(Core(s), reason))
  {
  }

  lemma CoreFileState(s: Session, f: string, st: FileState)
    ensures Core(SetFileState(s, f, st)) == Core(SetFileState(Core(s), f, st))
  {
    hide MarkFile, CheckFinish, FailSession;
    CoreMark(s, f, st);
    var t, u := MarkFile(s, f, st), MarkFile(Core(s), f, st);
    if st.Fail? {
      CoreFail(t, st.msg);
      CoreFail(u, st.msg);
    } else {
      CoreFinish(t);
      CoreFinish(u);
    }
  }

  lemma CoreAccept(s: Session, fileIds: Option<seq<string>>, order: seq<string>)
    ensures Core(CheckFinish(AcceptSession(s, fileIds, order)))
         == Core(CheckFinish(AcceptSession(Core(s), fileIds, order)))
  {
    hide CheckFinish, SkipEvents, SkippedOf, AcceptedFiles, AcceptedTokens;
    var t, u := AcceptSession(s, fileIds, order), AcceptSession(Core(s), fileIds, order);
    CoreAcceptFiles(s, fileIds);
    assert Core(t) == Core(u);
    CoreFinish(t);
    CoreFinish(u);
  }

  lemma CoreAcceptFiles(s: Session, fileIds: Option<seq<string>>)
    ensures AcceptedFiles(Core(s), fileIds) == AcceptedFiles(s, fileIds)
    ensures AcceptedTokens(Core(s), fileIds) == AcceptedTokens(s, fileIds)
  {
  }

  lemma CoreStart(s: Session, token: string)
    ensures Startable(Core(s), token) == Startable(s, token)
  {
  }

  /** What a message does to the core depends on the core alone. */
  lemma CoreStep(s: Session, m: Message)
    requires !m.Creates()
    ensures Core(OnSession(s, m)) == Core(OnSession(Core(s), m))
    ensures Quiet(m) ==> Core(OnSession(s, m)) == Core(s)
  {
    hide CheckFinish, AcceptSession, SetFileState, FailSession, MarkFile, Startable, CancelSession, DeclineSession,
         SetState;
    match m {
      case Accept(_, fileIds, order) =>
        CoreAccept(s, fileIds, order);
        CoreFinish(s);
      case StartFile(_, token) =>
        CoreStart(s, token);
        if Startable(s, token).Ok? {
          CoreMark(s, Startable(s, token).value, Transfer);
        }
      case FinishFile(_, token, st) =>
        if token in s.tokenIndex {
          CoreFileState(s, s.tokenIndex[token], st);
        }
      case ReportFileState(_, f, st) => CoreFileState(s, f, st);
      case FailMsg(_, reason) => CoreFail(s, reason);
      case _ => CoreSimple(s, m);
    }
  }

  lemma CoreSimple(s: Session, m: Message)
    requires Quiet(m) || m.Decline? || m.Cancel? || m.ReportState?
    ensures Core(OnSession(s, m)) == Core(OnSession(Core(s), m))
    ensures Quiet(m) ==> Core(OnSession(s, m)) == Core(s)
  {
  }

  /** The messages that concern one session and do more than inform. */
  function Addressed(msgs: seq<Message>, id: string): (r: seq<Message>)
    ensures forall m :: m in r ==> !m.Creates()
  {
    if msgs == [] then []
    else
      var m := msgs[0];
      (if m.id == id && !m.Creates() && !Quiet(m) then [m] else []) + Addressed(msgs[1..], id)
  }

  /** For every session and every run: the core ends where the messages addressed
      to the session alone would take it. */
  lemma {:induction false} CoreProjection(w: World, msgs: seq<Message>, id: string, t: Session)
    requires Legal(w, msgs) && id in w.sessions && Core(t) == Core(w.sessions[id])
    ensures id in Run(w, msgs).sessions && Core(Run(w, msgs).sessions[id]) == Core(Drive(t, Addressed(msgs, id)))
    decreases |msgs|
  {
    hide OnSession, Core;
    if msgs != [] {
      var m := msgs[0];
      var w' := Next(w, m);
      var rest := Addressed(msgs[1..], id);
      if m.id != id {
        OthersUntouched(w, m, id);
        assert Addressed(msgs, id) == rest;
        CoreProjection(w', msgs[1..], id, t);
      } else {
        CoreStep(w.sessions[id], m);
        CoreStep(t, m);
        if Quiet(m) {
          assert Addressed(msgs, id) == rest;
          CoreProjection(w', msgs[1..], id, t);
        } else {
          assert Addressed(msgs, id) == [m] + rest && ([m] + rest)[1..] == rest;
          CoreProjection(w', msgs[1..], id, OnSession(t, m));
        }
      }
    }
  }

  // --- decisions are final --------------------------------------------------

  lemma {:induction false} DecisionsFinal(s: Session, msgs: seq<Message>)
    requires !s.waiting && forall m :: m in msgs ==> !m.Creates()
    ensures Drive(s, msgs).decisions == s.decisions
    decreases |msgs|
  {
    hide OnSession;
    if msgs != [] {
      assert msgs[0] in msgs;
      KeptByAll(s, msgs[0]);
      NotWaitingStep(s, msgs[0]);
      DecisionsFinal(OnSession(s, msgs[0]), msgs[1..]);
    }
  }

  lemma NotWaitingStep(s: Session, m: Message)
    requires !s.waiting && !m.Creates()
    ensures !OnSession(s, m).waiting
  {
    hide SkipEvents, SkippedOf, AcceptedTokens, AcceptedFiles, MarkFile, CheckFinish, SetFileState, Startable;
    CheckFinishFrame(s);
    match m {
      case Accept(_, fileIds, order) => CheckFinishFrame(AcceptSession(s, fileIds, order));
      case StartFile(_, token) =>
        if Startable(s, token).Ok? { MarkFileEffect(s, Startable(s, token).value, Transfer); }
      case FinishFile(_, token, st) =>
        if token in s.tokenIndex { NotWaitingFile(s, s.tokenIndex[token], st); }
      case ReportFileState(_, f, st) => NotWaitingFile(s, f, st);
      case _ =>
    }
  }

  lemma NotWaitingFile(s: Session, f: string, st: FileState)
    requires !s.waiting
    ensures !SetFileState(s, f, st).waiting
  {
    hide MarkFile, CheckFinish;
    MarkFileEffect(s, f, st);
    CheckFinishFrame(MarkFile(s, f, st));
  }

  // --- two actors -----------------------------------------------------------

  /** The sender's side of a run: the session is created, and its driver reports
      what came of the response. */
  ghost predicate SenderRun(
    w: World, msgs: seq<Message>, id: string, peer: Peer, entries: seq<(string, FileInfo)>, response: Response,
    broken: map<string, Break>)
  {
    && Legal(w, [CreateSend(id, peer, entries)] + msgs)
    && Moving(msgs, id) == Reports(id, entries, response, Errors(broken))
  }

  /** The receiver's side: the session is created within the limit, its user
      accepts a choice of files, and the uploads arrive or break. */
  ghost predicate ReceiverRun(
    w: World, msgs: seq<Message>, create: Message, fileIds: Option<seq<string>>, order: seq<string>, response: Response,
    broken: map<string, Break>)
  {
    && create.CreateRecv? && Legal(w, [create] + msgs) && |ActiveReceives(w)| < w.maxRecv
    && Addressed(msgs, create.id)
       == [Accept(create.id, fileIds, order)] + ReceiverHears(create.id, create.offered.Keys, response, broken)
  }

  lemma SenderSideOfRun(
    w: World, msgs: seq<Message>, id: string, peer: Peer, entries: seq<(string, FileInfo)>, response: Response,
    broken: map<string, Break>)
    requires SenderRun(w, msgs, id, peer, entries, response, broken)
    ensures FreshSend(NewSend(CreateSend(id, peer, entries)), entries)
    ensures var after := Run(w, [CreateSend(id, peer, entries)] + msgs).sessions;
            var t := Drive(NewSend(CreateSend(id, peer, entries)), Reports(id, entries, response, Errors(broken)));
            id in after && after[id].files == t.files && after[id].state == t.state
  {
    hide Moving, Reports, SessionOk, OnSession, NewSend, Drive, Run, Legal;
    var create := CreateSend(id, peer, entries);
    RunHead(w, create, msgs);
    CreatedFresh(create);
    Projection(Next(w, create), msgs, id, NewSend(create));
  }

  lemma ReceiverSideOfRun(
    w: World, msgs: seq<Message>, create: Message, fileIds: Option<seq<string>>, order: seq<string>, response: Response,
    broken: map<string, Break>)
    requires ReceiverRun(w, msgs, create, fileIds, order, response, broken)
    ensures Plausible(w, create) && SessionOk(NewReceive(create), iset{}) && PendingReceive(NewReceive(create))
    ensures NewReceive(create).id == create.id && NewReceive(create).files.Keys == create.offered.Keys
    ensures var r := OnSession(NewReceive(create), Accept(create.id, fileIds, order));
            var t := Drive(r, ReceiverHears(create.id, create.offered.Keys, response, broken));
            var after := Run(w, [create] + msgs).sessions;
            && create.id in after && after[create.id].files == t.files && after[create.id].state == t.state
            && after[create.id].decisions == r.decisions
  {
    hide OnSession, Drive, Run, Legal, ReceiverHears, Addressed, SessionOk;
    var id := create.id;
    RunHead(w, create, msgs);
    var r0 := NewReceive(create);
    NewReceiveOk(create);
    assert r0.files.Keys == create.offered.Keys;
    CoreProjection(Next(w, create), msgs, id, r0);
    var accept := Accept(id, fileIds, order);
    var hears := ReceiverHears(id, create.offered.Keys, response, broken);
    DriveHead(r0, accept, hears);
    Answered(r0, fileIds, order);
    DecisionsFinal(OnSession(r0, accept), hears);
  }

  lemma DriveHead(s: Session, m: Message, rest: seq<Message>)
    requires !m.Creates() && forall x :: x in rest ==> !x.Creates()
    ensures Drive(s, [m] + rest) == Drive(OnSession(s, m), rest)
  {
    hide OnSession;
    assert ([m] + rest)[1..] == rest;
  }

  lemma Answered(r: Session, fileIds: Option<seq<string>>, order: seq<string>)
    requires PendingReceive(r)
    ensures !OnSession(r, Accept(r.id, fileIds, order)).waiting
  {
    hide SkipEvents, SkippedOf, AcceptedTokens, AcceptedFiles;
  }

  /** The two ends of one transfer, in any run of the sending actor and any run of
      the receiving actor: the response lists what the receiver's session handed
      out, and from there on both sessions end as `EndTogether` says, whatever else
      the two actors are doing. */
  lemma TransferAcrossRuns(
    ws: World, sent: seq<Message>, sid: string, peer: Peer, entries: seq<(string, FileInfo)>,
    wr: World, heard: seq<Message>, create: Message, fileIds: Option<seq<string>>, order: seq<string>,
    given: map<string, string>, response: Response, broken: map<string, Break>)
    requires SenderRun(ws, sent, sid, peer, entries, response, broken) && entries != []
    requires ReceiverRun(wr, heard, create, fileIds, order, response, broken)
    requires create.offered.Keys == Offered(entries) && AllValid(broken)
    requires create.id in Run(wr, [create] + heard).sessions
    requires Run(wr, [create] + heard).sessions[create.id].decisions == [Accepted(given)] && Lists(response, given)
    ensures sid in Run(ws, [CreateSend(sid, peer, entries)] + sent).sessions
    ensures EndTogether(Offered(entries),
                        Run(ws, [CreateSend(sid, peer, entries)] + sent).sessions[sid],
                        Run(wr, [create] + heard).sessions[create.id],
                        fileIds, response, broken)
  {
    hide Run, Legal, Drive, OnSession, Reports, ReceiverHears, EndTogether, SessionOk, Lists, AllValid, SendOk, Errors,
         Moving, Addressed, NewReceive, NewSend;
    SenderSideOfRun(ws, sent, sid, peer, entries, response, broken);
    ReceiverSideOfRun(wr, heard, create, fileIds, order, response, broken);
    var s, r := NewSend(CreateSend(sid, peer, entries)), NewReceive(create);
    SendId(CreateSend(sid, peer, entries));
    BothEnds(s, entries, r, fileIds, order, given, response, broken);
    EndsAlike(Offered(entries),
              Drive(s, Reports(sid, entries, response, Errors(broken))),
              Run(ws, [CreateSend(sid, peer, entries)] + sent).sessions[sid],
              Drive(OnSession(r, Accept(r.id, fileIds, order)),
                    ReceiverHears(r.id, Offered(entries), response, broken)),
              Run(wr, [create] + heard).sessions[create.id], fileIds, response, broken);
  }

  lemma SendId(m: Message)
    requires m.CreateSend?
    ensures NewSend(m).id == m.id
  {
  }

  lemma EndsAlike(
    files: set<string>, s: Session, s': Session, r: Session, r': Session, fileIds: Option<seq<string>>,
    response: Response, broken: map<string, Break>)
    requires EndTogether(files, s, r, fileIds, response, broken)
    requires s'.files == s.files && s'.state == s.state && r'.files == r.files && r'.state == r.state
    ensures EndTogether(files, s', r', fileIds, response, broken)
  {
    hide FirstBroken, Chosen, AllOrNone, FileAfter;
  }
}
