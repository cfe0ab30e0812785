/** Transfer sessions: their data, what each message does to one session, and
    the actor's world of sessions as a step function over messages. */
module SessionModel {
  import opened Bytes

  datatype MissionState = Idle | Pending | Transfering | Finished | Failed | Canceled | Busy

  datatype FileState = FilePending | Transfer | Finish | Skip | Fail(msg: string) {
    predicate IsTerminal() { Finish? || Skip? || Fail? }
    /** What counts towards finishing a session. */
    predicate IsSettled() { Finish? || Skip? }
  }

  datatype Direction = Send | Receive

  datatype Peer = Peer(alias: string, address: string, port: nat, fingerprint: string)

  datatype FileInfo = FileInfo(
    id: string, fileName: string, size: int, fileType: string, sha256: Option<string>, preview: Option<bytes>)

  datatype FileEntry = FileEntry(token: Option<string>, info: FileInfo, state: FileState)

  datatype SessionEvent =
    | StateChanged(state: MissionState)
    | FileStateChanged(fileId: string, fileState: FileState)
    | Progress(progressId: string, count: nat)
    | FailedWith(reason: string)

  /** What the waiting prepare-upload request is told. */
  datatype Decision = Accepted(files: map<string, string>) | Declined | Aborted

  datatype SessionError = TooMany | NotFound | InvalidState | UnknownFile

  /** `waiting` is the decision slot; `decisions` the decisions sent through it;
      `tripped` the cancellation token; `events` everything sent to observers. */
  datatype Session = Session(
    id: string, direction: Direction, peer: Peer, state: MissionState, viaRelay: bool, route: string,
    files: map<string, FileEntry>, tokenIndex: map<string, string>,
    waiting: bool, decisions: seq<Decision>, tripped: bool, events: seq<SessionEvent>)
  {
    predicate Active() { state == Pending || state == Transfering }

    function Emit(e: SessionEvent): Session { this.(events := events + [e]) }

    function Decide(d: Decision): Session
    {
      if waiting then this.(waiting := false, decisions := decisions + [d]) else this
    }

    function WithFile(f: string, st: FileState): Session
      requires f in files
    {
      this.(files := files[f := files[f].(state := st)])
    }

    predicate Done()
    {
      Active() && files.Keys != {} && forall f :: f in files ==> files[f].state.IsSettled()
    }
  }

  // --- the actor's operations on one session --------------------------------

  function SetState(s: Session, st: MissionState): Session
  {
    if !s.Active() then s else s.(state := st).Emit(StateChanged(st))
  }

  function CheckFinish(s: Session): Session
  {
    if s.Done() then SetState(s, Finished) else s
  }

  function FailSession(s: Session, reason: string): Session
  {
    if !s.Active() then s
    else s.(state := Failed, tripped := true).Emit(StateChanged(Failed)).Emit(FailedWith(reason)).Decide(Aborted)
  }

  function CancelSession(s: Session): Session
  {
    if !s.Active() then s
    else s.(state := Canceled, tripped := true).Emit(StateChanged(Canceled)).Decide(Aborted)
  }

  /** The file entry and its event; nothing for an unknown file. */
  function MarkFile(s: Session, f: string, st: FileState): Session
  {
    if f in s.files then s.WithFile(f, st).Emit(FileStateChanged(f, st)) else s
  }

  function SetFileState(s: Session, f: string, st: FileState): Session
  {
    if !s.Active() then s
    else if st.Fail? then FailSession(MarkFile(s, f, st), st.msg)
    else CheckFinish(MarkFile(s, f, st))
  }

  predicate PendingReceive(s: Session) { s.direction == Receive && s.state == Pending }

  predicate Chosen(fileIds: Option<seq<string>>, f: string) { fileIds.None? || f in fileIds.value }

  function SkippedOf(order: seq<string>, fileIds: Option<seq<string>>): seq<string>
  {
    if order == [] then []
    else (if Chosen(fileIds, order[0]) then [] else [order[0]]) + SkippedOf(order[1..], fileIds)
  }

  function SkipEvents(skipped: seq<string>): seq<SessionEvent>
  {
    if skipped == [] then [] else [FileStateChanged(skipped[0], Skip)] + SkipEvents(skipped[1..])
  }

  function AcceptedTokens(s: Session, fileIds: Option<seq<string>>): map<string, string>
  {
    map f | f in s.files && Chosen(fileIds, f) && s.files[f].token.Some? :: s.files[f].token.value
  }

  function AcceptedFiles(s: Session, fileIds: Option<seq<string>>): map<string, FileEntry>
  {
    map f | f in s.files :: if Chosen(fileIds, f) then s.files[f] else s.files[f].(state := Skip)
  }

  /** `order` is the order in which the hash map yields the files. */
  function AcceptSession(s: Session, fileIds: Option<seq<string>>, order: seq<string>): Session
  {
    s.(files := AcceptedFiles(s, fileIds), state := Transfering,
       events := s.events + SkipEvents(SkippedOf(order, fileIds)) + [StateChanged(Transfering)])
    .Decide(Accepted(AcceptedTokens(s, fileIds)))
  }

  function DeclineSession(s: Session): Session
  {
    s.(state := Canceled, tripped := true).Emit(StateChanged(Canceled)).Decide(Declined)
  }

  /** The file an upload token opens, or why it does not. */
  function Startable(s: Session, token: string): Result<string, SessionError>
  {
    if s.direction != Receive || s.state != Transfering then Err(InvalidState)
    else if token !in s.tokenIndex then Err(UnknownFile)
    else if s.tokenIndex[token] !in s.files then Err(UnknownFile)
    else if s.files[s.tokenIndex[token]].state.IsTerminal() then Err(InvalidState)
    else Ok(s.tokenIndex[token])
  }

  // --- messages -------------------------------------------------------------

  /** `CreateRecv` carries the identifiers the actor draws; `Accept` the order in
      which it meets the files. */
  datatype Message =
    | CreateRecv(id: string, peer: Peer, offered: map<string, FileInfo>, tokens: map<string, string>)
    | CreateSend(id: string, peer: Peer, entries: seq<(string, FileInfo)>)
    | Accept(id: string, fileIds: Option<seq<string>>, order: seq<string>)
    | Decline(id: string)
    | Cancel(id: string)
    | MarkViaRelay(id: string)
    | MarkRoute(id: string, newRoute: string)
    | StartFile(id: string, token: string)
    | FinishFile(id: string, token: string, fileState: FileState)
    | ReportProgress(id: string, fileId: string, count: nat)
    | ReportFileState(id: string, fileId: string, fileState: FileState)
    | ReportState(id: string, state: MissionState)
    | FailMsg(id: string, reason: string)
  {
    predicate Creates() { CreateRecv? || CreateSend? }
  }

  /** A message to an existing session. */
  function OnSession(s: Session, m: Message): Session
    requires !m.Creates()
  {
    match m
    case Accept(_, fileIds, order) => if PendingReceive(s) then CheckFinish(AcceptSession(s, fileIds, order))
      else CheckFinish(s)
    case Decline(_) => if PendingReceive(s) then DeclineSession(s) else s
    case Cancel(_) => CancelSession(s)
    case MarkViaRelay(_) => s.(viaRelay := true, route := if s.route == "local" then "turn" else s.route)
    case MarkRoute(_, r) => s.(route := r)
    case StartFile(_, token) =>
      (match Startable(s, token) case Ok(f) => MarkFile(s, f, Transfer) case Err(_) => s)
    case FinishFile(_, token, st) =>
      if token in s.tokenIndex then SetFileState(s, s.tokenIndex[token], st) else s
    case ReportProgress(_, f, n) => s.Emit(Progress(f, n))
    case ReportFileState(_, f, st) => SetFileState(s, f, st)
    case ReportState(_, st) => SetState(s, st)
    case FailMsg(_, reason) => FailSession(s, reason)
  }

  datatype World = World(sessions: map<string, Session>, maxRecv: nat)

  predicate ActiveReceive(s: Session) { s.direction == Receive && s.Active() }

  function ActiveReceives(w: World): set<string>
  {
    set id | id in w.sessions && ActiveReceive(w.sessions[id])
  }

  function NewReceive(m: Message): Session
    requires m.CreateRecv? && m.tokens.Keys == m.offered.Keys && Injective(m.tokens)
  {
    Session(m.id, Receive, m.peer, Pending, false, "local",
            map f | f in m.offered :: FileEntry(Some(m.tokens[f]), m.offered[f], FilePending),
            map f | f in m.offered :: m.tokens[f] := f,
            true, [], false, [StateChanged(Pending)])
  }

  /** Later entries win, as in a hash map. */
  function Collect(entries: seq<(string, FileInfo)>): map<string, FileEntry>
  {
    if entries == [] then map[]
    else
      var (f, info) := entries[|entries| - 1];
      Collect(entries[..|entries| - 1])[f := FileEntry(None, info, FilePending)]
  }

  function NewSend(m: Message): Session
    requires m.CreateSend?
  {
    Session(m.id, Send, m.peer, Pending, false, "local", Collect(m.entries), map[],
            false, [], false, [StateChanged(Pending)])
  }

  predicate Injective(m: map<string, string>)
  {
    forall a, b :: a in m && b in m && m[a] == m[b] ==> a == b
  }

  predicate NoDup(s: seq<string>) { forall i, j :: 0 <= i < j < |s| ==> s[i] != s[j] }

  predicate Enumerates(order: seq<string>, keys: set<string>)
  {
    NoDup(order) && (forall k :: k in keys ==> k in order) && (forall k :: k in order ==> k in keys)
  }

  /** What the runtime guarantees: fresh identifiers, distinct tokens, and an
      iteration order that visits every file once. */
  predicate Plausible(w: World, m: Message)
  {
    match m
    case CreateRecv(id, _, offered, tokens) => id !in w.sessions && tokens.Keys == offered.Keys && Injective(tokens)
    case CreateSend(id, _, _) => id !in w.sessions
    case Accept(id, _, order) => id in w.sessions ==> Enumerates(order, w.sessions[id].files.Keys)
    case _ => true
  }

  function Next(w: World, m: Message): World
    requires Plausible(w, m)
  {
    match m
    case CreateRecv(id, _, _, _) =>
      if |ActiveReceives(w)| >= w.maxRecv then w else w.(sessions := w.sessions[id := NewReceive(m)])
    case CreateSend(id, _, _) => w.(sessions := w.sessions[id := NewSend(m)])
    case _ => if m.id in w.sessions then w.(sessions := w.sessions[m.id := OnSession(w.sessions[m.id], m)]) else w
  }

  /** What the sender of the message is told. */
  datatype Reply =
    | NoReply
    | Created(r: Result<string, SessionError>)
    | Outcome(o: Result<(), SessionError>)
    | Started(t: Result<(string, FileInfo), SessionError>)

  function ReplyTo(w: World, m: Message): Reply
    requires Plausible(w, m)
  {
    match m
    case CreateRecv(id, _, _, _) => Created(if |ActiveReceives(w)| >= w.maxRecv then Err(TooMany) else Ok(id))
    case CreateSend(id, _, _) => Created(Ok(id))
    case Accept(id, _, _) => Outcome(DecisionOutcome(w, id))
    case Decline(id) => Outcome(DecisionOutcome(w, id))
    case StartFile(id, token) =>
      if id !in w.sessions then Started(Err(NotFound))
      else (match Startable(w.sessions[id], token)
            case Err(e) => Started(Err(e))
            case Ok(f) => Started(Ok((f, w.sessions[id].files[f].info))))
    case _ => NoReply
  }

  function DecisionOutcome(w: World, id: string): Result<(), SessionError>
  {
    if id !in w.sessions then Err(NotFound)
    else if !PendingReceive(w.sessions[id]) then Err(InvalidState)
    else Ok(())
  }

  // --- runs -----------------------------------------------------------------

  predicate Legal(w: World, msgs: seq<Message>)
    decreases |msgs|
  {
    msgs == [] || (Plausible(w, msgs[0]) && Legal(Next(w, msgs[0]), msgs[1..]))
  }

  function Run(w: World, msgs: seq<Message>): World
    requires Legal(w, msgs)
    decreases |msgs|
  {
    if msgs == [] then w else Run(Next(w, msgs[0]), msgs[1..])
  }
}
