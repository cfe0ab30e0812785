/** What holds of every run of the session actor: for arbitrary messages, and
    for messages as the server and the send driver issue them. */
module SessionRuns {
  import opened Bytes
  import opened SessionModel

  // --- arbitrary messages ---------------------------------------------------

  /** A message to another session, or one that creates a session, leaves this
      session as it is. */
  lemma OthersUntouched(w: World, m: Message, id: string)
    requires Plausible(w, m) && id in w.sessions && m.id != id
    ensures id in Next(w, m).sessions && Next(w, m).sessions[id] == w.sessions[id]
  {
  }

  predicate SameProgress(s: Session, t: Session)
  {
    && t.state == s.state && t.files == s.files && t.direction == s.direction && t.decisions == s.decisions
    && t.tripped == s.tripped
  }

  lemma InactiveStep(s: Session, m: Message)
    requires !m.Creates() && !s.Active()
    ensures SameProgress(s, OnSession(s, m))
  {
  }

  /** Once a session has left Pending and Transfering, no message sequence
      whatever changes its state, its files, its decisions or its cancel token. */
  lemma {:induction false} InactiveForever(w: World, msgs: seq<Message>, id: string)
    requires Legal(w, msgs) && id in w.sessions && !w.sessions[id].Active()
    ensures id in Run(w, msgs).sessions && SameProgress(w.sessions[id], Run(w, msgs).sessions[id])
    decreases |msgs|
  {
    if msgs != [] {
      var m := msgs[0];
      if m.id == id {
        InactiveStep(w.sessions[id], m);
      } else {
        OthersUntouched(w, m, id);
      }
      InactiveForever(Next(w, m), msgs[1..], id);
    }
  }

  lemma SubsetSize<T>(a: set<T>, b: set<T>)
    requires a <= b
    ensures |a| <= |b|
  {
    assert |b| == |a| + |b - a| by {
      assert b == a + (b - a);
    }
  }

  lemma NotActivated(s: Session, m: Message)
    requires !m.Creates() && ActiveReceive(OnSession(s, m))
    ensures ActiveReceive(s)
  {
    hide OnSession;
    KeptByAll(s, m);
    if !s.Active() {
      InactiveStep(s, m);
    }
  }

  lemma ActiveReceivesStep(w: World, m: Message)
    requires Plausible(w, m) && |ActiveReceives(w)| <= w.maxRecv
    ensures |ActiveReceives(Next(w, m))| <= w.maxRecv
  {
    hide OnSession;
    var w' := Next(w, m);
    if m.CreateRecv? {
      assert w' == w || ActiveReceives(w') == ActiveReceives(w) + {m.id};
    } else {
      forall id | id in ActiveReceives(w') ensures id in ActiveReceives(w) {
        if id == m.id && !m.Creates() {
          NotActivated(w.sessions[id], m);
        }
      }
      SubsetSize(ActiveReceives(w'), ActiveReceives(w));
    }
  }

  /** The number of receive sessions that are pending or transferring never
      exceeds the limit, whatever the messages. */
  lemma {:induction false} ReceiveLimit(w: World, msgs: seq<Message>)
    requires Legal(w, msgs) && |ActiveReceives(w)| <= w.maxRecv
    ensures Run(w, msgs).maxRecv == w.maxRecv
    ensures |ActiveReceives(Run(w, msgs))| <= w.maxRecv
    decreases |msgs|
  {
    if msgs != [] {
      ActiveReceivesStep(w, msgs[0]);
      ReceiveLimit(Next(w, msgs[0]), msgs[1..]);
    }
  }

  // --- caller discipline ----------------------------------------------------

  /** The uploads begun so far: session and token of every successful StartFile. */
  type Uploads = set<(string, string)>

  function Begun(w: World, up: Uploads, m: Message): Uploads
    requires Plausible(w, m)
  {
    if m.StartFile? && ReplyTo(w, m).t.Ok? then up + {(m.id, m.token)} else up
  }

  predicate IsSendSession(w: World, id: string) { id in w.sessions ==> w.sessions[id].direction == Send }

  /** Messages as `server.rs` and `handle.rs` issue them. */
  predicate Allowed(w: World, up: Uploads, m: Message)
  {
    match m
    case ReportState(id, st) => st == Transfering && IsSendSession(w, id)
    case ReportFileState(id, _, _) => IsSendSession(w, id)
    case FailMsg(id, _) => IsSendSession(w, id)
    case FinishFile(id, token, st) => (id, token) in up && (st.Finish? || st.Fail?)
    case _ => true
  }

  predicate Disciplined(w: World, up: Uploads, msgs: seq<Message>)
    decreases |msgs|
  {
    msgs == []
    || (Plausible(w, msgs[0]) && Allowed(w, up, msgs[0])
        && Disciplined(Next(w, msgs[0]), Begun(w, up, msgs[0]), msgs[1..]))
  }

  lemma {:induction false} DisciplinedIsLegal(w: World, up: Uploads, msgs: seq<Message>)
    requires Disciplined(w, up, msgs)
    ensures Legal(w, msgs)
    decreases |msgs|
  {
    if msgs != [] {
      DisciplinedIsLegal(Next(w, msgs[0]), Begun(w, up, msgs[0]), msgs[1..]);
    }
  }

  // --- the invariant of one session -----------------------------------------

  /** Lifecycle: which states occur, and how they tie to files and token. */
  ghost predicate LifecycleOk(s: Session)
  {
    && s.state in {Pending, Transfering, Finished, Failed, Canceled}
    && (s.state == Finished ==> s.files.Keys != {} && forall f :: f in s.files ==> s.files[f].state.IsSettled())
    && (s.Active() && s.files.Keys != {} ==> exists f :: f in s.files && !s.files[f].state.IsSettled())
    && (forall f :: f in s.files && s.files[f].state.Fail? ==> s.state == Failed)
    && (s.tripped <==> s.state == Failed || s.state == Canceled)
  }

  /** The decision slot is held exactly while a receive session is pending; one
      decision was sent when it left that state. */
  ghost predicate DecisionOk(s: Session)
  {
    && (s.waiting <==> PendingReceive(s))
    && (s.direction == Send || PendingReceive(s) ==> s.decisions == [])
    && (s.direction == Receive && !PendingReceive(s) ==>
          && |s.decisions| == 1
          && (s.decisions[0].Accepted? || s.state == Canceled))
  }

  /** Tokens and files index each other. */
  ghost predicate TokensOk(s: Session)
  {
    && (forall f :: f in s.files ==>
          s.files[f].token.Some? && s.files[f].token.value in s.tokenIndex && s.tokenIndex[s.files[f].token.value] == f)
    && (forall t :: t in s.tokenIndex ==> s.tokenIndex[t] in s.files && s.files[s.tokenIndex[t]].token == Some(t))
  }

  /** Who was accepted can upload; who was not is Skip for good. */
  ghost predicate AcceptanceOk(s: Session, begun: iset<string>)
  {
    if s.decisions != [] && s.decisions[0].Accepted? then
      var given := s.decisions[0].files;
      && (forall f :: f in given ==> f in s.files && s.files[f].token == Some(given[f]))
      && (forall f :: f in s.files ==> (f in given <==> !s.files[f].state.Skip?))
      && (forall t :: t in begun ==> t in s.tokenIndex && s.tokenIndex[t] in given)
    else
      begun == iset{} && forall f :: f in s.files ==> s.files[f].state == FilePending
  }

  ghost function BegunIn(up: Uploads, id: string): iset<string> { iset t | (id, t) in up }

  ghost predicate SessionOk(s: Session, begun: iset<string>)
  {
    && LifecycleOk(s) && DecisionOk(s)
    && (s.direction == Receive ==> TokensOk(s) && AcceptanceOk(s, begun))
    && (s.direction == Send ==> s.tokenIndex == map[])
  }

  ghost predicate WorldOk(w: World, up: Uploads)
  {
    && (forall id :: id in w.sessions ==> SessionOk(w.sessions[id], BegunIn(up, id)))
    && (forall p :: p in up ==> p.0 in w.sessions)
  }

  // --- every operation keeps it ---------------------------------------------

  lemma NewReceiveOk(m: Message)
    requires m.CreateRecv? && m.tokens.Keys == m.offered.Keys && Injective(m.tokens)
    ensures SessionOk(NewReceive(m), iset{})
  {
    hide TokensOk, LifecycleOk;
    var s := NewReceive(m);
    assert s.files.Keys == m.offered.Keys;
    NewTokens(m);
    PendingFilesOk(s);
  }

  lemma NewTokens(m: Message)
    requires m.CreateRecv? && m.tokens.Keys == m.offered.Keys && Injective(m.tokens)
    ensures TokensOk(NewReceive(m))
  {
    var s := NewReceive(m);
    assert s.files.Keys == m.offered.Keys;
    assert forall f :: f in m.offered ==> m.tokens[f] in s.tokenIndex;
  }

  lemma PendingFilesOk(s: Session)
    requires s.state == Pending && !s.tripped && forall f :: f in s.files ==> s.files[f].state == FilePending
    ensures LifecycleOk(s)
  {
    if s.files.Keys != {} {
      var f :| f in s.files;
      assert !s.files[f].state.IsSettled();
    }
  }

  lemma {:induction false} CollectPending(entries: seq<(string, FileInfo)>)
    ensures forall f :: f in Collect(entries) ==> Collect(entries)[f].state == FilePending
    ensures forall f :: f in Collect(entries) <==> exists i :: 0 <= i < |entries| && entries[i].0 == f
  {
    if entries != [] {
      var n := |entries| - 1;
      CollectPending(entries[..n]);
      forall f | f in Collect(entries[..n])
        ensures exists i :: 0 <= i < |entries| && entries[i].0 == f
      {
        var i :| 0 <= i < |entries[..n]| && entries[..n][i].0 == f;
        assert entries[i].0 == f;
      }
      forall i | 0 <= i < |entries| ensures entries[i].0 in Collect(entries) {
        if i < n { assert entries[..n][i].0 == entries[i].0; }
      }
    }
  }

  lemma NewSendOk(m: Message)
    requires m.CreateSend?
    ensures SessionOk(NewSend(m), iset{})
  {
    hide LifecycleOk, Collect;
    CollectPending(m.entries);
    PendingFilesOk(NewSend(m));
  }

  /** After MarkFile with a state that does not fail, only CheckFinish is missing
      for the lifecycle. */
  ghost predicate AlmostOk(s: Session)
  {
    && s.Active() && !s.tripped
    && forall f :: f in s.files ==> !s.files[f].state.Fail?
  }

  lemma CheckFinishOk(s: Session)
    requires AlmostOk(s)
    ensures LifecycleOk(CheckFinish(s))
    ensures CheckFinish(s).files == s.files && CheckFinish(s).decisions == s.decisions
  {
  }

  lemma MarkFileEffect(s: Session, f: string, st: FileState)
    ensures var t := MarkFile(s, f, st);
            && t.state == s.state && t.tripped == s.tripped && t.waiting == s.waiting && t.decisions == s.decisions
            && t.direction == s.direction && t.tokenIndex == s.tokenIndex && t.files.Keys == s.files.Keys
            && (forall g :: g in s.files ==> t.files[g].token == s.files[g].token && t.files[g].info == s.files[g].info)
            && (forall g :: g in s.files ==> t.files[g].state == if g == f then st else s.files[g].state)
  {
    if f in s.files {
      var t := MarkFile(s, f, st);
      assert t == s.(files := s.files[f := s.files[f].(state := st)], events := t.events);
    }
  }

  lemma SetFileStateOk(s: Session, f: string, st: FileState, begun: iset<string>)
    requires SessionOk(s, begun)
    requires s.direction == Receive ==>
               && (st.Finish? || st.Fail?) && s.decisions != [] && s.decisions[0].Accepted? && f in s.decisions[0].files
    ensures SessionOk(SetFileState(s, f, st), begun)
  {
    hide MarkFile, CheckFinish, TokensOk, LifecycleOk, AcceptanceOk;
    if s.Active() {
      var t := MarkFile(s, f, st);
      MarkedFacts(s, f, st, begun);
      var u := SetFileState(s, f, st);
      if st.Fail? {
        FailedFacts(t, st.msg);
      } else {
        CheckFinishOk(t);
        CheckFinishFrame(t);
      }
      SameFilesSameFacts(t, u, begun);
    }
  }

  /** Marking a file keeps everything but the lifecycle, which the next step
      restores. */
  lemma MarkedFacts(s: Session, f: string, st: FileState, begun: iset<string>)
    requires SessionOk(s, begun) && s.Active()
    requires s.direction == Receive ==>
               && (st.Finish? || st.Fail?) && s.decisions != [] && s.decisions[0].Accepted? && f in s.decisions[0].files
    ensures var t := MarkFile(s, f, st);
            && t.state == s.state && t.direction == s.direction && t.tokenIndex == s.tokenIndex && !t.tripped
            && t.decisions == s.decisions && t.waiting == s.waiting
            && (!st.Fail? ==> AlmostOk(t))
            && (s.direction == Receive ==> TokensOk(t) && AcceptanceOk(t, begun))
  {
    hide MarkFile;
    MarkFileEffect(s, f, st);
  }

  lemma FailedFacts(s: Session, reason: string)
    requires s.Active() && !s.waiting
    ensures var t := FailSession(s, reason);
            && LifecycleOk(t) && t.files == s.files && t.decisions == s.decisions && t.tokenIndex == s.tokenIndex
            && t.direction == s.direction && !t.waiting && t.state == Failed
  {
  }

  lemma AcceptOk(s: Session, fileIds: Option<seq<string>>, order: seq<string>)
    requires SessionOk(s, iset{}) && PendingReceive(s)
    ensures SessionOk(CheckFinish(AcceptSession(s, fileIds, order)), iset{})
    ensures CheckFinish(AcceptSession(s, fileIds, order)).decisions == [Accepted(AcceptedTokens(s, fileIds))]
  {
    hide SkipEvents, SkippedOf, CheckFinish, AcceptedFiles, AcceptedTokens, TokensOk, AcceptanceOk;
    var t := AcceptSession(s, fileIds, order);
    AcceptedFacts(s, t, fileIds);
    CheckFinishOk(t);
    CheckFinishFrame(t);
    SameFilesSameFacts(t, CheckFinish(t), iset{});
  }

  lemma CheckFinishFrame(s: Session)
    ensures var t := CheckFinish(s);
            && t.files == s.files && t.decisions == s.decisions && t.tokenIndex == s.tokenIndex
            && t.direction == s.direction && t.waiting == s.waiting && t.tripped == s.tripped
            && (t.state == s.state || (s.Active() && t.state == Finished))
  {
  }

  lemma SameFilesSameFacts(s: Session, t: Session, begun: iset<string>)
    requires s.files == t.files && s.tokenIndex == t.tokenIndex && s.decisions == t.decisions
    ensures TokensOk(s) <==> TokensOk(t)
    ensures AcceptanceOk(s, begun) <==> AcceptanceOk(t, begun)
  {
  }

  lemma AcceptedFacts(s: Session, t: Session, fileIds: Option<seq<string>>)
    requires SessionOk(s, iset{}) && PendingReceive(s)
    requires t.files == AcceptedFiles(s, fileIds) && t.tokenIndex == s.tokenIndex
    requires t.decisions == [Accepted(AcceptedTokens(s, fileIds))] && t.state == Transfering && t.tripped == s.tripped
    ensures AlmostOk(t) && TokensOk(t) && AcceptanceOk(t, iset{})
  {
    assert t.files.Keys == s.files.Keys;
    assert forall f :: f in s.files ==> t.files[f].token == s.files[f].token;
  }

  lemma StartOk(s: Session, token: string, begun: iset<string>)
    requires SessionOk(s, begun) && Startable(s, token).Ok?
    ensures SessionOk(MarkFile(s, Startable(s, token).value, Transfer), begun + iset{token})
  {
    var f := Startable(s, token).value;
    var t := MarkFile(s, f, Transfer);
    MarkFileEffect(s, f, Transfer);
    assert !t.files[f].state.IsSettled();
    assert TokensOk(t);
  }

  lemma StepOk(w: World, up: Uploads, m: Message)
    requires WorldOk(w, up) && Plausible(w, m) && Allowed(w, up, m) && !m.Creates() && m.id in w.sessions
    ensures SessionOk(OnSession(w.sessions[m.id], m), BegunIn(Begun(w, up, m), m.id))
  {
    hide LifecycleOk, TokensOk, AcceptanceOk, CheckFinish, AcceptSession;
    var s := w.sessions[m.id];
    var begun := BegunIn(up, m.id);
    assert SessionOk(s, begun);
    match m {
      case Accept(_, fileIds, order) =>
        NotDoneYet(s);
        if PendingReceive(s) {
          NothingBegun(s, begun);
          AcceptOk(s, fileIds, order);
        }
      case StartFile(_, token) =>
        if Startable(s, token).Ok? {
          StartOk(s, token, begun);
          assert BegunIn(Begun(w, up, m), m.id) == begun + iset{token};
        }
      case FinishFile(_, token, st) =>
        assert token in begun;
        if token in s.tokenIndex {
          UploadsWereAccepted(s, begun, token);
          SetFileStateOk(s, s.tokenIndex[token], st, begun);
        }
      case ReportFileState(_, f, st) => SetFileStateOk(s, f, st, begun);
      case _ => SimpleStepOk(s, m, begun);
    }
  }

  lemma NotDoneYet(s: Session)
    requires LifecycleOk(s)
    ensures CheckFinish(s) == s
  {
  }

  lemma NothingBegun(s: Session, begun: iset<string>)
    requires SessionOk(s, begun) && PendingReceive(s)
    ensures begun == iset{}
  {
  }

  lemma UploadsWereAccepted(s: Session, begun: iset<string>, token: string)
    requires SessionOk(s, begun) && token in begun && token in s.tokenIndex
    ensures s.direction == Receive && s.decisions != [] && s.decisions[0].Accepted?
    ensures s.tokenIndex[token] in s.decisions[0].files
  {
  }

  /** The messages that change no file. */
  lemma SimpleStepOk(s: Session, m: Message, begun: iset<string>)
    requires SessionOk(s, begun)
    requires m.Decline? || m.Cancel? || m.MarkViaRelay? || m.MarkRoute? || m.ReportProgress?
             || (m.ReportState? && m.state == Transfering && s.direction == Send)
             || (m.FailMsg? && s.direction == Send)
    ensures SessionOk(OnSession(s, m), begun)
  {
    var t := OnSession(s, m);
    assert t.files == s.files && t.tokenIndex == s.tokenIndex && t.direction == s.direction;
    if s.direction == Receive && PendingReceive(s) {
      NothingBegun(s, begun);
    }
  }

  lemma WorldStep(w: World, up: Uploads, m: Message)
    requires WorldOk(w, up) && Plausible(w, m) && Allowed(w, up, m)
    ensures WorldOk(Next(w, m), Begun(w, up, m))
  {
    hide SessionOk, OnSession, NewReceive, NewSend, Startable, ActiveReceives;
    var w', up' := Next(w, m), Begun(w, up, m);
    forall id | id in w'.sessions ensures SessionOk(w'.sessions[id], BegunIn(up', id)) {
      if id == m.id && m.CreateRecv? && id !in w.sessions {
        NewReceiveOk(m);
        assert BegunIn(up', id) == iset{};
      } else if id == m.id && m.CreateSend? {
        NewSendOk(m);
        assert BegunIn(up', id) == iset{};
      } else if id == m.id && !m.Creates() {
        StepOk(w, up, m);
      } else {
        assert BegunIn(up', id) == BegunIn(up, id);
        OthersUntouched(w, m, id);
      }
    }
  }

  /** The uploads begun in the course of a run. */
  function UploadsAfter(w: World, up: Uploads, msgs: seq<Message>): Uploads
    requires Legal(w, msgs)
    decreases |msgs|
  {
    if msgs == [] then up else UploadsAfter(Next(w, msgs[0]), Begun(w, up, msgs[0]), msgs[1..])
  }

  /** Under caller discipline the invariant holds in every reachable state, for
      the uploads actually begun on the way. */
  lemma {:induction false} AlwaysOk(w: World, up: Uploads, msgs: seq<Message>)
    requires WorldOk(w, up) && Disciplined(w, up, msgs)
    ensures Legal(w, msgs) && WorldOk(Run(w, msgs), UploadsAfter(w, up, msgs))
    decreases |msgs|
  {
    DisciplinedIsLegal(w, up, msgs);
    if msgs != [] {
      WorldStep(w, up, msgs[0]);
      AlwaysOk(Next(w, msgs[0]), Begun(w, up, msgs[0]), msgs[1..]);
    }
  }

  lemma {:induction false} SplitRun(w: World, up: Uploads, msgs: seq<Message>, more: seq<Message>)
    requires Disciplined(w, up, msgs + more)
    ensures Disciplined(w, up, msgs) && Legal(w, msgs) && Legal(w, msgs + more)
    ensures Disciplined(Run(w, msgs), UploadsAfter(w, up, msgs), more) && Legal(Run(w, msgs), more)
    ensures Run(w, msgs + more) == Run(Run(w, msgs), more)
    decreases |msgs|
  {
    if msgs == [] {
      assert msgs + more == more;
      DisciplinedIsLegal(w, up, more);
    } else {
      assert (msgs + more)[1..] == msgs[1..] + more;
      SplitRun(Next(w, msgs[0]), Begun(w, up, msgs[0]), msgs[1..], more);
    }
  }

  // --- what that says, from an empty actor ----------------------------------

  function Empty(maxRecv: nat): World { World(map[], maxRecv) }

  /** Finished means nonempty and all files Finish or Skip; an active session with
      files has one that is neither; a failed file means a failed session; the
      cancel token is tripped exactly in Failed or Canceled. */
  lemma LifecycleAlways(maxRecv: nat, msgs: seq<Message>, id: string)
    requires Disciplined(Empty(maxRecv), {}, msgs)
    requires Legal(Empty(maxRecv), msgs) && id in Run(Empty(maxRecv), msgs).sessions
    ensures LifecycleOk(Run(Empty(maxRecv), msgs).sessions[id])
  {
    AlwaysOk(Empty(maxRecv), {}, msgs);
  }

  /** The decision slot is held exactly while a receive session is pending, and
      after that exactly one decision has been sent: Accepted, or else the session
      is Canceled. */
  lemma DecisionAlways(maxRecv: nat, msgs: seq<Message>, id: string)
    requires Disciplined(Empty(maxRecv), {}, msgs)
    requires Legal(Empty(maxRecv), msgs) && id in Run(Empty(maxRecv), msgs).sessions
    ensures DecisionOk(Run(Empty(maxRecv), msgs).sessions[id])
  {
    AlwaysOk(Empty(maxRecv), {}, msgs);
  }

  /** In a receive session the tokens handed out on acceptance are those of the
      files that are not Skip, and every token that StartFile ever took in the run
      is the token of such a file; without acceptance it took none. */
  lemma UploadsWereGranted(maxRecv: nat, msgs: seq<Message>, id: string)
    requires Disciplined(Empty(maxRecv), {}, msgs)
    requires Legal(Empty(maxRecv), msgs) && id in Run(Empty(maxRecv), msgs).sessions
    requires Run(Empty(maxRecv), msgs).sessions[id].direction == Receive
    ensures AcceptanceOk(Run(Empty(maxRecv), msgs).sessions[id], BegunIn(UploadsAfter(Empty(maxRecv), {}, msgs), id))
  {
    AlwaysOk(Empty(maxRecv), {}, msgs);
  }

  // --- tokens, for arbitrary messages ---------------------------------------

  ghost predicate AllTokensOk(w: World)
  {
    forall id :: id in w.sessions && w.sessions[id].direction == Receive ==> TokensOk(w.sessions[id])
  }

  /** No message whatever touches a token or the token index. */
  lemma TokensUntouched(s: Session, m: Message)
    requires !m.Creates()
    ensures var t := OnSession(s, m);
            && t.tokenIndex == s.tokenIndex && t.files.Keys == s.files.Keys && t.direction == s.direction
            && forall f :: f in s.files ==> t.files[f].token == s.files[f].token && t.files[f].info == s.files[f].info
  {
    hide SkipEvents, SkippedOf, MarkFile, CheckFinish, AcceptedTokens;
    KeptByAll(s, m);
    CheckFinishFrame(s);
    match m {
      case Accept(_, fileIds, order) => CheckFinishFrame(AcceptSession(s, fileIds, order));
      case StartFile(_, token) =>
        if Startable(s, token).Ok? { MarkFileEffect(s, Startable(s, token).value, Transfer); }
      case FinishFile(_, token, st) =>
        if token in s.tokenIndex { SetFileStateLeavesTokens(s, s.tokenIndex[token], st); }
      case ReportFileState(_, f, st) => SetFileStateLeavesTokens(s, f, st);
      case _ =>
    }
  }

  lemma SetFileStateLeavesTokens(s: Session, f: string, st: FileState)
    ensures var t := SetFileState(s, f, st);
            && t.tokenIndex == s.tokenIndex && t.files.Keys == s.files.Keys
            && forall g :: g in s.files ==> t.files[g].token == s.files[g].token && t.files[g].info == s.files[g].info
  {
    hide MarkFile, CheckFinish;
    MarkFileEffect(s, f, st);
    CheckFinishFrame(MarkFile(s, f, st));
  }

  lemma TokensStep(w: World, m: Message)
    requires AllTokensOk(w) && Plausible(w, m)
    ensures AllTokensOk(Next(w, m))
  {
    hide OnSession, TokensOk, NewReceive, NewSend;
    var w' := Next(w, m);
    forall id | id in w'.sessions && w'.sessions[id].direction == Receive ensures TokensOk(w'.sessions[id]) {
      if id == m.id && m.CreateRecv? && id !in w.sessions {
        NewTokens(m);
      } else if id == m.id && m.CreateSend? {
        SendDirection(m);
      } else if id == m.id && !m.Creates() {
        TokensUntouched(w.sessions[id], m);
        SameTokens(w.sessions[id], w'.sessions[id]);
      } else {
        OthersUntouched(w, m, id);
      }
    }
  }

  lemma SendDirection(m: Message)
    requires m.CreateSend?
    ensures NewSend(m).direction == Send
  {
  }

  lemma SameTokens(s: Session, t: Session)
    requires t.tokenIndex == s.tokenIndex && t.files.Keys == s.files.Keys
    requires forall f :: f in s.files ==> t.files[f].token == s.files[f].token
    ensures TokensOk(s) ==> TokensOk(t)
  {
  }

  lemma {:induction false} TokensKeptOk(w: World, msgs: seq<Message>)
    requires AllTokensOk(w) && Legal(w, msgs)
    ensures AllTokensOk(Run(w, msgs))
    decreases |msgs|
  {
    hide Plausible;
    if msgs != [] {
      TokensStep(w, msgs[0]);
      TokensKeptOk(Next(w, msgs[0]), msgs[1..]);
    }
  }

  /** For arbitrary message sequences: in every receive session the token index
      and the files' tokens are inverse to each other. */
  lemma TokensAlways(maxRecv: nat, msgs: seq<Message>, id: string)
    requires Legal(Empty(maxRecv), msgs) && id in Run(Empty(maxRecv), msgs).sessions
    requires Run(Empty(maxRecv), msgs).sessions[id].direction == Receive
    ensures TokensOk(Run(Empty(maxRecv), msgs).sessions[id])
  {
    TokensKeptOk(Empty(maxRecv), msgs);
  }

  // --- leaving Pending ------------------------------------------------------

  /** The step that leaves Pending sends the one decision: Accepted when it moves
      to Transfering (or straight on to Finished), Declined or Aborted when it
      moves to Canceled. There is no other way to leave. */
  ghost predicate DecidedBy(t: Session, m: Message)
  {
    !PendingReceive(t) ==>
      && |t.decisions| == 1
      && (t.decisions[0].Accepted? <==> m.Accept?)
      && (t.decisions[0].Accepted? <==> t.state == Transfering || t.state == Finished)
      && (!t.decisions[0].Accepted? <==> t.state == Canceled)
      && (t.decisions[0] == Declined <==> m.Decline?)
      && (t.decisions[0] == Aborted <==> m.Cancel?)
  }

  /** In every disciplined run of an actor that starts empty. */
  lemma LeavingPending(maxRecv: nat, msgs: seq<Message>, m: Message)
    requires Disciplined(Empty(maxRecv), {}, msgs + [m]) && Legal(Empty(maxRecv), msgs) && !m.Creates()
    requires var w := Run(Empty(maxRecv), msgs); m.id in w.sessions && PendingReceive(w.sessions[m.id])
    ensures Legal(Empty(maxRecv), msgs + [m])
    ensures var after := Run(Empty(maxRecv), msgs + [m]).sessions; m.id in after && DecidedBy(after[m.id], m)
  {
    hide OnSession, DecidedBy;
    var w, up := Run(Empty(maxRecv), msgs), UploadsAfter(Empty(maxRecv), {}, msgs);
    SplitRun(Empty(maxRecv), {}, msgs, [m]);
    AlwaysOk(Empty(maxRecv), {}, msgs);
    LeavingStep(w, up, m);
    assert [m][1..] == [];
    assert Run(w, [m]) == Next(w, m);
  }

  lemma LeavingStep(w: World, up: Uploads, m: Message)
    requires WorldOk(w, up) && Plausible(w, m) && Allowed(w, up, m)
    requires m.id in w.sessions && PendingReceive(w.sessions[m.id]) && !m.Creates()
    ensures DecidedBy(OnSession(w.sessions[m.id], m), m)
  {
    hide LifecycleOk, TokensOk, AcceptanceOk, SkipEvents, SkippedOf;
    var s := w.sessions[m.id];
    var begun := BegunIn(up, m.id);
    assert SessionOk(s, begun);
    assert m.FinishFile? ==> m.token in begun;
    NothingBegun(s, begun);
    if m.Accept? {
      AcceptOk(s, m.fileIds, m.order);
    }
  }

  // --- Accept and StartFile -------------------------------------------------

  /** Accept hands out exactly the accepted files' tokens, and marks exactly the
      others Skip. */
  lemma AcceptHandsOutTokens(s: Session, fileIds: Option<seq<string>>, order: seq<string>)
    requires PendingReceive(s) && TokensOk(s) && DecisionOk(s)
    ensures var t := OnSession(s, Accept(s.id, fileIds, order));
            && |t.decisions| == 1 && t.decisions[0].Accepted?
            && (forall f :: f in t.decisions[0].files <==> f in s.files && Chosen(fileIds, f))
            && (forall f :: f in t.decisions[0].files ==> s.files[f].token == Some(t.decisions[0].files[f]))
            && t.files.Keys == s.files.Keys
            && (forall f :: f in s.files ==>
                  t.files[f] == if Chosen(fileIds, f) then s.files[f] else s.files[f].(state := Skip))
  {
    hide SkipEvents, SkippedOf;
  }

  /** A token that StartFile takes opens exactly the file it was issued for: that
      file goes to Transfer and nothing else changes. */
  lemma StartOpensItsFile(s: Session, token: string)
    requires s.direction == Receive && TokensOk(s) && Startable(s, token).Ok?
    ensures var f := Startable(s, token).value;
            var t := OnSession(s, StartFile(s.id, token));
            && f in s.files && s.files[f].token == Some(token)
            && t.files == s.files[f := s.files[f].(state := Transfer)] && t.state == s.state
            && (forall g :: g in s.files && s.files[g].token == Some(token) ==> g == f)
  {
  }

  /** And which tokens it takes, in a transferring receive session: those of files
      that are not yet terminal. */
  lemma StartTakesExactly(s: Session, token: string)
    requires s.direction == Receive && TokensOk(s) && s.state == Transfering
    ensures Startable(s, token).Ok? <==>
            exists f :: f in s.files && s.files[f].token == Some(token) && !s.files[f].state.IsTerminal()
  {
    if token in s.tokenIndex {
      var f := s.tokenIndex[token];
      assert f in s.files && s.files[f].token == Some(token);
    }
  }

  lemma {:induction false} RunSnoc(w: World, msgs: seq<Message>, m: Message)
    requires Legal(w, msgs) && Plausible(Run(w, msgs), m)
    ensures Legal(w, msgs + [m]) && Run(w, msgs + [m]) == Next(Run(w, msgs), m)
    decreases |msgs|
  {
    hide Plausible, Next;
    if msgs == [] {
      assert msgs + [m] == [m] && [m][1..] == [];
    } else {
      assert (msgs + [m])[1..] == msgs[1..] + [m];
      RunSnoc(Next(w, msgs[0]), msgs[1..], m);
    }
  }

  /** For arbitrary messages from an empty actor: in a transferring receive session
      StartFile takes exactly the tokens of files that are not terminal. What it
      takes, it opens: the one file the token was issued for goes to Transfer, and
      no other file, nor the session's state, changes. */
  lemma StartInRun(maxRecv: nat, msgs: seq<Message>, id: string, token: string)
    requires Legal(Empty(maxRecv), msgs) && id in Run(Empty(maxRecv), msgs).sessions
    requires Run(Empty(maxRecv), msgs).sessions[id].direction == Receive
    requires Run(Empty(maxRecv), msgs).sessions[id].state == Transfering
    ensures Legal(Empty(maxRecv), msgs + [StartFile(id, token)])
    ensures var s := Run(Empty(maxRecv), msgs).sessions[id];
            var after := Run(Empty(maxRecv), msgs + [StartFile(id, token)]).sessions;
            && id in after && after[id].state == Transfering
            && (Startable(s, token).Ok? <==>
                  exists f :: f in s.files && s.files[f].token == Some(token) && !s.files[f].state.IsTerminal())
            && (forall f :: f in s.files && s.files[f].token == Some(token) && !s.files[f].state.IsTerminal() ==>
                  after[id].files == s.files[f := s.files[f].(state := Transfer)])
            && (Startable(s, token).Err? ==> after[id].files == s.files)
  {
    hide Run, Legal, TokensOk;
    var w := Run(Empty(maxRecv), msgs);
    var s := w.sessions[id];
    TokensAlways(maxRecv, msgs, id);
    RunSnoc(Empty(maxRecv), msgs, StartFile(id, token));
    StartTakesExactly(s, token);
    if Startable(s, token).Ok? {
      StartOpensItsFile(s, token);
    }
  }

  /** In every disciplined run from an empty actor, once a receive session has been
      accepted: StartFile takes only tokens that were handed out, each for the file
      it was handed out for, and exactly while the session is transferring and that
      file is not terminal. */
  lemma StartTakesGranted(maxRecv: nat, msgs: seq<Message>, id: string, given: map<string, string>, token: string)
    requires Disciplined(Empty(maxRecv), {}, msgs)
    requires Legal(Empty(maxRecv), msgs) && id in Run(Empty(maxRecv), msgs).sessions
    requires var s := Run(Empty(maxRecv), msgs).sessions[id]; s.direction == Receive && s.decisions == [Accepted(given)]
    ensures var s := Run(Empty(maxRecv), msgs).sessions[id];
            && (Startable(s, token).Ok? ==>
                  Startable(s, token).value in given && given[Startable(s, token).value] == token)
            && (forall g :: g in given ==>
                  && g in s.files
                  && (Startable(s, given[g]) == Ok(g) <==> s.state == Transfering && !s.files[g].state.IsTerminal()))
  {
    AlwaysOk(Empty(maxRecv), {}, msgs);
    var s := Run(Empty(maxRecv), msgs).sessions[id];
    var begun := BegunIn(UploadsAfter(Empty(maxRecv), {}, msgs), id);
    assert SessionOk(s, begun);
    GrantedOnly(s, begun, given, token);
  }

  lemma GrantedOnly(s: Session, begun: iset<string>, given: map<string, string>, token: string)
    requires SessionOk(s, begun) && s.direction == Receive && s.decisions == [Accepted(given)]
    ensures Startable(s, token).Ok? ==>
              Startable(s, token).value in given && given[Startable(s, token).value] == token
    ensures forall g :: g in given ==>
              && g in s.files
              && (Startable(s, given[g]) == Ok(g) <==> s.state == Transfering && !s.files[g].state.IsTerminal())
  {
    hide LifecycleOk;
  }

  /** And the acceptance itself, in every disciplined run from an empty actor: it
      hands out exactly the chosen files' tokens, sets exactly the others to Skip,
      and each token handed out opens its own file. */
  lemma AcceptInRun(maxRecv: nat, msgs: seq<Message>, id: string, fileIds: Option<seq<string>>, order: seq<string>)
    requires Disciplined(Empty(maxRecv), {}, msgs + [Accept(id, fileIds, order)]) && Legal(Empty(maxRecv), msgs)
    requires var w := Run(Empty(maxRecv), msgs); id in w.sessions && PendingReceive(w.sessions[id])
    ensures Legal(Empty(maxRecv), msgs + [Accept(id, fileIds, order)])
    ensures var s := Run(Empty(maxRecv), msgs).sessions[id];
            var after := Run(Empty(maxRecv), msgs + [Accept(id, fileIds, order)]).sessions;
            id in after && Granted(s, after[id], fileIds)
  {
    hide OnSession, Granted, WorldOk;
    var m := Accept(id, fileIds, order);
    var w, up := Run(Empty(maxRecv), msgs), UploadsAfter(Empty(maxRecv), {}, msgs);
    SplitRun(Empty(maxRecv), {}, msgs, [m]);
    NobodyYet(maxRecv);
    AlwaysOk(Empty(maxRecv), {}, msgs);
    OkIn(w, up, id);
    assert [m][1..] == [];
    assert Run(w, [m]) == Next(w, m);
    AcceptGrants(w.sessions[id], BegunIn(up, id), fileIds, order);
    AcceptIgnoresId(w.sessions[id], id, fileIds, order);
  }

  lemma OkIn(w: World, up: Uploads, id: string)
    requires WorldOk(w, up) && id in w.sessions
    ensures SessionOk(w.sessions[id], BegunIn(up, id))
  {
  }

  lemma AcceptIgnoresId(s: Session, id: string, fileIds: Option<seq<string>>, order: seq<string>)
    ensures OnSession(s, Accept(id, fileIds, order)) == OnSession(s, Accept(s.id, fileIds, order))
  {
  }

  /** What acceptance makes of session `s`. */
  ghost predicate Granted(s: Session, t: Session, fileIds: Option<seq<string>>)
  {
    && |t.decisions| == 1 && t.decisions[0].Accepted? && t.files.Keys == s.files.Keys
    && var given := t.decisions[0].files;
       && (forall f :: f in given <==> f in s.files && Chosen(fileIds, f))
       && (forall f :: f in s.files ==>
             t.files[f] == if Chosen(fileIds, f) then s.files[f] else s.files[f].(state := Skip))
       && (forall f :: f in given ==> Startable(t, given[f]) == Ok(f))
  }

  lemma AcceptGrants(s: Session, begun: iset<string>, fileIds: Option<seq<string>>, order: seq<string>)
    requires SessionOk(s, begun) && PendingReceive(s)
    ensures Granted(s, OnSession(s, Accept(s.id, fileIds, order)), fileIds)
  {
    hide SkipEvents, SkippedOf, OnSession, LifecycleOk;
    NothingBegun(s, begun);
    AcceptHandsOutTokens(s, fileIds, order);
    StillTransfering(s, fileIds, order);
  }

  lemma StillTransfering(s: Session, fileIds: Option<seq<string>>, order: seq<string>)
    requires SessionOk(s, iset{}) && PendingReceive(s)
    ensures var t := OnSession(s, Accept(s.id, fileIds, order));
            && t.tokenIndex == s.tokenIndex && t.direction == Receive
            && ((exists f :: f in s.files && Chosen(fileIds, f)) ==> t.state == Transfering)
  {
    hide SkipEvents, SkippedOf, AcceptedTokens;
    var t := AcceptSession(s, fileIds, order);
    if f :| f in s.files && Chosen(fileIds, f) {
      assert t.files[f] == s.files[f];
      assert !t.Done();
    }
  }

  /** In every disciplined run of an actor that starts empty: a file skipped after
      `msgs` stays Skip, and its token opens nothing, whatever follows. */
  lemma SkippedForGood(maxRecv: nat, msgs: seq<Message>, more: seq<Message>, id: string, f: string)
    requires Disciplined(Empty(maxRecv), {}, msgs + more) && Legal(Empty(maxRecv), msgs)
    requires var w := Run(Empty(maxRecv), msgs);
             && id in w.sessions && w.sessions[id].direction == Receive
             && f in w.sessions[id].files && w.sessions[id].files[f].state.Skip?
    ensures Legal(Empty(maxRecv), msgs + more)
    ensures var t := Run(Empty(maxRecv), msgs + more).sessions;
            && id in t && f in t[id].files && t[id].files[f].state.Skip?
            && t[id].files[f].token.Some? && Startable(t[id], t[id].files[f].token.value).Err?
  {
    hide WorldOk;
    SplitRun(Empty(maxRecv), {}, msgs, more);
    NobodyYet(maxRecv);
    AlwaysOk(Empty(maxRecv), {}, msgs);
    SkippedStays(Run(Empty(maxRecv), msgs), UploadsAfter(Empty(maxRecv), {}, msgs), more, id, f);
  }

  lemma NobodyYet(maxRecv: nat)
    ensures WorldOk(Empty(maxRecv), {})
  {
  }

  lemma {:induction false} SkippedStays(w: World, up: Uploads, msgs: seq<Message>, id: string, f: string)
    requires WorldOk(w, up) && Disciplined(w, up, msgs) && Legal(w, msgs)
    requires id in w.sessions && w.sessions[id].direction == Receive && f in w.sessions[id].files
    requires w.sessions[id].files[f].state.Skip?
    ensures var t := Run(w, msgs).sessions;
            && id in t && f in t[id].files && t[id].files[f].state.Skip?
            && t[id].files[f].token.Some? && Startable(t[id], t[id].files[f].token.value).Err?
    decreases |msgs|
  {
    var s := w.sessions[id];
    assert SessionOk(s, BegunIn(up, id));
    if msgs != [] {
      var m := msgs[0];
      WorldStep(w, up, m);
      if m.id == id {
        SkipStep(s, m, BegunIn(up, id), Next(w, m).sessions[id], BegunIn(Begun(w, up, m), id), f);
      } else {
        OthersUntouched(w, m, id);
      }
      SkippedStays(Next(w, m), Begun(w, up, m), msgs[1..], id, f);
    }
  }

  lemma SkipStep(s: Session, m: Message, begun: iset<string>, t: Session, begun': iset<string>, f: string)
    requires !m.Creates() && t == OnSession(s, m) && SessionOk(s, begun) && SessionOk(t, begun')
    requires s.direction == Receive && f in s.files && s.files[f].state.Skip?
    ensures t.direction == Receive && f in t.files && t.files[f].state.Skip?
  {
    hide OnSession, LifecycleOk, TokensOk;
    KeptByAll(s, m);
    assert s.decisions != [] && s.decisions[0].Accepted? && f !in s.decisions[0].files;
  }

  /** No message adds or drops a file, turns a session round, or sends a second
      decision. */
  lemma KeptByAll(s: Session, m: Message)
    requires !m.Creates()
    ensures var t := OnSession(s, m);
            && t.files.Keys == s.files.Keys && t.direction == s.direction
            && (!s.waiting ==> t.decisions == s.decisions)
  {
    hide SkipEvents, SkippedOf, MarkFile, CheckFinish, AcceptedTokens;
    var t := OnSession(s, m);
    CheckFinishFrame(s);
    match m {
      case Accept(_, fileIds, order) => CheckFinishFrame(AcceptSession(s, fileIds, order));
      case StartFile(_, token) =>
        if Startable(s, token).Ok? { MarkFileEffect(s, Startable(s, token).value, Transfer); }
      case FinishFile(_, token, st) =>
        if token in s.tokenIndex { SetFileStateKeeps(s, s.tokenIndex[token], st); }
      case ReportFileState(_, f, st) => SetFileStateKeeps(s, f, st);
      case _ =>
    }
  }

  lemma SetFileStateKeeps(s: Session, f: string, st: FileState)
    ensures var t := SetFileState(s, f, st);
            t.files.Keys == s.files.Keys && t.direction == s.direction && (!s.waiting ==> t.decisions == s.decisions)
  {
    hide MarkFile, CheckFinish;
    MarkFileEffect(s, f, st);
    CheckFinishFrame(MarkFile(s, f, st));
  }
}
