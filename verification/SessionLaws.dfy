/** What each message does to a session, stated outright: its next state, its
    files, what observers and waiting requests are told, and what the sender of the
    message is answered. */
module SessionLaws {
  import opened Bytes
  import opened SessionModel
  import opened SessionRuns

  ghost predicate Live(s: Session) { s.state == Pending || s.state == Transfering }

  ghost predicate WaitsForUser(s: Session) { s.direction == Receive && s.state == Pending }

  /** The message reports this state for a file of the session, or for one it does
      not have: directly, or through an upload token. */
  ghost predicate Reports(s: Session, m: Message, st: FileState)
  {
    (m.ReportFileState? && m.fileState == st) || (m.FinishFile? && m.token in s.tokenIndex && m.fileState == st)
  }

  ghost function Reported(s: Session, m: Message): string
    requires m.ReportFileState? || (m.FinishFile? && m.token in s.tokenIndex)
  {
    if m.ReportFileState? then m.fileId else s.tokenIndex[m.token]
  }

  /** The session has files and all of them are Finish or Skip. */
  ghost predicate Through(files: map<string, FileEntry>)
  {
    files.Keys != {} && forall f :: f in files ==> files[f].state == Finish || files[f].state == Skip
  }

  ghost predicate Fails(s: Session, m: Message)
  {
    || m.FailMsg? || (exists msg :: Reports(s, m, Fail(msg))) || (m.ReportState? && m.state == Failed)
  }

  ghost predicate Cancels(s: Session, m: Message)
  {
    m.Cancel? || (m.Decline? && WaitsForUser(s)) || (m.ReportState? && m.state == Canceled)
  }

  ghost predicate Finishes(s: Session, m: Message, t: Session)
  {
    || (m.ReportState? && m.state == Finished)
    || (Through(t.files) && (m.Accept? || Reports(s, m, Skip) || Reports(s, m, Finish) || Reports(s, m, Transfer)
                             || Reports(s, m, FilePending)))
  }

  // --- the next state -------------------------------------------------------

  /** A live session fails, is canceled and finishes exactly on these messages; and
      what is not live stays as it is. */
  lemma StateLaw(s: Session, m: Message)
    requires !m.Creates()
    ensures var t := OnSession(s, m);
            && (!Live(s) ==> t.state == s.state)
            && (Live(s) ==> (t.state == Failed <==> Fails(s, m)))
            && (Live(s) ==> (t.state == Canceled <==> Cancels(s, m)))
            && (Live(s) ==> (t.state == Finished <==> Finishes(s, m, t)))
            && (Live(s) && m.ReportState? ==> t.state == m.state)
            && (Live(s) && m.Accept? && t.state != Finished ==>
                  t.state == if WaitsForUser(s) then Transfering else s.state)
            && (Live(s) && Live(t) && !m.ReportState? && !m.Accept? ==> t.state == s.state)
  {
    hide SkipEvents, SkippedOf, AcceptedTokens, MarkFile, CheckFinish, SetFileState, Through, AcceptedFiles;
    match m {
      case Accept(_, fileIds, order) =>
        FinishLaw(s);
        FinishLaw(AcceptSession(s, fileIds, order));
      case StartFile(_, token) =>
        if Startable(s, token).Ok? { MarkFileEffect(s, Startable(s, token).value, Transfer); }
      case FinishFile(_, token, st) =>
        if token in s.tokenIndex { FileStateLaw(s, s.tokenIndex[token], st); }
        Which(s, m);
      case ReportFileState(_, f, st) =>
        FileStateLaw(s, f, st);
        Which(s, m);
      case _ =>
    }
  }

  lemma Which(s: Session, m: Message)
    requires m.ReportFileState? || m.FinishFile?
    ensures (exists msg :: Reports(s, m, Fail(msg))) <==>
            m.fileState.Fail? && (m.ReportFileState? || m.token in s.tokenIndex)
  {
    if m.fileState.Fail? && (m.ReportFileState? || m.token in s.tokenIndex) {
      assert Reports(s, m, Fail(m.fileState.msg));
    }
  }

  lemma FinishLaw(s: Session)
    ensures CheckFinish(s).files == s.files
    ensures CheckFinish(s).state == if Live(s) && Through(s.files) then Finished else s.state
  {
  }

  lemma FileStateLaw(s: Session, f: string, st: FileState)
    ensures var t := SetFileState(s, f, st);
            && (!Live(s) ==> t.state == s.state && t.files == s.files)
            && (Live(s) ==>
                  && t.state == (if st.Fail? then Failed else if Through(t.files) then Finished else s.state)
                  && t.files == if f in s.files then s.files[f := s.files[f].(state := st)] else s.files)
  {
    hide CheckFinish, Through;
    FinishLaw(MarkFile(s, f, st));
  }

  // --- the files ------------------------------------------------------------

  /** Acceptance sets the files that were not chosen to Skip; an upload token that
      opens a file sets that one to Transfer; a report about a file of a live
      session sets that one. Nothing else changes a file, and nothing changes a
      file's token or description. */
  lemma FilesLaw(s: Session, m: Message, f: string)
    requires !m.Creates() && f in s.files
    ensures var t := OnSession(s, m);
            && t.files.Keys == s.files.Keys
            && t.files[f] == s.files[f].(state :=
                 if m.Accept? && WaitsForUser(s) && m.fileIds.Some? && f !in m.fileIds.value then Skip
                 else if m.StartFile? && Startable(s, m.token) == Ok(f) then Transfer
                 else if && (m.ReportFileState? || (m.FinishFile? && m.token in s.tokenIndex))
                         && Live(s) && Reported(s, m) == f
                 then m.fileState
                 else s.files[f].state)
  {
    hide SkipEvents, SkippedOf, AcceptedTokens, CheckFinish, SetFileState;
    match m {
      case Accept(_, fileIds, order) =>
        FinishLaw(s);
        FinishLaw(AcceptSession(s, fileIds, order));
      case FinishFile(_, token, st) => if token in s.tokenIndex { FileStateLaw(s, s.tokenIndex[token], st); }
      case ReportFileState(_, g, st) => FileStateLaw(s, g, st);
      case _ =>
    }
  }

  // --- what is announced ----------------------------------------------------

  /** A failure of a live session is announced with its reason, trips the cancel
      token, and turns away a request that still waits. */
  lemma FailureAnnounced(s: Session, id: string, reason: string)
    requires Live(s)
    ensures var t := OnSession(s, FailMsg(id, reason));
            && t.events == s.events + [StateChanged(Failed), FailedWith(reason)]
            && t.tripped && !t.waiting && t.decisions == s.decisions + (if s.waiting then [Aborted] else [])
  {
  }

  /** So is the failure of a file, after the file's own event. */
  lemma FileFailureAnnounced(s: Session, m: Message, msg: string)
    requires Live(s) && Reports(s, m, Fail(msg))
    ensures var t := OnSession(s, m);
            && t.events == s.events
                 + (if Reported(s, m) in s.files then [FileStateChanged(Reported(s, m), Fail(msg))] else [])
                 + [StateChanged(Failed), FailedWith(msg)]
            && t.tripped && !t.waiting
  {
    hide SetFileState;
    FailedFile(s, Reported(s, m), msg);
  }

  lemma FailedFile(s: Session, f: string, msg: string)
    requires Live(s)
    ensures var t := SetFileState(s, f, Fail(msg));
            && t.events == s.events + (if f in s.files then [FileStateChanged(f, Fail(msg))] else [])
                           + [StateChanged(Failed), FailedWith(msg)]
            && t.tripped && !t.waiting
  {
  }

  /** Cancellation is announced without a reason. */
  lemma CancelAnnounced(s: Session, id: string)
    requires Live(s)
    ensures var t := OnSession(s, Cancel(id));
            && t.events == s.events + [StateChanged(Canceled)]
            && t.tripped && !t.waiting && t.decisions == s.decisions + (if s.waiting then [Aborted] else [])
  {
  }

  /** Everything else that is announced: one event for a state reported or a file
      opened; for a file reported, the file's event if the session has it, and then
      the end if that was the last; nothing for labels. */
  lemma EventsLaw(s: Session, m: Message)
    requires !m.Creates()
    ensures var t := OnSession(s, m);
            && (m.ReportState? ==> t.events == s.events + (if Live(s) then [StateChanged(m.state)] else []))
            && (m.Decline? ==> t.events == s.events + (if WaitsForUser(s) then [StateChanged(Canceled)] else []))
            && (m.StartFile? ==>
                  t.events == s.events + (if Startable(s, m.token).Ok?
                                          then [FileStateChanged(Startable(s, m.token).value, Transfer)] else []))
            && (m.ReportFileState? || (m.FinishFile? && m.token in s.tokenIndex) ==>
                  Live(s) && !m.fileState.Fail? ==>
                    t.events == s.events
                      + (if Reported(s, m) in s.files then [FileStateChanged(Reported(s, m), m.fileState)] else [])
                      + (if t.state == Finished then [StateChanged(Finished)] else []))
            && (m.MarkViaRelay? || m.MarkRoute? ==> t.events == s.events)
            && (m.ReportProgress? ==> t.events == s.events + [Progress(m.fileId, m.count)])
  {
    hide SkipEvents, SkippedOf, AcceptedTokens, AcceptedFiles, SetFileState, CheckFinish;
    assert s.events + [] == s.events;
    if (m.ReportFileState? || (m.FinishFile? && m.token in s.tokenIndex)) && Live(s) && !m.fileState.Fail? {
      FileEvents(s, Reported(s, m), m.fileState);
    }
  }

  lemma FileEvents(s: Session, f: string, st: FileState)
    requires Live(s) && !st.Fail?
    ensures var t := SetFileState(s, f, st);
            t.events == s.events + (if f in s.files then [FileStateChanged(f, st)] else [])
                        + (if t.state == Finished then [StateChanged(Finished)] else [])
  {
    hide CheckFinish;
    var u := MarkFile(s, f, st);
    FinishEvents(u);
  }

  lemma FinishEvents(s: Session)
    requires Live(s)
    ensures CheckFinish(s).events
            == s.events + (if CheckFinish(s).state == Finished then [StateChanged(Finished)] else [])
  {
    assert s.events + [] == s.events;
  }

  /** Acceptance announces every file that is skipped, once, then Transfering, and
      then the end if nothing is left to transfer. */
  lemma AcceptEvents(s: Session, id: string, fileIds: Option<seq<string>>, order: seq<string>)
    requires WaitsForUser(s) && Enumerates(order, s.files.Keys)
    ensures var t := OnSession(s, Accept(id, fileIds, order));
            var skips := SkipEvents(SkippedOf(order, fileIds));
            && t.events == s.events + skips + [StateChanged(Transfering)]
                           + (if t.state == Finished then [StateChanged(Finished)] else [])
            && (forall f :: FileStateChanged(f, Skip) in skips <==>
                  f in s.files && fileIds.Some? && f !in fileIds.value)
            && (forall i, j :: 0 <= i < j < |skips| ==> skips[i] != skips[j])
            && (forall e :: e in skips ==> e.FileStateChanged? && e.fileState == Skip)
  {
    hide SkipEvents, SkippedOf, AcceptedTokens, AcceptedFiles, CheckFinish;
    var a := AcceptSession(s, fileIds, order);
    FinishEvents(a);
    SkipsOf(order, fileIds);
    assert forall f :: f in order <==> f in s.files;
  }

  lemma {:induction false} SkipsOf(order: seq<string>, fileIds: Option<seq<string>>)
    requires NoDup(order)
    ensures var skips := SkipEvents(SkippedOf(order, fileIds));
            && (forall f :: FileStateChanged(f, Skip) in skips <==> f in order && fileIds.Some? && f !in fileIds.value)
            && (forall i, j :: 0 <= i < j < |skips| ==> skips[i] != skips[j])
            && (forall e :: e in skips ==> e.FileStateChanged? && e.fileState == Skip)
  {
    if order != [] {
      var f, rest := order[0], order[1..];
      SkipsOf(rest, fileIds);
      assert f !in rest;
      assert order == [f] + rest;
      var later := SkippedOf(rest, fileIds);
      if !Chosen(fileIds, f) {
        assert SkippedOf(order, fileIds) == [f] + later && ([f] + later)[1..] == later;
        assert SkipEvents([f] + later) == [FileStateChanged(f, Skip)] + SkipEvents(later);
      } else {
        assert SkippedOf(order, fileIds) == later;
      }
    }
  }

  // --- creation and labels --------------------------------------------------

  /** A session that has just been offered: its files pending, each with its own
      token and the description it was offered with, and a request waiting. */
  lemma OfferLaw(w: World, m: Message)
    requires m.CreateRecv? && Plausible(w, m)
    ensures var after := Next(w, m).sessions;
            if |ActiveReceives(w)| >= w.maxRecv then after == w.sessions && ReplyTo(w, m) == Created(Err(TooMany))
            else
              && ReplyTo(w, m) == Created(Ok(m.id)) && after.Keys == w.sessions.Keys + {m.id}
              && var s := after[m.id];
                 && s.id == m.id && s.direction == Receive && s.peer == m.peer && s.state == Pending && s.waiting
                 && !s.tripped && s.decisions == [] && s.events == [StateChanged(Pending)]
                 && !s.viaRelay && s.route == "local" && s.files.Keys == m.offered.Keys
                 && (forall f :: f in m.offered ==>
                       s.files[f] == FileEntry(Some(m.tokens[f]), m.offered[f], FilePending))
                 && (forall f :: f in m.offered ==> m.tokens[f] in s.tokenIndex && s.tokenIndex[m.tokens[f]] == f)
  {
    hide ActiveReceives;
  }

  /** And one to be sent: every entry's file pending, with the description of the
      last entry under its id, and no tokens. */
  lemma SendLaw(w: World, m: Message)
    requires m.CreateSend? && Plausible(w, m)
    ensures var after := Next(w, m).sessions;
            && ReplyTo(w, m) == Created(Ok(m.id)) && after.Keys == w.sessions.Keys + {m.id}
            && var s := after[m.id];
               && s.id == m.id && s.direction == Send && s.peer == m.peer && s.state == Pending && !s.waiting
               && !s.tripped && s.decisions == [] && s.events == [StateChanged(Pending)] && s.tokenIndex == map[]
               && !s.viaRelay && s.route == "local"
               && (forall f :: f in s.files <==> exists i :: 0 <= i < |m.entries| && m.entries[i].0 == f)
               && (forall i :: 0 <= i < |m.entries| && LastUnderItsId(m.entries, i) ==>
                     && m.entries[i].0 in s.files
                     && s.files[m.entries[i].0] == FileEntry(None, m.entries[i].1, FilePending))
  {
    hide Collect;
    CollectPending(m.entries);
    forall i | 0 <= i < |m.entries| && LastUnderItsId(m.entries, i)
      ensures m.entries[i].0 in NewSend(m).files
      ensures NewSend(m).files[m.entries[i].0] == FileEntry(None, m.entries[i].1, FilePending)
    {
      CollectLast(m.entries, i);
    }
  }

  ghost predicate LastUnderItsId(entries: seq<(string, FileInfo)>, i: nat)
    requires i < |entries|
  {
    forall j :: i < j < |entries| ==> entries[j].0 != entries[i].0
  }

  lemma {:induction false} CollectLast(entries: seq<(string, FileInfo)>, i: nat)
    requires i < |entries| && LastUnderItsId(entries, i)
    ensures entries[i].0 in Collect(entries) && Collect(entries)[entries[i].0]
            == FileEntry(None, entries[i].1, FilePending)
  {
    var n := |entries| - 1;
    if i < n {
      CollectLast(entries[..n], i);
      assert entries[n].0 != entries[i].0;
    }
  }

  /** The route labels: the last route marked stands; going through a relay is
      remembered, and makes a route that still reads local read turn. */
  lemma LabelLaw(s: Session, m: Message)
    requires !m.Creates()
    ensures var t := OnSession(s, m);
            && (t.viaRelay <==> s.viaRelay || m.MarkViaRelay?)
            && t.route == (if m.MarkRoute? then m.newRoute
                           else if m.MarkViaRelay? && s.route == "local" then "turn" else s.route)
            && t.id == s.id && t.peer == s.peer && t.direction == s.direction
  {
    hide SkipEvents, SkippedOf, AcceptedTokens, AcceptedFiles, CheckFinish, SetFileState;
    match m {
      case Accept(_, fileIds, order) =>
        FinishLabels(s);
        FinishLabels(AcceptSession(s, fileIds, order));
      case FinishFile(_, token, st) => if token in s.tokenIndex { FileLabels(s, s.tokenIndex[token], st); }
      case ReportFileState(_, f, st) => FileLabels(s, f, st);
      case _ =>
    }
  }

  ghost predicate SameLabels(s: Session, t: Session)
  {
    t.viaRelay == s.viaRelay && t.route == s.route && t.id == s.id && t.peer == s.peer && t.direction == s.direction
  }

  lemma FinishLabels(s: Session)
    ensures SameLabels(s, CheckFinish(s))
  {
  }

  lemma FileLabels(s: Session, f: string, st: FileState)
    ensures SameLabels(s, SetFileState(s, f, st))
  {
    hide CheckFinish;
    FinishLabels(MarkFile(s, f, st));
  }

  /** Over a whole run: a session is marked as relayed exactly if some message
      marked it, or it was before. */
  lemma {:induction false} RelayedExactly(w: World, msgs: seq<Message>, id: string)
    requires Legal(w, msgs) && id in w.sessions
    ensures id in Run(w, msgs).sessions
    ensures Run(w, msgs).sessions[id].viaRelay <==> w.sessions[id].viaRelay || MarkViaRelay(id) in msgs
    decreases |msgs|
  {
    hide OnSession;
    if msgs != [] {
      var m := msgs[0];
      if m.id == id {
        LabelLaw(w.sessions[id], m);
      } else {
        OthersUntouched(w, m, id);
      }
      RelayedExactly(Next(w, m), msgs[1..], id);
      assert MarkViaRelay(id) in msgs <==> m == MarkViaRelay(id) || MarkViaRelay(id) in msgs[1..];
    }
  }

  // --- answers --------------------------------------------------------------

  /** What the sender of a message is answered, in any run from an empty actor. A
      decision succeeds exactly on a receive session that waits for its user. A
      start succeeds exactly with the token of a file that is not yet finished,
      skipped or failed, in a receive session that is transferring, and tells which
      file that is; otherwise the answer says what is wrong. */
  lemma AnswerLaw(maxRecv: nat, msgs: seq<Message>, m: Message)
    requires Legal(Empty(maxRecv), msgs) && Plausible(Run(Empty(maxRecv), msgs), m)
    ensures var w := Run(Empty(maxRecv), msgs);
            && (m.Accept? || m.Decline? ==>
                  ReplyTo(w, m) == Outcome(if m.id !in w.sessions then Err(NotFound)
                                           else if !WaitsForUser(w.sessions[m.id]) then Err(InvalidState)
                                           else Ok(())))
            && (m.StartFile? ==> StartAnswer(w, m.id, m.token, ReplyTo(w, m)))
            && (!m.Creates() && !m.Accept? && !m.Decline? && !m.StartFile? ==> ReplyTo(w, m) == NoReply)
  {
    hide Run, Legal, TokensOk;
    var w := Run(Empty(maxRecv), msgs);
    if m.StartFile? && m.id in w.sessions {
      if w.sessions[m.id].direction == Receive {
        TokensAlways(maxRecv, msgs, m.id);
        StartLaw(w.sessions[m.id], m.token);
      }
    }
  }

  ghost predicate StartAnswer(w: World, id: string, token: string, reply: Reply)
  {
    && reply.Started?
    && (id !in w.sessions <==> reply == Started(Err(NotFound)))
    && (id in w.sessions ==>
          var s := w.sessions[id];
          if s.direction != Receive || s.state != Transfering then reply == Started(Err(InvalidState))
          else
            && ((forall f :: f in s.files ==> s.files[f].token != Some(token)) <==> reply == Started(Err(UnknownFile)))
            && (forall f :: f in s.files && s.files[f].token == Some(token) ==>
                  reply == Started(if s.files[f].state in {Finish, Skip} || s.files[f].state.Fail?
                                   then Err(InvalidState) else Ok((f, s.files[f].info)))))
  }

  lemma StartLaw(s: Session, token: string)
    requires s.direction == Receive && TokensOk(s)
    ensures s.state == Transfering ==>
            && ((forall f :: f in s.files ==> s.files[f].token != Some(token)) <==>
              Startable(s, token) == Err(UnknownFile))
            && (forall f :: f in s.files && s.files[f].token == Some(token) ==>
                  Startable(s, token) == if s.files[f].state in {Finish, Skip} || s.files[f].state.Fail?
                            then Err(InvalidState)
                                         else Ok(f))
  {
    if token in s.tokenIndex {
      assert s.files[s.tokenIndex[token]].token == Some(token);
    }
  }
}
