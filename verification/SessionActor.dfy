/** The actor that owns every session, as it runs: each operation updates the
    session map in place and republishes the index where the source does. */
module SessionActor {
  import opened Bytes
  import opened SessionModel
  import opened SessionIndex
  import opened SessionRuns

  method Summarize(s: Session) returns (sum: Summary)
    ensures IsSummary(sum, s)
  {
    var keys := SortKeys(s.files.Keys, map f | f in s.files :: s.files[f].info.fileName);
    var list: seq<FileSummary> := [];
    for i := 0 to |keys|
      invariant |list| == i
      invariant forall j :: 0 <= j < i ==>
                  list[j] == FileSummary(s.files[keys[j]].info, s.files[keys[j]].state)
    {
      assert keys[i] in keys;
      list := list + [FileSummary(s.files[keys[i]].info, s.files[keys[i]].state)];
    }
    sum := Summary(s.id, s.direction, s.peer, |s.files|, s.state, s.viaRelay, s.route, list);
    assert ListsFiles(list, s, keys);
  }

  /** The outcome of the pass once the files in `seen` have been visited. */
  ghost predicate Visited(
    s: Session, fileIds: Option<seq<string>>, seen: seq<string>, files: map<string, FileEntry>,
    tokens: map<string, string>)
  {
    && files.Keys == s.files.Keys
    && (forall f :: f in s.files ==>
          files[f] == if f in seen && !Chosen(fileIds, f) then s.files[f].(state := Skip) else s.files[f])
    && (forall f :: f in tokens <==> f in s.files && f in seen && Chosen(fileIds, f) && s.files[f].token.Some?)
    && (forall f :: f in tokens ==> tokens[f] == s.files[f].token.value)
  }

  lemma VisitOne(
    s: Session, fileIds: Option<seq<string>>, seen: seq<string>, files: map<string, FileEntry>,
    tokens: map<string, string>,
    f: string)
    requires Visited(s, fileIds, seen, files, tokens) && f in s.files && f !in seen
    ensures var files' := if Chosen(fileIds, f) then files else files[f := files[f].(state := Skip)];
            var tokens' := if Chosen(fileIds, f) && files[f].token.Some? then tokens[f := files[f].token.value]
              else tokens;
            Visited(s, fileIds, seen + [f], files', tokens')
  {
    hide Chosen;
  }

  lemma NoneVisited(s: Session, fileIds: Option<seq<string>>)
    ensures Visited(s, fileIds, [], s.files, map[])
  {
  }

  lemma NotYetSeen(order: seq<string>, i: nat)
    requires NoDup(order) && i < |order|
    ensures order[i] !in order[..i] && order[..i + 1] == order[..i] + [order[i]]
  {
  }

  lemma {:induction false} SkippedSnoc(a: seq<string>, f: string, fileIds: Option<seq<string>>)
    ensures SkippedOf(a + [f], fileIds) == SkippedOf(a, fileIds) + if Chosen(fileIds, f) then [] else [f]
  {
    if a == [] {
      assert [f][1..] == [] && [] + [f] == [f];
    } else {
      assert (a + [f])[1..] == a[1..] + [f];
      SkippedSnoc(a[1..], f, fileIds);
    }
  }

  lemma NothingSkipped(fileIds: Option<seq<string>>)
    ensures SkippedOf([], fileIds) == []
  {
  }

  lemma AllVisited(
    s: Session, fileIds: Option<seq<string>>, order: seq<string>, files: map<string, FileEntry>,
    tokens: map<string, string>)
    requires Visited(s, fileIds, order, files, tokens) && Enumerates(order, s.files.Keys)
    ensures files == AcceptedFiles(s, fileIds) && tokens == AcceptedTokens(s, fileIds)
  {
    hide Chosen;
  }

  /** One pass over the files in the order the hash map yields them. */
  method DecideFiles(s: Session, fileIds: Option<seq<string>>, order: seq<string>)
    returns (files: map<string, FileEntry>, tokens: map<string, string>, skipped: seq<string>)
    requires Enumerates(order, s.files.Keys)
    ensures files == AcceptedFiles(s, fileIds) && tokens == AcceptedTokens(s, fileIds)
    ensures skipped == SkippedOf(order, fileIds)
  {
    hide AcceptedFiles, AcceptedTokens, Chosen, Visited, SkippedOf;
    NothingSkipped(fileIds);
    files, tokens, skipped := s.files, map[], [];
    NoneVisited(s, fileIds);
    assert order[..0] == [];
    for i := 0 to |order|
      invariant files.Keys == s.files.Keys
      invariant Visited(s, fileIds, order[..i], files, tokens)
      invariant skipped == SkippedOf(order[..i], fileIds)
    {
      var f := order[i];
      assert f in order;
      NotYetSeen(order, i);
      SkippedSnoc(order[..i], f, fileIds);
      VisitOne(s, fileIds, order[..i], files, tokens, f);
      if Chosen(fileIds, f) {
        if files[f].token.Some? {
          tokens := tokens[f := files[f].token.value];
        }
      } else {
        files := files[f := files[f].(state := Skip)];
        skipped := skipped + [f];
      }
    }
    assert order[..|order|] == order;
    AllVisited(s, fileIds, order, files, tokens);
  }

  method EmitSkips(s: Session, skipped: seq<string>) returns (t: Session)
    ensures t == s.(events := s.events + SkipEvents(skipped))
  {
    t := s;
    for i := 0 to |skipped|
      invariant t == s.(events := t.events)
      invariant t.events + SkipEvents(skipped[i..]) == s.events + SkipEvents(skipped)
    {
      assert skipped[i..][1..] == skipped[i + 1..];
      t := t.Emit(FileStateChanged(skipped[i], Skip));
    }
    assert skipped[|skipped|..] == [];
    assert t.events + [] == t.events;
  }

  class Actor {
    const maxRecv: nat
    var sessions: map<string, Session>
    var index: seq<Summary>

    /** The messages handled so far. */
    ghost var log: seq<Message>

    constructor (maxRecv: nat)
      ensures this.maxRecv == maxRecv && Valid() && log == []
    {
      this.maxRecv, sessions, index, log := maxRecv, map[], [], [];
    }

    /** The actor is where a run over its log has taken it, with its index current. */
    ghost predicate Valid()
      reads this
    {
      Current() && Legal(Empty(maxRecv), log) && State() == Run(Empty(maxRecv), log)
    }

    /** What every history guarantees, and what a disciplined one does on top. */
    ghost predicate Accounted()
      requires Valid()
      reads this
    {
      && |ActiveReceives(State())| <= maxRecv && AllTokensOk(State())
      && (Disciplined(Empty(maxRecv), {}, log) ==> WorldOk(State(), UploadsAfter(Empty(maxRecv), {}, log)))
    }

    function State(): World
      reads this`sessions
    {
      World(sessions, maxRecv)
    }

    ghost predicate Keyed()
      reads this`sessions
    {
      forall id :: id in sessions ==> sessions[id].id == id
    }

    /** The published index is the index of the current sessions. */
    ghost predicate Current()
      reads this`sessions, this`index
    {
      Keyed() && IsIndex(index, sessions)
    }

    method BroadcastIndex()
      requires Keyed()
      modifies this`index
      ensures Current()
    {
      hide IsIndex, LexLe, IsSummary;
      var ids := SortKeys(sessions.Keys, map id | id in sessions :: id);
      var list: seq<Summary> := [];
      for i := 0 to |ids|
        invariant |list| == i
        invariant forall j :: 0 <= j < i ==>
                    ids[j] in sessions && list[j].id == ids[j] && IsSummary(list[j], sessions[ids[j]])
      {
        assert ids[i] in ids;
        var sum := Summarize(sessions[ids[i]]);
        SummaryNames(sum, sessions[ids[i]]);
        list := list + [sum];
      }
      IndexFrom(ids, list, sessions);
      index := list;
    }

    /** No broadcast when the session is there but no longer active: nothing
        changed. */
    method SetState(id: string, st: MissionState)
      requires Keyed()
      modifies this`sessions, this`index
      ensures Keyed()
      ensures sessions == if id in old(sessions)
              then old(sessions)[id := SessionModel.SetState(old(sessions[id]), st)] else old(sessions)
      ensures if id in old(sessions) && !old(sessions[id]).Active()
              then index == old(index) && sessions == old(sessions) else Current()
    {
      if id in sessions {
        assert sessions == sessions[id := sessions[id]];
        if !sessions[id].Active() {
          return;
        }
        sessions := sessions[id := sessions[id].(state := st).Emit(StateChanged(st))];
      }
      BroadcastIndex();
    }

    method CheckFinish(id: string)
      requires Keyed()
      modifies this`sessions, this`index
      ensures Keyed()
      ensures sessions == if id in old(sessions) then old(sessions)[id := SessionModel.CheckFinish(old(sessions[id]))]
              else old(sessions)
      ensures (sessions == old(sessions) && index == old(index)) || Current()
    {
      if id in sessions {
        assert sessions == sessions[id := sessions[id]];
        if sessions[id].Done() {
          SetState(id, Finished);
        }
      }
    }

    method FailSession(id: string, reason: string)
      requires Keyed()
      modifies this`sessions, this`index
      ensures Keyed()
      ensures sessions == if id in old(sessions)
              then old(sessions)[id := SessionModel.FailSession(old(sessions[id]), reason)] else old(sessions)
      ensures if id in old(sessions) && !old(sessions[id]).Active()
              then index == old(index) && sessions == old(sessions) else Current()
    {
      if id in sessions {
        assert sessions == sessions[id := sessions[id]];
        if !sessions[id].Active() {
          return;
        }
        var s := sessions[id].(state := Failed, tripped := true);
        s := s.Emit(StateChanged(Failed)).Emit(FailedWith(reason));
        if s.waiting {
          s := s.(waiting := false, decisions := s.decisions + [Aborted]);
        }
        sessions := sessions[id := s];
      }
      BroadcastIndex();
    }

    method CancelSession(id: string)
      requires Keyed()
      modifies this`sessions, this`index
      ensures Keyed()
      ensures sessions == if id in old(sessions)
              then old(sessions)[id := SessionModel.CancelSession(old(sessions[id]))] else old(sessions)
      ensures if id in old(sessions) && !old(sessions[id]).Active()
              then index == old(index) && sessions == old(sessions) else Current()
    {
      if id in sessions {
        assert sessions == sessions[id := sessions[id]];
        if !sessions[id].Active() {
          return;
        }
        var s := sessions[id].(state := Canceled, tripped := true).Emit(StateChanged(Canceled));
        if s.waiting {
          s := s.(waiting := false, decisions := s.decisions + [Aborted]);
        }
        sessions := sessions[id := s];
      }
      BroadcastIndex();
    }

    method SetFileState(id: string, f: string, st: FileState)
      requires Keyed()
      modifies this`sessions, this`index
      ensures Keyed()
      ensures sessions == if id in old(sessions)
              then old(sessions)[id := SessionModel.SetFileState(old(sessions[id]), f, st)] else old(sessions)
      ensures if id in old(sessions) && !old(sessions[id]).Active()
              then index == old(index) && sessions == old(sessions) else Current()
    {
      hide SessionModel.FailSession, SessionModel.CheckFinish, IsIndex;
      var fails := false;
      if id in sessions {
        assert sessions == sessions[id := sessions[id]];
        if !sessions[id].Active() {
          return;
        }
        var s := sessions[id];
        if f in s.files {
          s := s.WithFile(f, st).Emit(FileStateChanged(f, st));
        }
        sessions := sessions[id := s];
        assert s == MarkFile(old(sessions[id]), f, st) && s.Active();
        fails := st.Fail?;
      }
      if fails {
        FailSession(id, st.msg);
        return;
      }
      CheckFinish(id);
      BroadcastIndex();
    }

    method AcceptPending(
      id: string, fileIds: Option<seq<string>>, order: seq<string>) returns (r: Result<(), SessionError>)
      requires Keyed() && Plausible(State(), Accept(id, fileIds, order))
      modifies this`sessions
      ensures Keyed() && r == DecisionOutcome(old(State()), id)
      ensures sessions == if r.Ok? then old(sessions)[id := AcceptSession(old(sessions[id]), fileIds, order)]
              else old(sessions)
    {
      hide AcceptedFiles, AcceptedTokens, SkippedOf, SkipEvents;
      if id !in sessions {
        return Err(NotFound);
      }
      var s := sessions[id];
      if s.direction != Receive || s.state != Pending {
        return Err(InvalidState);
      }
      var files, tokens, skipped := DecideFiles(s, fileIds, order);
      s := EmitSkips(s.(files := files, state := Transfering), skipped);
      s := s.Emit(StateChanged(Transfering));
      if s.waiting {
        s := s.(waiting := false, decisions := s.decisions + [Accepted(tokens)]);
      }
      assert s == AcceptSession(old(sessions[id]), fileIds, order);
      sessions := sessions[id := s];
      r := Ok(());
    }

    method StartFileIn(id: string, token: string) returns (r: Result<(string, FileInfo), SessionError>)
      requires Keyed()
      modifies this`sessions
      ensures Keyed() && Started(r) == ReplyTo(old(State()), StartFile(id, token))
      ensures sessions == SessionModel.Next(old(State()), StartFile(id, token)).sessions
    {
      if id !in sessions {
        return Err(NotFound);
      }
      var s := sessions[id];
      assert sessions == sessions[id := s];
      if s.direction != Receive || s.state != Transfering {
        return Err(InvalidState);
      }
      if token !in s.tokenIndex {
        return Err(UnknownFile);
      }
      var f := s.tokenIndex[token];
      if f !in s.files {
        return Err(UnknownFile);
      }
      if s.files[f].state.IsTerminal() {
        return Err(InvalidState);
      }
      r := Ok((f, s.files[f].info));
      sessions := sessions[id := s.WithFile(f, Transfer).Emit(FileStateChanged(f, Transfer))];
    }

    /** Every message, on every path through its handler, leaves the published
        index equal to the index of the sessions it leaves behind. The receive limit
        and the tokens hold after any history; lifecycle, decisions and uploads
        after a disciplined one. */
    method HandleMessage(m: Message) returns (reply: Reply)
      requires Valid() && Plausible(State(), m)
      modifies this
      ensures Valid() && log == old(log) + [m] && Accounted()
      ensures State() == Next(old(State()), m) && reply == ReplyTo(old(State()), m)
    {
      hide Current, Run, Legal, Plausible, Next, Disciplined, WorldOk, AllTokensOk, ReplyTo, ActiveReceives;
      RunSnoc(Empty(maxRecv), log, m);
      reply := Handle(m);
      log := log + [m];
      StartsAccounted(maxRecv);
      ReceiveLimit(Empty(maxRecv), log);
      TokensKeptOk(Empty(maxRecv), log);
      if Disciplined(Empty(maxRecv), {}, log) {
        AlwaysOk(Empty(maxRecv), {}, log);
      }
    }

    method Handle(m: Message) returns (reply: Reply)
      requires Current() && Plausible(State(), m)
      modifies this`sessions, this`index
      ensures Current() && State() == Next(old(State()), m) && reply == ReplyTo(old(State()), m)
    {
      reply := NoReply;
      if m.id in sessions {
        assert sessions == sessions[m.id := sessions[m.id]];
      }
      match m {
        case CreateRecv(id, _, _, _) =>
          if |ActiveReceives(State())| >= maxRecv {
            reply := Created(Err(TooMany));
          } else {
            sessions := sessions[id := NewReceive(m)];
            BroadcastIndex();
            reply := Created(Ok(id));
          }
        case CreateSend(id, _, _) =>
          sessions := sessions[id := NewSend(m)];
          BroadcastIndex();
          reply := Created(Ok(id));
        case Accept(id, fileIds, order) =>
          reply := HandleAccept(id, fileIds, order);
        case Decline(id) =>
          reply := HandleDecline(id);
        case StartFile(id, token) =>
          var r := StartFileIn(id, token);
          BroadcastIndex();
          reply := Started(r);
        case _ => HandleReport(m);
      }
    }

    method HandleAccept(id: string, fileIds: Option<seq<string>>, order: seq<string>) returns (reply: Reply)
      requires Current() && Plausible(State(), Accept(id, fileIds, order))
      modifies this`sessions, this`index
      ensures Current()
      ensures State() == Next(old(State()), Accept(id, fileIds, order))
      ensures reply == ReplyTo(old(State()), Accept(id, fileIds, order))
    {
      hide AcceptSession, SessionModel.CheckFinish, IsIndex;
      var r := AcceptPending(id, fileIds, order);
      BroadcastIndex();
      CheckFinish(id);
      reply := Outcome(r);
    }

    method HandleDecline(id: string) returns (reply: Reply)
      requires Current()
      modifies this`sessions, this`index
      ensures Current()
      ensures State() == Next(old(State()), Decline(id))
      ensures reply == ReplyTo(old(State()), Decline(id))
    {
      hide IsIndex;
      var r := DecisionOutcome(State(), id);
      if r.Ok? {
        sessions := sessions[id := DeclineSession(sessions[id])];
      } else if id in sessions {
        assert sessions == sessions[id := sessions[id]];
      }
      BroadcastIndex();
      reply := Outcome(r);
    }

    /** The messages nobody waits on for an answer. */
    method HandleReport(m: Message)
      requires Current() && !m.Creates() && !m.Accept? && !m.Decline? && !m.StartFile?
      modifies this`sessions, this`index
      ensures Current() && State() == Next(old(State()), m)
    {
      hide IsIndex, SessionModel.SetFileState, SessionModel.SetState, SessionModel.FailSession,
           SessionModel.CancelSession;
      if m.id in sessions {
        assert sessions == sessions[m.id := sessions[m.id]];
      }
      match m {
        case Cancel(id) => CancelSession(id);
        case MarkViaRelay(id) =>
          if id in sessions {
            sessions := sessions[id := sessions[id].(viaRelay := true,
                                                     route := if sessions[id].route == "local" then "turn"
                                                       else sessions[id].route)];
          }
          BroadcastIndex();
        case MarkRoute(id, r) =>
          if id in sessions {
            sessions := sessions[id := sessions[id].(route := r)];
          }
          BroadcastIndex();
        case FinishFile(id, token, st) =>
          if id in sessions && token in sessions[id].tokenIndex {
            SetFileState(id, sessions[id].tokenIndex[token], st);
          }
        case ReportProgress(id, f, n) => HandleProgress(id, f, n);
        case ReportFileState(id, f, st) => SetFileState(id, f, st);
        case ReportState(id, st) => SetState(id, st);
        case FailMsg(id, reason) => FailSession(id, reason);
      }
    }

    /** Progress reaches observers of the session but not the index. */
    method HandleProgress(id: string, f: string, n: nat)
      requires Current()
      modifies this`sessions
      ensures Current() && State() == Next(old(State()), ReportProgress(id, f, n))
    {
      hide IsIndex;
      if id in sessions {
        var s := sessions[id];
        sessions := sessions[id := s.Emit(Progress(f, n))];
        EventsNotIndexed(index, old(sessions), id, s.Emit(Progress(f, n)));
      }
    }
  }

  lemma StartsAccounted(maxRecv: nat)
    ensures |ActiveReceives(Empty(maxRecv))| <= maxRecv && AllTokensOk(Empty(maxRecv)) && WorldOk(Empty(maxRecv), {})
  {
    assert ActiveReceives(Empty(maxRecv)) == {};
  }

  lemma SummaryNames(sum: Summary, s: Session)
    requires IsSummary(sum, s)
    ensures sum.id == s.id
  {
  }

  lemma EventsNotIndexed(index: seq<Summary>, sessions: map<string, Session>, id: string, t: Session)
    requires IsIndex(index, sessions) && id in sessions && t == sessions[id].(events := t.events)
    ensures IsIndex(index, sessions[id := t])
  {
    var after := sessions[id := t];
    forall i | 0 <= i < |index| ensures index[i].id in after && IsSummary(index[i], after[index[i].id]) {
      if index[i].id == id {
        var keys :| ListsFiles(index[i].files, sessions[id], keys);
        assert ListsFiles(index[i].files, t, keys);
      }
    }
  }
}
