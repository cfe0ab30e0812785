/** The rest of what a card shows: byte counters, the reason of a failure, and the
    labels that never change. */
module CliLaws {
  import opened Bytes
  import opened SessionModel
  import opened SessionIndex
  import opened SessionRuns
  import opened SessionLaws
  import opened CliState
  import Text

  // --- what a step sends ----------------------------------------------------

  /** The events a message adds. */
  function News(s: Session, m: Message): seq<SessionEvent>
    requires !m.Creates()
  {
    var t := OnSession(s, m);
    if |s.events| <= |t.events| then t.events[|s.events|..] else []
  }

  /** A progress report is passed on as it is, and nothing else is sent as one. A
      session that is not live sends nothing else. */
  lemma NewsLaw(s: Session, m: Message)
    requires !m.Creates()
    ensures OnSession(s, m).events == s.events + News(s, m)
    ensures m.ReportProgress? ==> News(s, m) == [Progress(m.fileId, m.count)]
    ensures !m.ReportProgress? ==> forall e :: e in News(s, m) ==> !e.Progress?
    ensures !Live(s) && !m.ReportProgress? ==> News(s, m) == []
  {
    hide SkippedOf, AcceptedTokens, AcceptedFiles, CheckFinish, SetFileState;
    var t := OnSession(s, m);
    var news: seq<SessionEvent> := [];
    match m {
      case Accept(_, fileIds, order) =>
        var first := FinishNews(s);
        news := first;
        if PendingReceive(s) {
          var a := AcceptSession(s, fileIds, order);
          var skips := SkipEvents(SkippedOf(order, fileIds));
          SkipsAreNotProgress(SkippedOf(order, fileIds));
          var more := FinishNews(a);
          news := skips + [StateChanged(Transfering)] + more;
          assert a.events == s.events + (skips + [StateChanged(Transfering)]);
        }
      case FinishFile(_, token, st) =>
        if token in s.tokenIndex {
          news := FileNews(s, s.tokenIndex[token], st);
        }
      case ReportFileState(_, f, st) => news := FileNews(s, f, st);
      case ReportProgress(_, f, n) => news := [Progress(f, n)];
      case StartFile(_, token) =>
        news := if Startable(s, token).Ok? then [FileStateChanged(Startable(s, token).value, Transfer)] else [];
      case Decline(_) => news := if PendingReceive(s) then [StateChanged(Canceled)] else [];
      case Cancel(_) => news := if s.Active() then [StateChanged(Canceled)] else [];
      case ReportState(_, st) => news := if s.Active() then [StateChanged(st)] else [];
      case FailMsg(_, reason) => news := if s.Active() then [StateChanged(Failed), FailedWith(reason)] else [];
      case _ =>
    }
    assert t.events == s.events + news;
    assert News(s, m) == news;
  }

  lemma FinishNews(s: Session) returns (news: seq<SessionEvent>)
    ensures CheckFinish(s).events == s.events + news && (forall e :: e in news ==> !e.Progress?)
    ensures !Live(s) ==> news == []
  {
    news := if s.Done() then [StateChanged(Finished)] else [];
    assert s.events + [] == s.events;
  }

  lemma FileNews(s: Session, f: string, st: FileState) returns (news: seq<SessionEvent>)
    ensures SetFileState(s, f, st).events == s.events + news && (forall e :: e in news ==> !e.Progress?)
    ensures !Live(s) ==> news == []
  {
    hide CheckFinish;
    if s.Active() {
      var marked := if f in s.files then [FileStateChanged(f, st)] else [];
      var t := MarkFile(s, f, st);
      assert t.events == s.events + marked;
      if st.Fail? {
        news := marked + [StateChanged(Failed), FailedWith(st.msg)];
      } else {
        var more := FinishNews(t);
        news := marked + more;
      }
    } else {
      news := [];
    }
  }

  lemma {:induction false} SkipsAreNotProgress(skipped: seq<string>)
    ensures forall e :: e in SkipEvents(skipped) ==> !e.Progress?
  {
    if skipped != [] {
      SkipsAreNotProgress(skipped[1..]);
    }
  }

  // --- byte counters --------------------------------------------------------

  predicate CountsFor(m: Message, id: string, f: string) { m.ReportProgress? && m.id == id && m.fileId == f }

  /** The count last reported for file `f` of session `id`, or `before`. */
  function LastCount(msgs: seq<Message>, id: string, f: string, before: nat): nat
  {
    if msgs == [] then before
    else
      var n := |msgs| - 1;
      if CountsFor(msgs[n], id, f) then msgs[n].count
      else LastCount(msgs[..n], id, f, before)
  }

  lemma {:induction false} LastCountIs(msgs: seq<Message>, id: string, f: string, before: nat, k: nat)
    requires k < |msgs| && CountsFor(msgs[k], id, f) && forall l :: k < l < |msgs| ==> !CountsFor(msgs[l], id, f)
    ensures LastCount(msgs, id, f, before) == msgs[k].count
  {
    if k < |msgs| - 1 {
      LastCountIs(msgs[..|msgs| - 1], id, f, before, k);
    }
  }

  lemma {:induction false} NoCount(msgs: seq<Message>, id: string, f: string, before: nat)
    requires forall k :: 0 <= k < |msgs| ==> !CountsFor(msgs[k], id, f)
    ensures LastCount(msgs, id, f, before) == before
  {
    if msgs != [] {
      NoCount(msgs[..|msgs| - 1], id, f, before);
    }
  }

  /** What no event touches. */
  ghost predicate SameCard(v: View, u: View)
  {
    && u.id == v.id && u.direction == v.direction && u.peerAlias == v.peerAlias && u.peerAddr == v.peerAddr
    && |u.files| == |v.files|
    && forall j :: 0 <= j < |v.files| ==>
         u.files[j].id == v.files[j].id && u.files[j].name == v.files[j].name && u.files[j].size == v.files[j].size
  }

  lemma EventKeepsCard(v: View, e: SessionEvent)
    ensures SameCard(v, ApplyEvent(v, e))
    ensures !e.Progress? ==>
              forall j :: 0 <= j < |v.files| ==> ApplyEvent(v, e).files[j].transferred == v.files[j].transferred
  {
  }

  lemma {:induction false} FoldKeepsCard(v: View, events: seq<SessionEvent>)
    ensures SameCard(v, Fold(v, events))
    ensures (forall e :: e in events ==> !e.Progress?) ==>
              forall j :: 0 <= j < |v.files| ==> Fold(v, events).files[j].transferred == v.files[j].transferred
    decreases |events|
  {
    hide ApplyEvent;
    if events != [] {
      assert events[0] in events;
      EventKeepsCard(v, events[0]);
      FoldKeepsCard(ApplyEvent(v, events[0]), events[1..]);
    }
  }

  ghost predicate DistinctFiles(v: View)
  {
    forall i, j :: 0 <= i < j < |v.files| ==> v.files[i].id != v.files[j].id
  }

  /** Progress moves the counter of its own file, and of no other. */
  lemma ProgressMoves(v: View, f: string, n: nat)
    requires DistinctFiles(v)
    ensures forall j :: 0 <= j < |v.files| ==>
              ApplyEvent(v, Progress(f, n)).files[j].transferred == if v.files[j].id == f then n
                         else v.files[j].transferred
  {
  }

  ghost predicate Counts(v: View, u: View, msgs: seq<Message>, id: string)
  {
    && SameCard(v, u)
    && forall j :: 0 <= j < |v.files| ==>
         u.files[j].transferred == LastCount(msgs, id, v.files[j].id, v.files[j].transferred)
  }

  /** For every run of arbitrary messages: folding the events sent since into a card
      leaves each file's counter at the count last reported for it during the run,
      and where it was if none was reported. */
  lemma {:induction false} CountersFollow(w: World, msgs: seq<Message>, id: string, v: View)
    requires Legal(w, msgs) && id in w.sessions && DistinctFiles(v)
    ensures id in Run(w, msgs).sessions && w.sessions[id].events <= Run(w, msgs).sessions[id].events
    ensures Counts(v, Fold(v, Run(w, msgs).sessions[id].events[|w.sessions[id].events|..]), msgs, id)
    decreases |msgs|
  {
    hide OnSession, Fold, ApplyEvent, Next, Plausible;
    var s := w.sessions[id];
    if msgs == [] {
      NothingFolded(v, s.events);
    } else {
      var n := |msgs| - 1;
      var front, m := msgs[..n], msgs[n];
      assert msgs == front + [m];
      FrontLegal(w, front, m);
      CountersFollow(w, front, id, v);
      var w1 := Run(w, front);
      var news := StepNews(w1, m, id);
      var t, u := w1.sessions[id], Next(w1, m).sessions[id];
      var sent := t.events[|s.events|..];
      assert u.events == s.events + (sent + news) && u.events[|s.events|..] == sent + news;
      FoldAppend(v, sent, news);
      CountStep(v, Fold(v, sent), msgs, id, news);
    }
  }

  lemma NothingFolded(v: View, events: seq<SessionEvent>)
    ensures Fold(v, events[|events|..]) == v
  {
  }

  lemma {:induction false} FrontLegal(w: World, msgs: seq<Message>, m: Message)
    requires Legal(w, msgs + [m])
    ensures Legal(w, msgs) && Plausible(Run(w, msgs), m) && Run(w, msgs + [m]) == Next(Run(w, msgs), m)
    decreases |msgs|
  {
    hide Plausible, Next;
    if msgs == [] {
      assert msgs + [m] == [m] && [m][1..] == [];
    } else {
      assert (msgs + [m])[1..] == msgs[1..] + [m];
      FrontLegal(Next(w, msgs[0]), msgs[1..], m);
    }
  }

  /** What one message adds to the events of session `id`. */
  lemma StepNews(w: World, m: Message, id: string) returns (news: seq<SessionEvent>)
    requires Plausible(w, m) && id in w.sessions
    ensures id in Next(w, m).sessions && Next(w, m).sessions[id].events == w.sessions[id].events + news
    ensures m.ReportProgress? && m.id == id ==> news == [Progress(m.fileId, m.count)]
    ensures !(m.ReportProgress? && m.id == id) ==> forall e :: e in news ==> !e.Progress?
    ensures !Live(w.sessions[id]) && !(m.ReportProgress? && m.id == id) ==> news == []
  {
    hide OnSession;
    if m.id == id {
      NewsLaw(w.sessions[id], m);
      news := News(w.sessions[id], m);
    } else {
      OthersUntouched(w, m, id);
      news := [];
      assert w.sessions[id].events + [] == w.sessions[id].events;
    }
  }

  lemma CountStep(v: View, u: View, msgs: seq<Message>, id: string, news: seq<SessionEvent>)
    requires msgs != [] && DistinctFiles(v) && Counts(v, u, msgs[..|msgs| - 1], id)
    requires var m := msgs[|msgs| - 1];
             if m.ReportProgress? && m.id == id then news == [Progress(m.fileId, m.count)]
             else forall e :: e in news ==> !e.Progress?
    ensures Counts(v, Fold(u, news), msgs, id)
  {
    hide ApplyEvent;
    var m := msgs[|msgs| - 1];
    FoldKeepsCard(u, news);
    if m.ReportProgress? && m.id == id {
      FoldOne(u, Progress(m.fileId, m.count));
      ProgressMoves(u, m.fileId, m.count);
    }
  }

  /** From a snapshot, whose counters start at zero: each file's counter is the
      count last reported for it since. */
  lemma CountersSinceSnapshot(w: World, msgs: seq<Message>, id: string, sum: Summary, j: nat)
    requires Legal(w, msgs) && id in w.sessions && IsSummary(sum, w.sessions[id]) && WellKeyed(w.sessions[id])
    requires j < |sum.files|
    ensures id in Run(w, msgs).sessions && w.sessions[id].events <= Run(w, msgs).sessions[id].events
    ensures var u := Fold(FromSummary(sum), Run(w, msgs).sessions[id].events[|w.sessions[id].events|..]);
            && j < |u.files| && u.files[j].id == sum.files[j].info.id
            && u.files[j].transferred == LastCount(msgs, id, sum.files[j].info.id, 0)
  {
    hide Fold, Run, Legal, IsSummary;
    var v := FromSummary(sum);
    var keys := SummaryAgrees(sum, w.sessions[id]);
    DistinctIds(v, w.sessions[id], keys);
    CountersFollow(w, msgs, id, v);
  }

  // --- labels ---------------------------------------------------------------

  /** The card names the session, its direction, its peer and its files as they
      are. */
  ghost predicate Describes(v: View, s: Session, keys: seq<string>)
  {
    && v.id == s.id && v.direction == s.direction && v.peerAlias == s.peer.alias
    && v.peerAddr == s.peer.address + ":" + Text.Decimal(s.peer.port)
    && Enumerates(keys, s.files.Keys) && |v.files| == |keys|
    && forall j :: 0 <= j < |keys| ==>
         && keys[j] in s.files && v.files[j].id == s.files[keys[j]].info.id
         && v.files[j].name == s.files[keys[j]].info.fileName && v.files[j].size == s.files[keys[j]].info.size
  }

  lemma SummaryDescribes(sum: Summary, s: Session, keys: seq<string>)
    requires IsSummary(sum, s) && ListsFiles(sum.files, s, keys)
    ensures Describes(FromSummary(sum), s, keys)
  {
    hide Text.Decimal, LexLe;
    assert forall j :: 0 <= j < |keys| ==> keys[j] in keys;
  }

  /** A refresh from a summary of the same session leaves a card's labels alone. */
  lemma RefreshDescribes(v: View, s: Session, sum: Summary, keys: seq<string>)
    requires Describes(v, s, keys) && IsSummary(sum, s) && WellKeyed(s)
    ensures Describes(UpdateFromSummary(v, sum), s, keys)
  {
    hide UpdateFiles, Text.Decimal, ListsFiles;
    var order :| ListsFiles(sum.files, s, order);
    CountersSurvive(v.files, sum.files);
    assert Lists(v.files, keys);
    if keys == [] {
      NoFiles(s, sum, order, keys, v.files);
    } else {
      RefreshOne(v.files, s, sum.files, order, keys, 0);
    }
  }

  lemma {:induction false} DescribesRun(w: World, msgs: seq<Message>, id: string, v: View, keys: seq<string>)
    requires Legal(w, msgs) && id in w.sessions && Describes(v, w.sessions[id], keys)
    ensures id in Run(w, msgs).sessions && Describes(v, Run(w, msgs).sessions[id], keys)
    decreases |msgs|
  {
    hide OnSession, Text.Decimal;
    if msgs != [] {
      var m := msgs[0];
      if m.id == id {
        TokensUntouched(w.sessions[id], m);
        LabelLaw(w.sessions[id], m);
      } else {
        OthersUntouched(w, m, id);
      }
      DescribesRun(Next(w, m), msgs[1..], id, v, keys);
    }
  }

  /** For every run and every snapshot on the way: the card folded from the snapshot
      and the events since names session, direction, peer and files as they are. */
  lemma SnapshotDescribes(w: World, msgs: seq<Message>, id: string, sum: Summary) returns (keys: seq<string>)
    requires Legal(w, msgs) && id in w.sessions && IsSummary(sum, w.sessions[id])
    ensures id in Run(w, msgs).sessions && w.sessions[id].events <= Run(w, msgs).sessions[id].events
    ensures var s, t := w.sessions[id], Run(w, msgs).sessions[id];
            Describes(Fold(FromSummary(sum), t.events[|s.events|..]), t, keys)
  {
    hide Fold, Run, Legal, FromSummary, Describes, SameCard, ListsFiles;
    var s := w.sessions[id];
    keys :| ListsFiles(sum.files, s, keys);
    SummaryDescribes(sum, s, keys);
    DescribesRun(w, msgs, id, FromSummary(sum), keys);
    EventsGrow(w, msgs, id);
    var t := Run(w, msgs).sessions[id];
    var v := FromSummary(sum);
    FoldKeepsCard(v, t.events[|s.events|..]);
    SameDescription(v, Fold(v, t.events[|s.events|..]), t, keys);
  }

  lemma SameDescription(v: View, u: View, s: Session, keys: seq<string>)
    requires Describes(v, s, keys) && SameCard(v, u)
    ensures Describes(u, s, keys)
  {
    hide Text.Decimal;
  }

  lemma {:induction false} EventsGrow(w: World, msgs: seq<Message>, id: string)
    requires Legal(w, msgs) && id in w.sessions
    ensures id in Run(w, msgs).sessions && w.sessions[id].events <= Run(w, msgs).sessions[id].events
    decreases |msgs|
  {
    hide Next, Plausible;
    if msgs != [] {
      var news := StepNews(w, msgs[0], id);
      EventsGrow(Next(w, msgs[0]), msgs[1..], id);
    }
  }

  // --- the reason of a failure ----------------------------------------------

  lemma {:induction false} ReasonStays(v: View, events: seq<SessionEvent>)
    requires forall e :: e in events ==> e.Progress?
    ensures Fold(v, events).failReason == v.failReason && Fold(v, events).state == v.state
    decreases |events|
  {
    if events != [] {
      assert events[0] in events;
      ReasonStays(ApplyEvent(v, events[0]), events[1..]);
    }
  }

  /** What each event does to the state and the reason a card shows. */
  lemma EventLaw(v: View, e: SessionEvent)
    ensures ApplyEvent(v, e).state
         == if e.StateChanged? then e.state else if e.FailedWith? then Failed else v.state
    ensures ApplyEvent(v, e).failReason
         == if e.FailedWith? then Some(e.reason)
            else if e.FileStateChanged? && e.fileState.Fail? then Some(e.fileState.msg)
            else v.failReason
  {
  }

  /** The reason a message gives for ending the session it is sent to. */
  ghost predicate GivesReason(s: Session, m: Message, reason: string)
  {
    m.id == s.id && ((m.FailMsg? && m.reason == reason) || Reports(s, m, Fail(reason)))
  }

  lemma FailureShown(s: Session, m: Message, reason: string, v: View)
    requires Live(s) && !m.Creates() && GivesReason(s, m, reason)
    ensures var t := OnSession(s, m);
            s.events <= t.events
            && Fold(v, t.events[|s.events|..]).failReason == Some(reason)
            && Fold(v, t.events[|s.events|..]).state == Failed && t.state == Failed
  {
    var t := OnSession(s, m);
    var ending := [StateChanged(Failed), FailedWith(reason)];
    var front: seq<SessionEvent> := [];
    if m.FailMsg? {
      FailureAnnounced(s, m.id, reason);
    } else {
      FileFailureAnnounced(s, m, reason);
      front := if Reported(s, m) in s.files then [FileStateChanged(Reported(s, m), Fail(reason))] else [];
    }
    hide OnSession;
    StateLaw(s, m);
    assert t.events == s.events + (front + ending) && t.events[|s.events|..] == front + ending;
    FoldAppend(v, front, ending);
    EndsWithReason(Fold(v, front), reason);
    assert Fails(s, m);
  }

  lemma EndsWithReason(v: View, reason: string)
    ensures var u := Fold(v, [StateChanged(Failed), FailedWith(reason)]);
            u.failReason == Some(reason) && u.state == Failed
  {
    FoldOne(v, StateChanged(Failed));
    FoldOne(ApplyEvent(v, StateChanged(Failed)), FailedWith(reason));
    FoldAppend(v, [StateChanged(Failed)], [FailedWith(reason)]);
    assert [StateChanged(Failed)] + [FailedWith(reason)] == [StateChanged(Failed), FailedWith(reason)];
  }

  /** For every run of arbitrary messages in which a message gives a reason for
      failing a live session: from then on, whatever follows, the session is Failed
      and a card that takes in the events shows that reason. */
  lemma ReasonShown(w: World, m: Message, msgs: seq<Message>, reason: string, v: View)
    requires Legal(w, [m] + msgs) && m.id in w.sessions && Live(w.sessions[m.id]) && !m.Creates()
    requires w.sessions[m.id].id == m.id && GivesReason(w.sessions[m.id], m, reason)
    ensures var s := w.sessions[m.id];
            var after := Run(w, [m] + msgs).sessions;
            && m.id in after && after[m.id].state == Failed && s.events <= after[m.id].events
            && Fold(v, after[m.id].events[|s.events|..]).failReason == Some(reason)
            && Fold(v, after[m.id].events[|s.events|..]).state == Failed
  {
    hide OnSession, Fold, Plausible;
    assert ([m] + msgs)[1..] == msgs;
    var s, w1 := w.sessions[m.id], Next(w, m);
    var t := w1.sessions[m.id];
    FailureShown(s, m, reason, v);
    InactiveForever(w1, msgs, m.id);
    var more := OnlyProgress(w1, msgs, m.id);
    var u := Run(w1, msgs).sessions[m.id];
    var first := t.events[|s.events|..];
    assert u.events == s.events + (first + more) && u.events[|s.events|..] == first + more;
    FoldAppend(v, first, more);
    ReasonStays(Fold(v, first), more);
  }

  lemma {:induction false} OnlyProgress(w: World, msgs: seq<Message>, id: string) returns (news: seq<SessionEvent>)
    requires Legal(w, msgs) && id in w.sessions && !Live(w.sessions[id])
    ensures id in Run(w, msgs).sessions && Run(w, msgs).sessions[id].events == w.sessions[id].events + news
    ensures forall e :: e in news ==> e.Progress?
    decreases |msgs|
  {
    hide OnSession, Plausible;
    news := [];
    if msgs == [] {
      assert w.sessions[id].events + [] == w.sessions[id].events;
    } else {
      var m := msgs[0];
      var first := StepNews(w, m, id);
      StillOver(w, m, id);
      var rest := OnlyProgress(Next(w, m), msgs[1..], id);
      news := first + rest;
      assert w.sessions[id].events + first + rest == w.sessions[id].events + news;
    }
  }

  lemma StillOver(w: World, m: Message, id: string)
    requires Plausible(w, m) && id in w.sessions && !Live(w.sessions[id])
    ensures id in Next(w, m).sessions && !Live(Next(w, m).sessions[id])
  {
    hide OnSession;
    if m.id == id {
      StateLaw(w.sessions[id], m);
    } else {
      OthersUntouched(w, m, id);
    }
  }
}
