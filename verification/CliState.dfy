/** The CLI's view of a session: built from a summary, advanced by the session's
    events; and the proof that it keeps up with the actor. */
module CliState {
  import opened Bytes
  import opened SessionModel
  import opened SessionIndex
  import SessionRuns
  import Text

  datatype FileView = FileView(id: string, name: string, size: int, transferred: nat, state: FileState)

  datatype View = View(
    id: string, direction: Direction, peerAlias: string, peerAddr: string, state: MissionState,
    files: seq<FileView>, failReason: Option<string>)
  {
    predicate IsTerminal() { state == Finished || state == Failed || state == Canceled }
  }

  function ViewOf(f: FileSummary): FileView { FileView(f.info.id, f.info.fileName, f.info.size, 0, f.state) }

  function FromSummary(s: Summary): View
  {
    View(s.id, s.direction, s.peer.alias, s.peer.address + ":" + Text.Decimal(s.peer.port), s.state,
         seq(|s.files|, i requires 0 <= i < |s.files| => ViewOf(s.files[i])), None)
  }

  /** `iter_mut().find(..)`: the first file with this id, or the length. */
  function FindFile(files: seq<FileView>, id: string): (i: nat)
    ensures i <= |files|
    ensures i < |files| ==> files[i].id == id
    ensures forall j :: 0 <= j < i ==> files[j].id != id
  {
    if files == [] || files[0].id == id then 0
    else
      var i := FindFile(files[1..], id);
      assert forall j :: 0 < j < 1 + i ==> files[j] == files[1..][j - 1];
      1 + i
  }

  function SetViewState(files: seq<FileView>, id: string, st: FileState): seq<FileView>
  {
    var i := FindFile(files, id);
    if i == |files| then files else files[i := files[i].(state := st)]
  }

  function SetTransferred(files: seq<FileView>, id: string, n: nat): seq<FileView>
  {
    var i := FindFile(files, id);
    if i == |files| then files else files[i := files[i].(transferred := n)]
  }

  function ApplyEvent(v: View, e: SessionEvent): View
  {
    match e
    case StateChanged(st) => v.(state := st)
    case FileStateChanged(f, st) =>
      v.(files := SetViewState(v.files, f, st), failReason := if st.Fail? then Some(st.msg) else v.failReason)
    case Progress(f, n) => v.(files := SetTransferred(v.files, f, n))
    case FailedWith(reason) => v.(state := Failed, failReason := Some(reason))
  }

  function Fold(v: View, events: seq<SessionEvent>): View
    decreases |events|
  {
    if events == [] then v else Fold(ApplyEvent(v, events[0]), events[1..])
  }

  lemma {:induction false} FoldAppend(v: View, a: seq<SessionEvent>, b: seq<SessionEvent>)
    ensures Fold(v, a + b) == Fold(Fold(v, a), b)
    decreases |a|
  {
    if a == [] {
      assert a + b == b;
    } else {
      assert (a + b)[1..] == a[1..] + b;
      FoldAppend(ApplyEvent(v, a[0]), a[1..], b);
    }
  }

  lemma FoldOne(v: View, e: SessionEvent)
    ensures Fold(v, [e]) == ApplyEvent(v, e)
  {
    assert [e][1..] == [];
  }

  // --- agreement with the actor ---------------------------------------------

  /** The view shows the session: its state, and its files in the order `keys`. */
  ghost predicate Agrees(v: View, s: Session, keys: seq<string>)
  {
    && v.state == s.state && Enumerates(keys, s.files.Keys) && |v.files| == |keys|
    && forall j :: 0 <= j < |keys| ==>
         var entry := s.files[keys[j]];
         v.files[j].id == entry.info.id && v.files[j].name == entry.info.fileName && v.files[j].state == entry.state
  }

  /** The reducer finds files by the id in their info, the actor by map key. */
  ghost predicate WellKeyed(s: Session)
  {
    forall f :: f in s.files ==> s.files[f].info.id == f
  }

  /** `t` came from `s` by sending `news` and nothing else that a view shows. */
  ghost predicate Kept(v: View, s: Session, t: Session, news: seq<SessionEvent>, keys: seq<string>)
  {
    t.events == s.events + news && Agrees(Fold(v, news), t, keys) && WellKeyed(t)
  }

  lemma KeptTrans(
    v: View, s: Session, t: Session, u: Session, a: seq<SessionEvent>, b: seq<SessionEvent>, keys: seq<string>)
    requires Kept(v, s, t, a, keys) && Kept(Fold(v, a), t, u, b, keys)
    ensures Kept(v, s, u, a + b, keys)
  {
    hide Agrees, WellKeyed;
    FoldAppend(v, a, b);
  }

  lemma KeptSame(v: View, s: Session, t: Session, keys: seq<string>)
    requires Agrees(v, s, keys) && WellKeyed(s) && t.events == s.events && t.files == s.files && t.state == s.state
    ensures Kept(v, s, t, [], keys)
  {
    assert s.events + [] == s.events;
  }

  /** A state change announced as such. */
  lemma KeptState(v: View, s: Session, t: Session, keys: seq<string>)
    requires Agrees(v, s, keys) && WellKeyed(s)
    requires t.files == s.files && t.events == s.events + [StateChanged(t.state)]
    ensures Kept(v, s, t, [StateChanged(t.state)], keys)
  {
    FoldOne(v, StateChanged(t.state));
  }

  lemma KeptFailed(v: View, s: Session, t: Session, reason: string, keys: seq<string>)
    requires Agrees(v, s, keys) && WellKeyed(s) && t.state == Failed
    requires t.files == s.files && t.events == s.events + [StateChanged(Failed), FailedWith(reason)]
    ensures Kept(v, s, t, [StateChanged(Failed), FailedWith(reason)], keys)
  {
    FoldOne(v, StateChanged(Failed));
    FoldOne(ApplyEvent(v, StateChanged(Failed)), FailedWith(reason));
    FoldAppend(v, [StateChanged(Failed)], [FailedWith(reason)]);
    assert [StateChanged(Failed)] + [FailedWith(reason)] == [StateChanged(Failed), FailedWith(reason)];
  }

  lemma KeptProgress(v: View, s: Session, f: string, n: nat, keys: seq<string>)
    requires Agrees(v, s, keys) && WellKeyed(s)
    ensures Kept(v, s, s.Emit(Progress(f, n)), [Progress(f, n)], keys)
  {
    FoldOne(v, Progress(f, n));
  }

  /** In a well-keyed session the reducer finds exactly the actor's file. */
  lemma FindsKey(v: View, s: Session, keys: seq<string>, f: string)
    requires Agrees(v, s, keys) && WellKeyed(s) && f in s.files
    ensures FindFile(v.files, f) < |keys| && keys[FindFile(v.files, f)] == f
    ensures forall j :: 0 <= j < |keys| && j != FindFile(v.files, f) ==> keys[j] != f
  {
    assert f in keys;
    var j :| 0 <= j < |keys| && keys[j] == f;
    assert v.files[j].id == f;
    var i := FindFile(v.files, f);
    assert keys[i] in s.files;
  }

  lemma KeptFile(v: View, s: Session, f: string, st: FileState, keys: seq<string>)
    requires Agrees(v, s, keys) && WellKeyed(s) && f in s.files
    ensures Kept(v, s, MarkFile(s, f, st), [FileStateChanged(f, st)], keys)
  {
    FindsKey(v, s, keys, f);
    FoldOne(v, FileStateChanged(f, st));
    var t := MarkFile(s, f, st);
    assert t.files.Keys == s.files.Keys;
    assert forall j :: 0 <= j < |keys| ==> keys[j] in s.files;
  }

  /** Some events bring the view from `s` to `t`. */
  ghost predicate Follows(v: View, s: Session, t: Session, keys: seq<string>)
  {
    s.events <= t.events && Kept(v, s, t, t.events[|s.events|..], keys)
  }

  lemma KeptFollows(v: View, s: Session, t: Session, news: seq<SessionEvent>, keys: seq<string>)
    requires Kept(v, s, t, news, keys)
    ensures Follows(v, s, t, keys) && t.events[|s.events|..] == news
  {
    hide Agrees, WellKeyed, Fold;
    assert t.events[|s.events|..] == news;
  }

  lemma FollowsTrans(v: View, s: Session, t: Session, u: Session, keys: seq<string>)
    requires Follows(v, s, t, keys)
    requires Follows(Fold(v, t.events[|s.events|..]), t, u, keys)
    ensures Follows(v, s, u, keys)
    ensures Fold(v, u.events[|s.events|..]) == Fold(Fold(v, t.events[|s.events|..]), u.events[|t.events|..])
  {
    hide Agrees, WellKeyed, Fold;
    var a, b := t.events[|s.events|..], u.events[|t.events|..];
    KeptTrans(v, s, t, u, a, b, keys);
    KeptFollows(v, s, u, a + b, keys);
    FoldAppend(v, a, b);
  }

  // --- each operation -------------------------------------------------------

  lemma FinishFollowed(v: View, s: Session, keys: seq<string>)
    requires Agrees(v, s, keys) && WellKeyed(s)
    ensures Follows(v, s, CheckFinish(s), keys)
  {
    hide Agrees, WellKeyed, Kept, Follows, Session.Done;
    var t := CheckFinish(s);
    if s.Done() && s.Active() {
      KeptState(v, s, t, keys);
      KeptFollows(v, s, t, [StateChanged(Finished)], keys);
    } else {
      KeptSame(v, s, t, keys);
      KeptFollows(v, s, t, [], keys);
    }
  }

  lemma FailFollowed(v: View, s: Session, reason: string, keys: seq<string>)
    requires Agrees(v, s, keys) && WellKeyed(s)
    ensures Follows(v, s, FailSession(s, reason), keys)
  {
    hide Agrees, WellKeyed, Kept, Follows;
    var t := FailSession(s, reason);
    if s.Active() {
      assert t.events == s.events + [StateChanged(Failed), FailedWith(reason)];
      KeptFailed(v, s, t, reason, keys);
      KeptFollows(v, s, t, [StateChanged(Failed), FailedWith(reason)], keys);
    } else {
      KeptSame(v, s, t, keys);
      KeptFollows(v, s, t, [], keys);
    }
  }

  lemma MarkFollowed(v: View, s: Session, f: string, st: FileState, keys: seq<string>)
    requires Agrees(v, s, keys) && WellKeyed(s)
    ensures Follows(v, s, MarkFile(s, f, st), keys)
  {
    hide Agrees, WellKeyed, Kept, Follows;
    if f in s.files {
      KeptFile(v, s, f, st, keys);
      KeptFollows(v, s, MarkFile(s, f, st), [FileStateChanged(f, st)], keys);
    } else {
      KeptSame(v, s, s, keys);
      KeptFollows(v, s, s, [], keys);
    }
  }

  lemma FollowedAgrees(v: View, s: Session, t: Session, keys: seq<string>)
    requires Follows(v, s, t, keys)
    ensures s.events <= t.events && Agrees(Fold(v, t.events[|s.events|..]), t, keys) && WellKeyed(t)
  {
  }

  lemma SetFileFollowed(v: View, s: Session, f: string, st: FileState, keys: seq<string>)
    requires Agrees(v, s, keys) && WellKeyed(s)
    ensures Follows(v, s, SetFileState(s, f, st), keys)
  {
    hide Agrees, WellKeyed, Kept, Follows, MarkFile, FailSession, CheckFinish, Fold;
    if s.Active() {
      var t := MarkFile(s, f, st);
      MarkFollowed(v, s, f, st, keys);
      FollowedAgrees(v, s, t, keys);
      var v' := Fold(v, t.events[|s.events|..]);
      if st.Fail? {
        FailFollowed(v', t, st.msg, keys);
      } else {
        FinishFollowed(v', t, keys);
      }
      FollowsTrans(v, s, t, SetFileState(s, f, st), keys);
    } else {
      KeptSame(v, s, s, keys);
      KeptFollows(v, s, s, [], keys);
    }
  }

  /** The files in `skipped` set to Skip, the rest as before. */
  lemma {:induction false} SkipsFolded(v: View, skipped: seq<string>)
    ensures var v' := Fold(v, SkipEvents(skipped));
            && v'.state == v.state && |v'.files| == |v.files|
            && forall j :: 0 <= j < |v.files| ==> v'.files[j].id == v.files[j].id && v'.files[j].name == v.files[j].name
    ensures (forall i, j :: 0 <= i < j < |v.files| ==> v.files[i].id != v.files[j].id) ==>
            forall j :: 0 <= j < |v.files| ==>
              Fold(v, SkipEvents(skipped)).files[j].state == if v.files[j].id in skipped then Skip else v.files[j].state
    decreases |skipped|
  {
    if skipped != [] {
      var v1 := ApplyEvent(v, FileStateChanged(skipped[0], Skip));
      assert SkipEvents(skipped)[1..] == SkipEvents(skipped[1..]);
      assert forall j :: 0 <= j < |v.files| ==> v1.files[j].id == v.files[j].id && v1.files[j].name == v.files[j].name;
      SkipsFolded(v1, skipped[1..]);
      assert forall x :: x in skipped <==> x == skipped[0] || x in skipped[1..];
    }
  }

  lemma {:induction false} SkippedMembers(order: seq<string>, fileIds: Option<seq<string>>, f: string)
    ensures f in SkippedOf(order, fileIds) <==> f in order && !Chosen(fileIds, f)
  {
    if order != [] {
      SkippedMembers(order[1..], fileIds, f);
      assert order == [order[0]] + order[1..];
    }
  }

  lemma AcceptFollowed(v: View, s: Session, fileIds: Option<seq<string>>, order: seq<string>, keys: seq<string>)
    requires Agrees(v, s, keys) && WellKeyed(s) && Enumerates(order, s.files.Keys)
    ensures Follows(v, s, AcceptSession(s, fileIds, order), keys)
  {
    var skipped := SkippedOf(order, fileIds);
    var news := SkipEvents(skipped) + [StateChanged(Transfering)];
    var t := AcceptSession(s, fileIds, order);
    hide SkipEvents, SkippedOf, AcceptedTokens, Chosen;
    assert t.events == s.events + news;
    SkipsFolded(v, skipped);
    DistinctIds(v, s, keys);
    FoldAppend(v, SkipEvents(skipped), [StateChanged(Transfering)]);
    FoldOne(Fold(v, SkipEvents(skipped)), StateChanged(Transfering));
    AcceptedShown(v, s, fileIds, order, keys, Fold(v, SkipEvents(skipped)).files);
    assert Agrees(Fold(v, news), t, keys);
    KeptFollows(v, s, t, news, keys);
  }

  lemma DistinctIds(v: View, s: Session, keys: seq<string>)
    requires Agrees(v, s, keys) && WellKeyed(s)
    ensures forall i, j :: 0 <= i < j < |v.files| ==> v.files[i].id != v.files[j].id
    ensures forall j :: 0 <= j < |keys| ==> keys[j] in s.files && v.files[j].id == keys[j]
  {
    assert forall j :: 0 <= j < |keys| ==> keys[j] in keys;
  }

  lemma AcceptedShown(
    v: View, s: Session, fileIds: Option<seq<string>>, order: seq<string>, keys: seq<string>, files: seq<FileView>)
    requires Agrees(v, s, keys) && WellKeyed(s) && Enumerates(order, s.files.Keys) && |files| == |v.files|
    requires forall j :: 0 <= j < |files| ==>
               && files[j].id == v.files[j].id && files[j].name == v.files[j].name
               && files[j].state == if v.files[j].id in SkippedOf(order, fileIds) then Skip else v.files[j].state
    ensures AcceptedFiles(s, fileIds).Keys == s.files.Keys && WellKeyed(s.(files := AcceptedFiles(s, fileIds)))
    ensures forall j :: 0 <= j < |keys| ==>
              var entry := AcceptedFiles(s, fileIds)[keys[j]];
              files[j].id == entry.info.id && files[j].name == entry.info.fileName && files[j].state == entry.state
  {
    hide SkippedOf, Chosen;
    DistinctIds(v, s, keys);
    forall j | 0 <= j < |keys| ensures keys[j] in SkippedOf(order, fileIds) <==> !Chosen(fileIds, keys[j]) {
      SkippedMembers(order, fileIds, keys[j]);
    }
  }

  /** One message, whatever it is. */
  lemma MessageFollowed(v: View, s: Session, m: Message, keys: seq<string>)
    requires Agrees(v, s, keys) && WellKeyed(s) && !m.Creates()
    requires m.Accept? ==> Enumerates(m.order, s.files.Keys)
    ensures Follows(v, s, OnSession(s, m), keys)
  {
    hide Agrees, WellKeyed, Kept, Follows, MarkFile, FailSession, CheckFinish, SetFileState, AcceptSession, Fold;
    var t := OnSession(s, m);
    match m {
      case Accept(_, fileIds, order) =>
        if PendingReceive(s) {
          var a := AcceptSession(s, fileIds, order);
          AcceptFollowed(v, s, fileIds, order, keys);
          FollowedAgrees(v, s, a, keys);
          FinishFollowed(Fold(v, a.events[|s.events|..]), a, keys);
          FollowsTrans(v, s, a, t, keys);
        } else {
          FinishFollowed(v, s, keys);
        }
      case StartFile(_, token) =>
        if Startable(s, token).Ok? {
          MarkFollowed(v, s, Startable(s, token).value, Transfer, keys);
        } else {
          Unchanged(v, s, t, keys);
        }
      case FinishFile(_, token, st) =>
        if token in s.tokenIndex {
          SetFileFollowed(v, s, s.tokenIndex[token], st, keys);
        } else {
          Unchanged(v, s, t, keys);
        }
      case ReportFileState(_, f, st) => SetFileFollowed(v, s, f, st, keys);
      case FailMsg(_, reason) => FailFollowed(v, s, reason, keys);
      case ReportProgress(_, f, n) =>
        KeptProgress(v, s, f, n, keys);
        KeptFollows(v, s, t, [Progress(f, n)], keys);
      case _ =>
        if t.events == s.events {
          Unchanged(v, s, t, keys);
        } else {
          KeptState(v, s, t, keys);
          KeptFollows(v, s, t, [StateChanged(t.state)], keys);
        }
    }
  }

  lemma Unchanged(v: View, s: Session, t: Session, keys: seq<string>)
    requires Agrees(v, s, keys) && WellKeyed(s) && t.events == s.events && t.files == s.files && t.state == s.state
    ensures Follows(v, s, t, keys)
  {
    KeptSame(v, s, t, keys);
    KeptFollows(v, s, t, [], keys);
  }

  // --- whole runs -----------------------------------------------------------

  lemma {:induction false} RunFollowed(w: World, msgs: seq<Message>, id: string, v: View, keys: seq<string>)
    requires Legal(w, msgs) && id in w.sessions && Agrees(v, w.sessions[id], keys) && WellKeyed(w.sessions[id])
    ensures id in Run(w, msgs).sessions && Follows(v, w.sessions[id], Run(w, msgs).sessions[id], keys)
    decreases |msgs|
  {
    hide Agrees, WellKeyed, Kept, Follows, OnSession, Fold;
    var s := w.sessions[id];
    if msgs == [] {
      Unchanged(v, s, s, keys);
    } else {
      var m := msgs[0];
      var t := Next(w, m).sessions[id];
      if m.id == id {
        MessageFollowed(v, s, m, keys);
      } else {
        SessionRuns.OthersUntouched(w, m, id);
        Unchanged(v, s, t, keys);
      }
      FollowedAgrees(v, s, t, keys);
      var v' := Fold(v, t.events[|s.events|..]);
      RunFollowed(Next(w, m), msgs[1..], id, v', keys);
      FollowsTrans(v, s, t, Run(w, msgs).sessions[id], keys);
    }
  }

  lemma SummaryAgrees(sum: Summary, s: Session) returns (keys: seq<string>)
    requires IsSummary(sum, s)
    ensures Agrees(FromSummary(sum), s, keys)
  {
    keys :| ListsFiles(sum.files, s, keys);
  }

  /** For every run of arbitrary messages and every snapshot of a session taken on
      the way: folding the events sent since with the reducer, starting from the
      snapshot's view, gives the actor's current state of the session and of each
      of its files. */
  lemma SnapshotPlusEvents(w: World, msgs: seq<Message>, id: string, sum: Summary) returns (keys: seq<string>)
    requires Legal(w, msgs) && id in w.sessions && IsSummary(sum, w.sessions[id]) && WellKeyed(w.sessions[id])
    ensures id in Run(w, msgs).sessions
    ensures var s, t := w.sessions[id], Run(w, msgs).sessions[id];
            s.events <= t.events && Agrees(Fold(FromSummary(sum), t.events[|s.events|..]), t, keys)
  {
    hide Agrees, WellKeyed, Follows, OnSession, Fold;
    keys := SummaryAgrees(sum, w.sessions[id]);
    RunFollowed(w, msgs, id, FromSummary(sum), keys);
    FollowedAgrees(FromSummary(sum), w.sessions[id], Run(w, msgs).sessions[id], keys);
  }

  /** A state that a file in state `st` is not in, and that settles nothing. */
  function Another(st: FileState): (r: FileState)
    ensures r != st && !r.IsSettled() && !r.Fail?
  {
    if st == Transfer then FilePending else Transfer
  }

  /** A file whose info carries another id than its key is lost to the reducer as
      soon as its state changes. */
  lemma MismatchBreaksView(v: View, s: Session, keys: seq<string>, f: string)
    requires Agrees(v, s, keys) && s.Active() && f in s.files && s.files[f].info.id != f
    ensures var t := OnSession(s, ReportFileState(s.id, f, Another(s.files[f].state)));
            s.events <= t.events && !Agrees(Fold(v, t.events[|s.events|..]), t, keys)
  {
    var st := Another(s.files[f].state);
    var t := MarkFile(s, f, st);
    assert t.files[f].state == st;
    assert !t.Done();
    assert OnSession(s, ReportFileState(s.id, f, st)) == t;
    assert t.events[|s.events|..] == [FileStateChanged(f, st)];
    FoldOne(v, FileStateChanged(f, st));
    assert f in keys;
    var j :| 0 <= j < |keys| && keys[j] == f;
    assert v.files[j].id != f;
    assert SetViewState(v.files, f, st)[j] == v.files[j];
  }

  /** So the reducer keeps up with an active session, whatever it is told next, if
      and only if every file's info carries the key it is stored under. */
  lemma KeepsUpExactly(v: View, s: Session, keys: seq<string>)
    requires Agrees(v, s, keys) && s.Active()
    ensures WellKeyed(s) <==>
            forall m: Message :: !m.Creates() && (m.Accept? ==> Enumerates(m.order, s.files.Keys)) ==>
              s.events <= OnSession(s, m).events
              && Agrees(Fold(v, OnSession(s, m).events[|s.events|..]), OnSession(s, m), keys)
  {
    hide Agrees, OnSession, Fold, Follows;
    if WellKeyed(s) {
      forall m: Message | !m.Creates() && (m.Accept? ==> Enumerates(m.order, s.files.Keys))
        ensures s.events <= OnSession(s, m).events
        ensures Agrees(Fold(v, OnSession(s, m).events[|s.events|..]), OnSession(s, m), keys)
      {
        MessageFollowed(v, s, m, keys);
        FollowedAgrees(v, s, OnSession(s, m), keys);
      }
    } else {
      var f :| f in s.files && s.files[f].info.id != f;
      MismatchBreaksView(v, s, keys, f);
      var m := ReportFileState(s.id, f, Another(s.files[f].state));
      assert !m.Creates() && !m.Accept?;
    }
  }

  // --- refreshing from a later snapshot -------------------------------------

  function UpdateFiles(files: seq<FileView>, from: seq<FileSummary>): seq<FileView>
    decreases |from|
  {
    if from == [] then files
    else
      var i := FindFile(files, from[0].info.id);
      UpdateFiles(if i < |files| then files[i := files[i].(state := from[0].state)]
                  else files + [ViewOf(from[0])], from[1..])
  }

  function UpdateFromSummary(v: View, sum: Summary): View
  {
    v.(state := sum.state, files := UpdateFiles(v.files, sum.files))
  }

  /** A refresh never touches a live byte counter. */
  lemma {:induction false} CountersSurvive(files: seq<FileView>, from: seq<FileSummary>)
    ensures |files| <= |UpdateFiles(files, from)|
    ensures forall j :: 0 <= j < |files| ==>
              UpdateFiles(files, from)[j] == files[j].(state := UpdateFiles(files, from)[j].state)
    decreases |from|
  {
    if from != [] {
      var i := FindFile(files, from[0].info.id);
      CountersSurvive(if i < |files| then files[i := files[i].(state := from[0].state)]
                      else files + [ViewOf(from[0])], from[1..]);
    }
  }

  /** The list has each file once, in the order `keys`. */
  ghost predicate Lists(files: seq<FileView>, keys: seq<string>)
  {
    |files| == |keys| && forall j :: 0 <= j < |keys| ==> files[j].id == keys[j]
  }

  lemma {:induction false} UpdatedState(files: seq<FileView>, keys: seq<string>, from: seq<FileSummary>, j: nat)
    requires NoDup(keys) && Lists(files, keys) && j < |keys|
    requires forall i :: 0 <= i < |from| ==> from[i].info.id in keys
    requires forall a, b :: 0 <= a < b < |from| ==> from[a].info.id != from[b].info.id
    ensures Lists(UpdateFiles(files, from), keys)
    ensures if exists i :: 0 <= i < |from| && from[i].info.id == keys[j]
            then exists i ::
                   0 <= i < |from| && from[i].info.id == keys[j] && UpdateFiles(files, from)[j].state == from[i].state
            else UpdateFiles(files, from)[j].state == files[j].state
    decreases |from|
  {
    if from != [] {
      var id := from[0].info.id;
      assert id in keys;
      var k :| 0 <= k < |keys| && keys[k] == id;
      assert files[k].id == id;
      var i := FindFile(files, id);
      assert i < |files| && keys[i] == id && i == k;
      var files' := files[i := files[i].(state := from[0].state)];
      assert Lists(files', keys);
      UpdatedState(files', keys, from[1..], j);
      if keys[j] == id {
        assert !exists a :: 0 <= a < |from[1..]| && from[1..][a].info.id == keys[j];
        assert from[0].info.id == keys[j];
      } else if exists a :: 0 <= a < |from[1..]| && from[1..][a].info.id == keys[j] {
        var a :| 0 <= a < |from[1..]| && from[1..][a].info.id == keys[j]
          && UpdateFiles(files', from[1..])[j].state == from[1..][a].state;
        assert from[a + 1] == from[1..][a];
      } else {
        forall a | 0 <= a < |from| ensures from[a].info.id != keys[j] {
          if a > 0 { assert from[a] == from[1..][a - 1]; }
        }
      }
    }
  }

  /** However stale a view's states are, one refresh from a summary of the session
      makes it agree again. */
  lemma RefreshAgrees(v: View, s: Session, sum: Summary, keys: seq<string>)
    requires IsSummary(sum, s) && WellKeyed(s) && Enumerates(keys, s.files.Keys) && Lists(v.files, keys)
    requires forall j :: 0 <= j < |keys| ==> keys[j] in s.files && v.files[j].name == s.files[keys[j]].info.fileName
    ensures Agrees(UpdateFromSummary(v, sum), s, keys)
  {
    hide UpdateFiles, ListsFiles, Enumerates;
    var order :| ListsFiles(sum.files, s, order);
    var u := UpdateFiles(v.files, sum.files);
    CountersSurvive(v.files, sum.files);
    forall j | 0 <= j < |keys|
      ensures Lists(u, keys) && keys[j] in s.files && u[j].state == s.files[keys[j]].state
    {
      RefreshOne(v.files, s, sum.files, order, keys, j);
    }
    if keys == [] {
      NoFiles(s, sum, order, keys, v.files);
    } else {
      RefreshOne(v.files, s, sum.files, order, keys, 0);
    }
    AgreesFrom(v, s, u, keys);
  }

  lemma AgreesFrom(v: View, s: Session, u: seq<FileView>, keys: seq<string>)
    requires WellKeyed(s) && Enumerates(keys, s.files.Keys) && Lists(v.files, keys) && Lists(u, keys)
    requires forall j :: 0 <= j < |keys| ==> keys[j] in s.files && v.files[j].name == s.files[keys[j]].info.fileName
    requires forall j :: 0 <= j < |v.files| ==> u[j] == v.files[j].(state := u[j].state)
    requires forall j :: 0 <= j < |keys| ==> u[j].state == s.files[keys[j]].state
    ensures Agrees(v.(state := s.state, files := u), s, keys)
  {
  }

  lemma RefreshOne(
    files: seq<FileView>, s: Session, list: seq<FileSummary>, order: seq<string>, keys: seq<string>, j: nat)
    requires ListsFiles(list, s, order) && WellKeyed(s) && Enumerates(keys, s.files.Keys) && Lists(files, keys)
             && j < |keys|
    ensures Lists(UpdateFiles(files, list), keys)
    ensures keys[j] in s.files && UpdateFiles(files, list)[j].state == s.files[keys[j]].state
  {
    hide UpdateFiles, LexLe;
    SummaryIds(list, s, order, keys);
    UpdatedState(files, keys, list, j);
    assert keys[j] in keys && keys[j] in order;
    var i :| 0 <= i < |order| && order[i] == keys[j];
    assert list[i].info.id == keys[j];
  }

  lemma SummaryIds(list: seq<FileSummary>, s: Session, order: seq<string>, keys: seq<string>)
    requires ListsFiles(list, s, order) && WellKeyed(s) && Enumerates(keys, s.files.Keys)
    ensures forall i :: 0 <= i < |list| ==>
              list[i].info.id == order[i] && order[i] in keys && list[i].state == s.files[order[i]].state
    ensures forall a, b :: 0 <= a < b < |list| ==> list[a].info.id != list[b].info.id
  {
    assert forall i :: 0 <= i < |order| ==> order[i] in order;
  }

  lemma NoFiles(s: Session, sum: Summary, order: seq<string>, keys: seq<string>, files: seq<FileView>)
    requires ListsFiles(sum.files, s, order) && Enumerates(keys, s.files.Keys) && keys == [] && Lists(files, keys)
    ensures Lists(UpdateFiles(files, sum.files), keys)
  {
    assert forall i :: 0 <= i < |order| ==> order[i] in order;
  }
}
