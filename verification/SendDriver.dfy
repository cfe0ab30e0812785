/** The send driver, from the receiver's answer onward: the reports it makes to
    the session actor and where the send session ends, whatever else the actor
    is told meanwhile. */
module SendDriver {
  import opened Bytes
  import opened SessionModel
  import opened SessionActor
  import opened SessionRuns

  /** File id and token, in the order the response map yields them. */
  type Response = seq<(string, string)>

  predicate DistinctNames(response: Response)
  {
    forall i, j :: 0 <= i < j < |response| ==> response[i].0 != response[j].0
  }

  predicate Names(response: Response, f: string) { exists i :: 0 <= i < |response| && response[i].0 == f }

  // --- the reports ----------------------------------------------------------

  predicate IsReport(m: Message, id: string)
  {
    m.id == id && (m.ReportFileState? || (m.ReportState? && m.state == Transfering))
  }

  function SkipAll(id: string, entries: seq<(string, FileInfo)>): (r: seq<Message>)
    ensures forall m :: m in r ==> IsReport(m, id)
  {
    if entries == [] then [] else [ReportFileState(id, entries[0].0, Skip)] + SkipAll(id, entries[1..])
  }

  /** Files that were not offered are passed over; the first upload in `broken`
      (file id to error text) ends the driver. */
  function UploadReports(
    id: string, offered: set<string>, response: Response, broken: map<string, string>): (r: seq<Message>)
    ensures forall m :: m in r ==> IsReport(m, id)
  {
    if response == [] then []
    else
      var f := response[0].0;
      if f !in offered then UploadReports(id, offered, response[1..], broken)
      else if f in broken then [ReportFileState(id, f, Transfer), ReportFileState(id, f, Fail(broken[f]))]
      else
        [ReportFileState(id, f, Transfer), ReportFileState(id, f, Finish)]
        + UploadReports(id, offered, response[1..], broken)
  }

  function Offered(entries: seq<(string, FileInfo)>): set<string>
  {
    set i | 0 <= i < |entries| :: entries[i].0
  }

  function Reports(
    id: string, entries: seq<(string, FileInfo)>, response: Response, broken: map<string, string>): (r: seq<Message>)
    ensures forall m :: m in r ==> IsReport(m, id)
  {
    if response == [] then SkipAll(id, entries)
    else [ReportState(id, Transfering)] + UploadReports(id, Offered(entries), response, broken)
  }

  // --- the driver as it runs ------------------------------------------------

  lemma {:induction false} ReportsLegal(w: World, msgs: seq<Message>, id: string)
    requires forall m :: m in msgs ==> IsReport(m, id)
    ensures Legal(w, msgs)
    decreases |msgs|
  {
    if msgs != [] {
      assert msgs[0] in msgs;
      ReportsLegal(Next(w, msgs[0]), msgs[1..], id);
    }
  }

  lemma RunHead(w: World, m: Message, rest: seq<Message>)
    requires Legal(w, [m] + rest)
    ensures Plausible(w, m) && Legal(Next(w, m), rest) && Run(w, [m] + rest) == Run(Next(w, m), rest)
  {
    assert ([m] + rest)[1..] == rest;
  }

  /** Tell the actor, and account for it. */
  method Tell(actor: Actor, m: Message, ghost rest: seq<Message>)
    requires actor.Valid() && Legal(actor.State(), [m] + rest)
    modifies actor
    ensures actor.Valid() && Legal(actor.State(), rest)
    ensures Run(actor.State(), rest) == old(Run(actor.State(), [m] + rest))
  {
    RunHead(actor.State(), m, rest);
    var _ := actor.HandleMessage(m);
  }

  method SkipEntries(actor: Actor, id: string, entries: seq<(string, FileInfo)>)
    requires actor.Valid() && Legal(actor.State(), SkipAll(id, entries))
    modifies actor
    ensures actor.Valid() && actor.State() == old(Run(actor.State(), SkipAll(id, entries)))
  {
    hide Run, Legal, Actor.Current;
    for i := 0 to |entries|
      invariant actor.Valid() && Legal(actor.State(), SkipAll(id, entries[i..]))
      invariant Run(actor.State(), SkipAll(id, entries[i..])) == old(Run(actor.State(), SkipAll(id, entries)))
    {
      assert entries[i..][1..] == entries[i + 1..];
      Tell(actor, ReportFileState(id, entries[i].0, Skip), SkipAll(id, entries[i + 1..]));
    }
    RunNothing(actor.State());
  }

  lemma RunNothing(w: World)
    ensures Legal(w, []) && Run(w, []) == w
  {
  }

  /** From the prepared response to the end: what the actor was told, and where
      that leaves a session created for these entries. */
  method RunSendDriver(
    actor: Actor, id: string, entries: seq<(string, FileInfo)>, response: Response, broken: map<string, string>)
    requires actor.Valid()
    modifies actor
    ensures Legal(old(actor.State()), Reports(id, entries, response, broken))
    ensures actor.Valid() && actor.State() == old(Run(actor.State(), Reports(id, entries, response, broken)))
    ensures id in old(actor.sessions) && FreshSend(old(actor.sessions[id]), entries) && DistinctNames(response) ==>
              id in actor.sessions && EndsAs(old(actor.sessions[id]), actor.sessions[id], response, broken)
  {
    hide Run, Legal, Actor.Current, FreshSend, EndsAs, Reports, DistinctNames;
    ghost var w := actor.State();
    Upload(actor, id, entries, response, broken);
    if id in w.sessions && FreshSend(w.sessions[id], entries) && DistinctNames(response) {
      AllMove(Reports(id, entries, response, broken), id);
      FreshRun(w, Reports(id, entries, response, broken), id, entries, response, broken);
    }
  }

  lemma {:induction false} AllMove(msgs: seq<Message>, id: string)
    requires forall m :: m in msgs ==> IsReport(m, id)
    ensures Moving(msgs, id) == msgs
  {
    if msgs != [] {
      assert msgs[0] in msgs;
      AllMove(msgs[1..], id);
      assert msgs == [msgs[0]] + msgs[1..];
    }
  }

  method Upload(
    actor: Actor, id: string, entries: seq<(string, FileInfo)>, response: Response, broken: map<string, string>)
    requires actor.Valid()
    modifies actor
    ensures Legal(old(actor.State()), Reports(id, entries, response, broken))
    ensures actor.Valid() && actor.State() == old(Run(actor.State(), Reports(id, entries, response, broken)))
  {
    hide Run, Legal, Actor.Current, Offered;
    ReportsLegal(actor.State(), Reports(id, entries, response, broken), id);
    if response == [] {
      SkipEntries(actor, id, entries);
      return;
    }
    var offered := Offered(entries);
    Tell(actor, ReportState(id, Transfering), UploadReports(id, offered, response, broken));
    for i := 0 to |response|
      invariant actor.Valid() && Legal(actor.State(), UploadReports(id, offered, response[i..], broken))
      invariant Run(actor.State(), UploadReports(id, offered, response[i..], broken))
                == old(Run(actor.State(), Reports(id, entries, response, broken)))
    {
      var f := response[i].0;
      assert response[i..][0].0 == f && response[i..][1..] == response[i + 1..];
      if f !in offered {
        continue;
      }
      ghost var rest := if f in broken then [] else UploadReports(id, offered, response[i + 1..], broken);
      var last := ReportFileState(id, f, if f in broken then Fail(broken[f]) else Finish);
      assert UploadReports(id, offered, response[i..], broken) == [ReportFileState(id, f, Transfer)] + ([last] + rest);
      Tell(actor, ReportFileState(id, f, Transfer), [last] + rest);
      Tell(actor, last, rest);
      if f in broken {
        RunNothing(actor.State());
        return;
      }
    }
    RunNothing(actor.State());
  }

  // --- only its own reports matter ------------------------------------------

  /** The messages that move a send session: the driver's reports, a failure and
      a cancellation. */
  predicate Moves(m: Message, id: string)
  {
    m.id == id && (m.ReportFileState? || m.ReportState? || m.FailMsg? || m.Cancel?)
  }

  function Moving(msgs: seq<Message>, id: string): (r: seq<Message>)
    ensures forall m :: m in r ==> m in msgs && Moves(m, id)
  {
    if msgs == [] then []
    else (if Moves(msgs[0], id) then [msgs[0]] else []) + Moving(msgs[1..], id)
  }

  /** One session on its own. */
  function Drive(s: Session, msgs: seq<Message>): Session
    requires forall m :: m in msgs ==> !m.Creates()
    decreases |msgs|
  {
    if msgs == [] then s else Drive(OnSession(s, msgs[0]), msgs[1..])
  }

  /** Equal up to events and labels. */
  ghost predicate Same(s: Session, t: Session)
  {
    && s.state == t.state && s.files == t.files && s.direction == t.direction && s.tripped == t.tripped
    && s.tokenIndex == t.tokenIndex
  }

  ghost predicate SendOk(s: Session) { s.direction == Send && SessionOk(s, iset{}) }

  /** Everything else leaves a send session where it is: decisions and uploads
      are refused, progress and route reports only inform. */
  lemma OthersDoNotMove(s: Session, m: Message)
    requires SendOk(s) && !m.Creates() && !Moves(m, m.id)
    ensures Same(OnSession(s, m), s) && SendOk(OnSession(s, m))
  {
    NotDoneYet(s);
    match m {
      case Accept(_, _, _) =>
      case StartFile(_, _) =>
      case FinishFile(_, _, _) =>
      case _ => SimpleStepOk(s, m, iset{});
    }
  }

  lemma MoveKeepsSame(s: Session, t: Session, m: Message)
    requires SendOk(s) && SendOk(t) && Same(s, t) && Moves(m, m.id) && (m.ReportState? ==> m.state == Transfering)
    ensures Same(OnSession(s, m), OnSession(t, m)) && SendOk(OnSession(s, m)) && SendOk(OnSession(t, m))
  {
    MoveKeepsOk(s, m);
    MoveKeepsOk(t, m);
    MoveIsLocal(s, t, m);
  }

  lemma MoveKeepsOk(s: Session, m: Message)
    requires SendOk(s) && Moves(m, m.id) && (m.ReportState? ==> m.state == Transfering)
    ensures SendOk(OnSession(s, m))
  {
    hide SessionOk, SetFileState, FailSession, CancelSession;
    if m.ReportFileState? {
      SetFileStateOk(s, m.fileId, m.fileState, iset{});
    } else {
      SimpleStepOk(s, m, iset{});
    }
    KeptByAll(s, m);
  }

  lemma MoveIsLocal(s: Session, t: Session, m: Message)
    requires Same(s, t) && !s.waiting && !t.waiting && Moves(m, m.id)
    ensures Same(OnSession(s, m), OnSession(t, m))
  {
    hide MarkFile, CheckFinish, SetFileState;
    if m.ReportFileState? {
      FileIsLocal(s, t, m.fileId, m.fileState);
    }
  }

  lemma FileIsLocal(s: Session, t: Session, f: string, st: FileState)
    requires Same(s, t) && !s.waiting && !t.waiting
    ensures Same(SetFileState(s, f, st), SetFileState(t, f, st))
  {
    hide MarkFile, CheckFinish;
    MarkIsLocal(s, t, f, st);
    FinishIsLocal(MarkFile(s, f, st), MarkFile(t, f, st));
  }

  lemma MarkIsLocal(s: Session, t: Session, f: string, st: FileState)
    requires Same(s, t)
    ensures Same(MarkFile(s, f, st), MarkFile(t, f, st))
    ensures MarkFile(s, f, st).waiting == s.waiting && MarkFile(t, f, st).waiting == t.waiting
    ensures MarkFile(s, f, st).state == s.state
  {
  }

  lemma FinishIsLocal(s: Session, t: Session)
    requires Same(s, t)
    ensures Same(CheckFinish(s), CheckFinish(t))
  {
  }

  /** However the driver's reports are interleaved with messages for other
      sessions and with messages that do not move this one, the send session ends
      where the reports alone would take it. */
  lemma {:induction false} Projection(w: World, msgs: seq<Message>, id: string, t: Session)
    requires Legal(w, msgs) && id in w.sessions && SendOk(w.sessions[id]) && SendOk(t) && Same(w.sessions[id], t)
    requires forall m :: m in Moving(msgs, id) && m.ReportState? ==> m.state == Transfering
    ensures id in Run(w, msgs).sessions && Same(Run(w, msgs).sessions[id], Drive(t, Moving(msgs, id)))
    decreases |msgs|
  {
    hide SendOk, Same, OnSession;
    if msgs != [] {
      var m := msgs[0];
      var w' := Next(w, m);
      var rest := Moving(msgs[1..], id);
      if m.id != id {
        OthersUntouched(w, m, id);
        assert Moving(msgs, id) == rest;
        Projection(w', msgs[1..], id, t);
      } else if Moves(m, id) {
        assert Moving(msgs, id) == [m] + rest && ([m] + rest)[1..] == rest;
        assert m in Moving(msgs, id);
        MoveKeepsSame(w.sessions[id], t, m);
        Projection(w', msgs[1..], id, OnSession(t, m));
      } else {
        assert Moving(msgs, id) == rest;
        OthersDoNotMove(w.sessions[id], m);
        SameTrans(w'.sessions[id], w.sessions[id], t);
        Projection(w', msgs[1..], id, t);
      }
    }
  }

  lemma SameTrans(a: Session, b: Session, c: Session)
    requires Same(a, b) && Same(b, c)
    ensures Same(a, c)
  {
  }

  // --- where the reports lead -----------------------------------------------

  ghost predicate AllSettled(s: Session)
  {
    s.files.Keys != {} && forall f :: f in s.files ==> s.files[f].state.IsSettled()
  }

  /** Where the first upload that breaks is; the length when none does. */
  function FirstBroken(offered: set<string>, response: Response, broken: map<string, string>): (k: nat)
    ensures k <= |response|
    ensures forall i :: 0 <= i < k ==> response[i].0 !in offered || response[i].0 !in broken
    ensures k < |response| ==> response[k].0 in offered && response[k].0 in broken
  {
    if response == [] || (response[0].0 in offered && response[0].0 in broken) then 0
    else
      var k := FirstBroken(offered, response[1..], broken);
      assert forall i :: 0 < i < 1 + k ==> response[i] == response[1..][i - 1];
      1 + k
  }

  /** The files named before the break are Finish, the one that broke is Fail, and
      all others are as they were. */
  ghost predicate Uploaded(s: Session, t: Session, response: Response, broken: map<string, string>)
  {
    var k := FirstBroken(s.files.Keys, response, broken);
    && t.files.Keys == s.files.Keys
    && forall f :: f in s.files ==>
         t.files[f] == s.files[f].(state :=
           if Names(response[..k], f) then Finish
           else if k < |response| && f == response[k].0 then Fail(broken[f])
           else s.files[f].state)
  }

  /** A send session with the driver at work on it. */
  ghost predicate Uploading(s: Session)
  {
    s.state == Transfering && !s.tripped && !AllSettled(s)
  }

  lemma StartsOne(s: Session, id: string, f: string)
    requires Uploading(s) && f in s.files
    ensures var t := OnSession(s, ReportFileState(id, f, Transfer));
            Uploading(t) && t.files == s.files[f := s.files[f].(state := Transfer)]
  {
    var t := OnSession(s, ReportFileState(id, f, Transfer));
    assert t.files == s.files[f := s.files[f].(state := Transfer)];
    assert !t.files[f].state.IsSettled();
  }

  lemma FinishesOne(s: Session, id: string, f: string)
    requires Uploading(s) && f in s.files
    ensures var t := OnSession(s, ReportFileState(id, f, Finish));
            && t.files == s.files[f := s.files[f].(state := Finish)] && !t.tripped
            && t.state == if AllSettled(t) then Finished else Transfering
  {
  }

  lemma BreaksOne(s: Session, id: string, f: string, msg: string)
    requires Uploading(s) && f in s.files
    ensures var t := OnSession(s, ReportFileState(id, f, Fail(msg)));
            t.files == s.files[f := s.files[f].(state := Fail(msg))] && t.tripped && t.state == Failed
  {
  }

  lemma NamesCons(response: Response, k: nat, f: string)
    requires response != [] && k < |response|
    ensures response[..k + 1] == [response[0]] + response[1..][..k]
    ensures Names(response[..k + 1], f) <==> f == response[0].0 || Names(response[1..][..k], f)
  {
    var a, b := response[..k + 1], response[1..][..k];
    assert a == [response[0]] + b;
    if Names(b, f) {
      var i :| 0 <= i < |b| && b[i].0 == f;
      assert a[i + 1].0 == f;
    }
    if Names(a, f) && f != response[0].0 {
      var i :| 0 <= i < |a| && a[i].0 == f;
      assert b[i - 1].0 == f;
    }
  }

  /** Nothing more is reported when the rest of the response names no offered file. */
  lemma {:induction false} NoneOffered(
    id: string, offered: set<string>, response: Response, broken: map<string, string>)
    requires forall i :: 0 <= i < |response| ==> response[i].0 !in offered
    ensures UploadReports(id, offered, response, broken) == [] && FirstBroken(offered, response, broken) == |response|
  {
    if response != [] {
      NoneOffered(id, offered, response[1..], broken);
    }
  }

  /** The files still to come are pending. */
  ghost predicate Waiting(s: Session, response: Response)
  {
    forall i :: 0 <= i < |response| && response[i].0 in s.files ==> s.files[response[i].0].state == FilePending
  }

  lemma {:induction false} UploadsLead(s: Session, id: string, response: Response, broken: map<string, string>)
    requires Uploading(s) && DistinctNames(response) && Waiting(s, response)
    ensures var t := Drive(s, UploadReports(id, s.files.Keys, response, broken));
            && Uploaded(s, t, response, broken)
            && t.tripped == (t.state == Failed)
            && t.state == if FirstBroken(s.files.Keys, response, broken) < |response| then Failed
                          else if AllSettled(t) then Finished else Transfering
    decreases |response|
  {
    hide OnSession, AllSettled, Uploaded;
    var offered := s.files.Keys;
    if response == [] {
      NothingUploaded(s, broken);
    } else {
      var f, rest := response[0].0, response[1..];
      var later := UploadReports(id, offered, rest, broken);
      assert forall i :: 0 <= i < |rest| ==> rest[i] == response[i + 1] && rest[i].0 != f;
      if f !in offered {
        UploadsLead(s, id, rest, broken);
        PassedOver(s, Drive(s, later), response, broken);
      } else if f in broken {
        StartsOne(s, id, f);
        var s1 := OnSession(s, ReportFileState(id, f, Transfer));
        BreaksOne(s1, id, f, broken[f]);
        DriveTwo(s, ReportFileState(id, f, Transfer), ReportFileState(id, f, Fail(broken[f])), []);
        BrokenAtOnce(s, OnSession(s1, ReportFileState(id, f, Fail(broken[f]))), response, broken);
      } else {
        StartsOne(s, id, f);
        var s1 := OnSession(s, ReportFileState(id, f, Transfer));
        FinishesOne(s1, id, f);
        var s2 := OnSession(s1, ReportFileState(id, f, Finish));
        DriveTwo(s, ReportFileState(id, f, Transfer), ReportFileState(id, f, Finish), later);
        assert s2.files == s.files[f := s.files[f].(state := Finish)];
        assert s2.files.Keys == offered;
        if AllSettled(s2) {
          SettledIsEnd(s2, id, rest, broken);
        } else {
          StillUploading(s2);
          UploadsLead(s2, id, rest, broken);
        }
        OneMore(s, s2, Drive(s2, later), response, broken);
      }
    }
  }

  lemma NothingUploaded(s: Session, broken: map<string, string>)
    ensures Uploaded(s, s, [], broken)
  {
  }

  lemma BrokenAtOnce(s: Session, t: Session, response: Response, broken: map<string, string>)
    requires response != [] && response[0].0 in s.files && response[0].0 in broken
    requires t.files == s.files[response[0].0 := s.files[response[0].0].(state := Fail(broken[response[0].0]))]
    ensures Uploaded(s, t, response, broken)
  {
    assert FirstBroken(s.files.Keys, response, broken) == 0;
  }

  lemma StillUploading(s: Session)
    requires s.state == Transfering && !s.tripped && !AllSettled(s)
    ensures Uploading(s)
  {
  }

  lemma DriveTwo(s: Session, a: Message, b: Message, rest: seq<Message>)
    requires !a.Creates() && !b.Creates() && forall m :: m in rest ==> !m.Creates()
    ensures Drive(s, [a, b] + rest) == Drive(OnSession(OnSession(s, a), b), rest)
    ensures [a, b] + [] == [a, b]
  {
    var all := [a, b] + rest;
    assert all[1..] == [b] + rest && ([b] + rest)[1..] == rest;
  }

  lemma SettledIsEnd(s: Session, id: string, response: Response, broken: map<string, string>)
    requires AllSettled(s) && Waiting(s, response)
    ensures UploadReports(id, s.files.Keys, response, broken) == []
    ensures Uploaded(s, s, response, broken) && FirstBroken(s.files.Keys, response, broken) == |response|
  {
    NoneOffered(id, s.files.Keys, response, broken);
  }

  lemma PassedOver(s: Session, t: Session, response: Response, broken: map<string, string>)
    requires response != [] && response[0].0 !in s.files && Uploaded(s, t, response[1..], broken)
    ensures Uploaded(s, t, response, broken)
  {
    var k := FirstBroken(s.files.Keys, response[1..], broken);
    forall f { NamesCons(response, k, f); }
  }

  lemma OneMore(s: Session, s2: Session, t: Session, response: Response, broken: map<string, string>)
    requires response != [] && response[0].0 in s.files && response[0].0 !in broken && DistinctNames(response)
    requires s2.files == s.files[response[0].0 := s.files[response[0].0].(state := Finish)]
    requires Uploaded(s2, t, response[1..], broken)
    ensures Uploaded(s, t, response, broken)
  {
    assert s2.files.Keys == s.files.Keys;
    var k := FirstBroken(s.files.Keys, response[1..], broken);
    forall f ensures Names(response[..k + 1], f) <==> f == response[0].0 || Names(response[1..][..k], f) {
      NamesCons(response, k, f);
    }
  }

  // --- an empty response ----------------------------------------------------

  lemma {:induction false} DriveInactive(s: Session, msgs: seq<Message>)
    requires !s.Active() && forall m :: m in msgs ==> !m.Creates()
    ensures SameProgress(s, Drive(s, msgs))
    decreases |msgs|
  {
    if msgs != [] {
      assert msgs[0] in msgs;
      InactiveStep(s, msgs[0]);
      DriveInactive(OnSession(s, msgs[0]), msgs[1..]);
    }
  }

  /** Every file is Skip, or pending and still to be skipped. */
  ghost predicate ToSkip(s: Session, entries: seq<(string, FileInfo)>)
  {
    && s.Active() && (forall i :: 0 <= i < |entries| ==> entries[i].0 in s.files)
    && (forall f :: f in s.files ==> s.files[f].state == Skip || f in Offered(entries))
  }

  lemma SkipsOne(s: Session, id: string, entries: seq<(string, FileInfo)>)
    requires entries != [] && ToSkip(s, entries)
    ensures var f := entries[0].0;
            var t := OnSession(s, ReportFileState(id, f, Skip));
            && f in s.files && t.files == s.files[f := s.files[f].(state := Skip)]
            && t.state == (if AllSettled(t) then Finished else s.state)
            && (t.Active() ==> ToSkip(t, entries[1..]))
            && (AllSettled(t) || entries[1..] != [])
  {
    var f := entries[0].0;
    var t := OnSession(s, ReportFileState(id, f, Skip));
    assert t.files == s.files[f := s.files[f].(state := Skip)];
    var rest := entries[1..];
    forall g | g in t.files ensures t.files[g].state == Skip || g in Offered(rest) {
      if g != f && s.files[g].state != Skip {
        var i :| 0 <= i < |entries| && entries[i].0 == g;
        assert rest[i - 1].0 == g;
      }
    }
    assert f in t.files;
  }

  lemma {:induction false} SkipsLead(s: Session, id: string, entries: seq<(string, FileInfo)>)
    requires entries != [] && ToSkip(s, entries)
    requires forall f :: f in s.files ==> s.files[f].state == FilePending || s.files[f].state == Skip
    ensures var t := Drive(s, SkipAll(id, entries));
            && t.state == Finished && t.files.Keys == s.files.Keys
            && forall f :: f in s.files ==> t.files[f] == s.files[f].(state := Skip)
    decreases |entries|
  {
    hide OnSession, ToSkip;
    var f, rest := entries[0].0, entries[1..];
    SkipsOne(s, id, entries);
    var t := OnSession(s, ReportFileState(id, f, Skip));
    assert SkipAll(id, entries)[1..] == SkipAll(id, rest);
    assert t.files.Keys == s.files.Keys;
    if AllSettled(t) {
      DriveInactive(t, SkipAll(id, rest));
    } else {
      ActiveStays(s, entries, t);
      SkipsLead(t, id, rest);
    }
  }

  lemma ActiveStays(s: Session, entries: seq<(string, FileInfo)>, t: Session)
    requires ToSkip(s, entries) && t.state == s.state
    ensures t.Active()
  {
  }

  // --- where a send session ends --------------------------------------------

  /** A send session as created for these entries. */
  ghost predicate FreshSend(s: Session, entries: seq<(string, FileInfo)>)
  {
    && SendOk(s) && s.state == Pending && s.files.Keys == Offered(entries)
    && forall f :: f in s.files ==> s.files[f].state == FilePending
  }

  lemma CreatedFresh(m: Message)
    requires m.CreateSend?
    ensures FreshSend(NewSend(m), m.entries)
  {
    CollectPending(m.entries);
    NewSendOk(m);
    assert NewSend(m).files.Keys == Offered(m.entries);
  }

  /** Where the session ends, in terms of the answer and of which uploads break. */
  ghost predicate EndsAs(s: Session, t: Session, response: Response, broken: map<string, string>)
  {
    if response == [] then
      && t.files.Keys == s.files.Keys && (forall f :: f in s.files ==> t.files[f] == s.files[f].(state := Skip))
      && t.state == if s.files.Keys == {} then Pending else Finished
    else
      && Uploaded(s, t, response, broken)
      && (t.state == Failed <==> exists i :: 0 <= i < |response| && response[i].0 in s.files && response[i].0 in broken)
      && (t.state == Finished <==>
            && s.files.Keys != {}
            && forall f :: f in s.files ==> Names(response, f) && f !in broken)
      && t.state in {Failed, Finished, Transfering}
  }

  lemma DriverEnds(
    s: Session, id: string, entries: seq<(string, FileInfo)>, response: Response, broken: map<string, string>)
    requires FreshSend(s, entries) && DistinctNames(response)
    ensures EndsAs(s, Drive(s, Reports(id, entries, response, broken)), response, broken)
  {
    hide OnSession, UploadReports, SkipAll, SessionOk, FirstBroken;
    if response == [] {
      if entries == [] {
        NothingToSkip(s, id);
      } else {
        assert entries[0].0 in Offered(entries);
        SkipsLead(s, id, entries);
      }
    } else {
      var s1 := OnSession(s, ReportState(id, Transfering));
      Begins(s, id);
      assert Reports(id, entries, response, broken)[1..] == UploadReports(id, Offered(entries), response, broken);
      UploadsLead(s1, id, response, broken);
      UploadedFrom(s, s1, Drive(s1, UploadReports(id, Offered(entries), response, broken)), response, broken);
    }
  }

  lemma NothingToSkip(s: Session, id: string)
    ensures Drive(s, SkipAll(id, [])) == s
  {
  }

  lemma Begins(s: Session, id: string)
    requires SendOk(s) && s.state == Pending && forall f :: f in s.files ==> s.files[f].state == FilePending
    ensures var t := OnSession(s, ReportState(id, Transfering)); Uploading(t) && t.files == s.files
  {
  }

  lemma UploadedFrom(s: Session, s1: Session, t: Session, response: Response, broken: map<string, string>)
    requires response != [] && DistinctNames(response) && s1.files == s.files && Uploaded(s1, t, response, broken)
    requires forall f :: f in s.files ==> s.files[f].state == FilePending
    requires t.state == if FirstBroken(s.files.Keys, response, broken) < |response| then Failed
                        else if AllSettled(t) then Finished else Transfering
    ensures EndsAs(s, t, response, broken)
  {
    hide FirstBroken, AllSettled;
    var k := FirstBroken(s.files.Keys, response, broken);
    assert Uploaded(s, t, response, broken);
    if k < |response| {
      var g := response[k].0;
      assert g in s.files && g in broken;
    } else {
      AllUploaded(s, t, response, broken);
    }
  }

  /** When nothing breaks, the settled files are the named ones. */
  lemma AllUploaded(s: Session, t: Session, response: Response, broken: map<string, string>)
    requires Uploaded(s, t, response, broken) && FirstBroken(s.files.Keys, response, broken) == |response|
    requires forall f :: f in s.files ==> s.files[f].state == FilePending
    ensures AllSettled(t) <==> s.files.Keys != {} && forall f :: f in s.files ==> Names(response, f) && f !in broken
  {
    hide FirstBroken;
    assert response[..|response|] == response;
    forall f | f in s.files
      ensures Names(response, f) <==> t.files[f].state.IsSettled()
      ensures Names(response, f) ==> f !in broken
    {
      if Names(response, f) {
        var i :| 0 <= i < |response| && response[i].0 == f;
        assert i < FirstBroken(s.files.Keys, response, broken);
      }
    }
  }

  /** The whole send run: from the creation of the session on, with the driver's
      reports the only messages that move it, and any other traffic in between. */
  lemma SendRun(
    w: World, id: string, peer: Peer, entries: seq<(string, FileInfo)>, msgs: seq<Message>, response: Response,
    broken: map<string, string>)
    requires Legal(w, [CreateSend(id, peer, entries)] + msgs) && DistinctNames(response)
    requires Moving(msgs, id) == Reports(id, entries, response, broken)
    ensures var after := Run(w, [CreateSend(id, peer, entries)] + msgs).sessions;
            id in after && EndsAs(NewSend(CreateSend(id, peer, entries)), after[id], response, broken)
  {
    hide Moving, Reports, SessionOk, OnSession, Uploaded, NewSend;
    var create := CreateSend(id, peer, entries);
    RunHead(w, create, msgs);
    CreatedFresh(create);
    FreshRun(Next(w, create), msgs, id, entries, response, broken);
  }

  lemma FreshRun(
    w: World, msgs: seq<Message>, id: string, entries: seq<(string, FileInfo)>, response: Response,
    broken: map<string, string>)
    requires Legal(w, msgs) && id in w.sessions && FreshSend(w.sessions[id], entries) && DistinctNames(response)
    requires Moving(msgs, id) == Reports(id, entries, response, broken)
    ensures id in Run(w, msgs).sessions && EndsAs(w.sessions[id], Run(w, msgs).sessions[id], response, broken)
  {
    hide Moving, Reports, SessionOk, OnSession, Uploaded;
    var s := w.sessions[id];
    Projection(w, msgs, id, s);
    var t := Drive(s, Reports(id, entries, response, broken));
    DriverEnds(s, id, entries, response, broken);
    SameEnd(s, t, Run(w, msgs).sessions[id], response, broken);
  }

  lemma SameEnd(s: Session, t: Session, u: Session, response: Response, broken: map<string, string>)
    requires EndsAs(s, t, response, broken) && Same(u, t)
    ensures EndsAs(s, u, response, broken)
  {
    hide FirstBroken;
  }

  /** No file behind the first failed upload is ever reported, let alone started. */
  lemma {:induction false} NothingAfterTheBreak(
    id: string, offered: set<string>, response: Response, broken: map<string, string>, m: Message)
    requires m in UploadReports(id, offered, response, broken)
    ensures m.ReportFileState?
    ensures var k := FirstBroken(offered, response, broken);
            Names(if k < |response| then response[..k + 1] else response, m.fileId)
  {
    hide Names;
    var f := response[0].0;
    var rest := response[1..];
    var k := FirstBroken(offered, response, broken);
    var upTo := if k < |response| then response[..k + 1] else response;
    FirstNamed(upTo);
    if f !in offered || (f !in broken && m !in [ReportFileState(id, f, Transfer), ReportFileState(id, f, Finish)]) {
      NothingAfterTheBreak(id, offered, rest, broken, m);
      var k' := FirstBroken(offered, rest, broken);
      var upTo' := if k' < |rest| then rest[..k' + 1] else rest;
      assert upTo == [response[0]] + upTo';
      NamesMore(response[0], upTo', m.fileId);
    }
  }

  lemma FirstNamed(names: Response)
    requires names != []
    ensures Names(names, names[0].0)
  {
  }

  lemma NamesMore(p: (string, string), names: Response, f: string)
    requires Names(names, f)
    ensures Names([p] + names, f)
  {
    var i :| 0 <= i < |names| && names[i].0 == f;
    assert ([p] + names)[i + 1].0 == f;
  }
}
