/** The two ends of one transfer side by side: the sender's session under its
    driver, the receiver's under its upload handler. */
module TransferEnds {
  import opened Bytes
  import opened SessionModel
  import opened SessionRuns
  import opened SendDriver

  /** What a failed upload leaves behind. The sender sees `error`. At the receiver
      the request may have reached the upload handler (`reached`), and the handler
      may have reported an outcome: before the sender's cancel arrives (`report`,
      also Finish when only the answer got lost), or after it (`late`). The cancel
      itself, sent on a best-effort basis, may get lost too. */
  datatype Break = Break(
    error: string, reached: bool, report: Option<FileState>, cancelled: bool, late: Option<FileState>)
  {
    predicate Valid()
    {
      && (report.Some? ==> reached && (report.value.Finish? || report.value.Fail?))
      && (late.Some? ==> reached && report == None && cancelled)
    }
  }

  /** What the receiver's actor is told about an upload that fails. */
  function BreakMessages(id: string, token: string, b: Break): (r: seq<Message>)
    ensures forall m :: m in r ==> !m.Creates()
  {
    (if b.reached then [StartFile(id, token)] else [])
    + (if b.report.Some? then [FinishFile(id, token, b.report.value)] else [])
    + (if b.cancelled then [Cancel(id)] else [])
    + (if b.late.Some? then [FinishFile(id, token, b.late.value)] else [])
  }

  /** What it is told about uploads that succeed. */
  function Receipts(id: string, response: Response): (r: seq<Message>)
    ensures forall m :: m in r ==> m.StartFile? || m.FinishFile?
  {
    if response == [] then []
    else [StartFile(id, response[0].1), FinishFile(id, response[0].1, Finish)] + Receipts(id, response[1..])
  }

  function Errors(broken: map<string, Break>): map<string, string>
  {
    map f | f in broken :: broken[f].error
  }

  /** Where the first upload that fails is; the length when none does. */
  function BreakAt(offered: set<string>, response: Response, broken: map<string, Break>): (k: nat)
    ensures k <= |response|
    ensures k < |response| ==> response[k].0 in broken
  {
    FirstBroken(offered, response, Errors(broken))
  }

  /** Everything the receiver's actor is told after acceptance: the uploads before
      the first that fails, then what that one leaves behind. */
  function ReceiverHears(
    id: string, offered: set<string>, response: Response, broken: map<string, Break>): (r: seq<Message>)
    ensures forall m :: m in r ==> !m.Creates()
  {
    var k := BreakAt(offered, response, broken);
    Receipts(id, response[..k])
    + if k < |response| then BreakMessages(id, response[k].1, broken[response[k].0]) else []
  }

  /** The response hands out this session's tokens. */
  ghost predicate HandsOut(r: Session, response: Response)
  {
    forall i :: 0 <= i < |response| ==> response[i].0 in r.files && r.files[response[i].0].token == Some(response[i].1)
  }

  lemma StartIsReport(r: Session, id: string, f: string, token: string)
    requires r.direction == Receive && TokensOk(r) && Uploading(r)
    requires f in r.files && r.files[f].token == Some(token) && r.files[f].state == FilePending
    ensures OnSession(r, StartFile(id, token)) == OnSession(r, ReportFileState(id, f, Transfer))
  {
    var t := MarkFile(r, f, Transfer);
    assert t.files == r.files[f := r.files[f].(state := Transfer)];
    assert !t.files[f].state.IsSettled();
  }

  lemma FinishIsReport(r: Session, id: string, f: string, token: string, st: FileState)
    requires TokensOk(r) && f in r.files && r.files[f].token == Some(token)
    ensures OnSession(r, FinishFile(id, token, st)) == OnSession(r, ReportFileState(id, f, st))
  {
  }

  lemma TokensKept(r: Session, t: Session, f: string, st: FileState)
    requires TokensOk(r) && f in r.files && t.files == r.files[f := r.files[f].(state := st)]
             && t.tokenIndex == r.tokenIndex
    ensures TokensOk(t)
  {
  }

  lemma ReportFrame(r: Session, id: string, f: string, st: FileState)
    ensures var t := OnSession(r, ReportFileState(id, f, st));
            t.tokenIndex == r.tokenIndex && t.direction == r.direction
  {
    hide SetFileState;
    TokensUntouched(r, ReportFileState(id, f, st));
  }

  /** Through its tokens, the receiver goes exactly the way of a sender that
      uploads the same files. */
  lemma {:induction false} ReceiverMirrors(r: Session, id: string, response: Response)
    requires r.direction == Receive && TokensOk(r) && Uploading(r) && HandsOut(r, response)
    requires DistinctNames(response) && Waiting(r, response)
    ensures var t := Drive(r, Receipts(id, response));
            && t == Drive(r, UploadReports(id, r.files.Keys, response, map[]))
            && t.direction == Receive && TokensOk(t)
    decreases |response|
  {
    hide OnSession, TokensOk, AllSettled;
    if response != [] {
      var (f, token) := response[0];
      var rest := response[1..];
      var later, later' := Receipts(id, rest), UploadReports(id, r.files.Keys, rest, map[]);
      StartIsReport(r, id, f, token);
      StartsOne(r, id, f);
      ReportFrame(r, id, f, Transfer);
      var r1 := OnSession(r, ReportFileState(id, f, Transfer));
      TokensKept(r, r1, f, Transfer);
      FinishIsReport(r1, id, f, token, Finish);
      var r2 := OnSession(r1, ReportFileState(id, f, Finish));
      ReportFrame(r1, id, f, Finish);
      DriveTwo(r, StartFile(id, token), FinishFile(id, token, Finish), later);
      DriveTwo(r, ReportFileState(id, f, Transfer), ReportFileState(id, f, Finish), later');
      FinishesOne(r1, id, f);
      TokensKept(r1, r2, f, Finish);
      assert r2.files == r.files[f := r.files[f].(state := Finish)];
      assert r2.files.Keys == r.files.Keys;
      assert forall i :: 0 <= i < |rest| ==> rest[i] == response[i + 1] && rest[i].0 != f;
      if rest == [] {
        assert later == [] && later' == [];
      } else {
        assert rest[0].0 in r2.files && r2.files[rest[0].0].state == FilePending;
        Unsettled(r2, rest[0].0);
        ReceiverMirrors(r2, id, rest);
      }
    }
  }

  lemma Unsettled(s: Session, f: string)
    requires f in s.files && s.files[f].state == FilePending
    ensures !AllSettled(s)
  {
  }

  /** The response lists exactly what was handed out on acceptance. */
  ghost predicate Lists(response: Response, given: map<string, string>)
  {
    && DistinctNames(response)
    && (forall i :: 0 <= i < |response| ==> response[i].0 in given && given[response[i].0] == response[i].1)
    && (forall f :: f in given ==> Names(response, f))
  }

  // --- an upload that fails --------------------------------------------------

  /** The broken file at the receiver. */
  function FileAfter(b: Break): FileState
  {
    if !b.reached then FilePending else if b.report.None? then Transfer else b.report.value
  }

  /** The receiver's session: Failed exactly if its own handler reported the
      failure before the cancel; Finished if the handler had in fact received the
      last file; otherwise Canceled, or still Transfering if the cancel got lost. */
  function StateAfter(b: Break, complete: bool): MissionState
  {
    if b.report.Some? && b.report.value.Fail? then Failed
    else if b.report.Some? && complete then Finished
    else if b.cancelled then Canceled
    else Transfering
  }

  lemma DriveAppend(s: Session, a: seq<Message>, b: seq<Message>)
    requires forall m :: m in a + b ==> !m.Creates()
    ensures (forall m :: m in a ==> !m.Creates()) && (forall m :: m in b ==> !m.Creates())
    ensures Drive(s, a + b) == Drive(Drive(s, a), b)
    decreases |a|
  {
    assert forall m :: m in a ==> m in a + b;
    assert forall m :: m in b ==> m in a + b;
    if a == [] {
      assert a + b == b;
    } else {
      assert (a + b)[1..] == a[1..] + b;
      assert forall m :: m in a[1..] + b ==> m in a + b;
      DriveAppend(OnSession(s, a[0]), a[1..], b);
    }
  }

  lemma DriveOne(s: Session, m: Message)
    requires !m.Creates()
    ensures Drive(s, [m]) == OnSession(s, m) && Drive(s, []) == s
  {
    assert [m][1..] == [];
  }

  /** The upload as far as it got before the cancel. */
  lemma BeforeCancel(r: Session, id: string, f: string, token: string, b: Break)
    requires r.direction == Receive && TokensOk(r) && Uploading(r) && b.Valid()
    requires f in r.files && r.files[f].token == Some(token) && r.files[f].state == FilePending
    ensures var r1 := if b.reached then OnSession(r, StartFile(id, token)) else r;
            var t := if b.report.Some? then OnSession(r1, FinishFile(id, token, b.report.value)) else r1;
            && t.files == r.files[f := r.files[f].(state := FileAfter(b))]
            && t.state == StateAfter(b.(cancelled := false), AllSettled(t))
            && (t.state == Finished ==> AllSettled(t))
  {
    hide OnSession, TokensOk, AllSettled;
    Unsettled(r, f);
    assert r.files == r.files[f := r.files[f].(state := FilePending)];
    if b.reached {
      StartIsReport(r, id, f, token);
      StartsOne(r, id, f);
      ReportFrame(r, id, f, Transfer);
      var r1 := OnSession(r, StartFile(id, token));
      TokensKept(r, r1, f, Transfer);
      if b.report.Some? {
        FinishIsReport(r1, id, f, token, b.report.value);
        if b.report.value.Fail? {
          BreaksOne(r1, id, f, b.report.value.msg);
        } else {
          FinishesOne(r1, id, f);
        }
      }
    }
  }

  lemma CancelEnds(s: Session, id: string)
    ensures var t := OnSession(s, Cancel(id)); t.files == s.files && t.state == if s.Active() then Canceled else s.state
  {
  }

  lemma BreakLeads(r: Session, id: string, f: string, token: string, b: Break)
    requires r.direction == Receive && TokensOk(r) && Uploading(r) && b.Valid()
    requires f in r.files && r.files[f].token == Some(token) && r.files[f].state == FilePending
    ensures var t := Drive(r, BreakMessages(id, token, b));
            && t.files == r.files[f := r.files[f].(state := FileAfter(b))]
            && t.state == StateAfter(b, AllSettled(t))
  {
    hide OnSession, TokensOk, AllSettled, Drive;
    var start := if b.reached then [StartFile(id, token)] else [];
    var report := if b.report.Some? then [FinishFile(id, token, b.report.value)] else [];
    var cancel := if b.cancelled then [Cancel(id)] else [];
    var late := if b.late.Some? then [FinishFile(id, token, b.late.value)] else [];
    var r1 := if b.reached then OnSession(r, StartFile(id, token)) else r;
    var r2 := if b.report.Some? then OnSession(r1, FinishFile(id, token, b.report.value)) else r1;
    var r3 := if b.cancelled then OnSession(r2, Cancel(id)) else r2;
    DriveAppend(r, start + report + cancel, late);
    DriveAppend(r, start + report, cancel);
    DriveAppend(r, start, report);
    DriveMaybe(r, start, b.reached, StartFile(id, token));
    DriveMaybe(r1, report, b.report.Some?,
               if b.report.Some? then FinishFile(id, token, b.report.value) else Cancel(id));
    DriveMaybe(r2, cancel, b.cancelled, Cancel(id));
    assert Drive(r, start + report + cancel) == r3;
    BeforeCancel(r, id, f, token, b);
    CancelEnds(r2, id);
    SameSettled(r2, r3);
    if b.late.Some? {
      DriveOne(r3, FinishFile(id, token, b.late.value));
      InactiveStep(r3, FinishFile(id, token, b.late.value));
      SameSettled(r3, OnSession(r3, FinishFile(id, token, b.late.value)));
    } else {
      DriveOne(r3, Cancel(id));
    }
  }

  lemma DriveMaybe(s: Session, msgs: seq<Message>, present: bool, m: Message)
    requires !m.Creates() && msgs == if present then [m] else []
    ensures Drive(s, msgs) == if present then OnSession(s, m) else s
  {
    DriveOne(s, m);
  }

  lemma SameSettled(s: Session, t: Session)
    requires s.files == t.files
    ensures AllSettled(s) == AllSettled(t)
  {
  }

  // --- where the receiver ends ----------------------------------------------

  /** The receiver's files and session, in terms of the choice, the response and
      the first upload that failed. */
  ghost predicate ReceiverEndsAs(
    t: Session, files: set<string>, fileIds: Option<seq<string>>, response: Response, broken: map<string, Break>)
  {
    var k := BreakAt(files, response, broken);
    && t.files.Keys == files
    && (forall f :: f in files ==>
          t.files[f].state == (if !Chosen(fileIds, f) then Skip
                               else if Names(response[..k], f) then Finish
                               else if k < |response| && f == response[k].0 then FileAfter(broken[f])
                               else FilePending))
    && t.state == if k < |response| then StateAfter(broken[response[k].0], k + 1 == |response|) else Finished
  }

  ghost predicate AllValid(broken: map<string, Break>) { forall f :: f in broken ==> broken[f].Valid() }

  /** A receiver that accepted a choice of files, once the driver is through. */
  lemma ReceiverEnds(
    r: Session, fileIds: Option<seq<string>>, order: seq<string>, response: Response, broken: map<string, Break>)
    requires SessionOk(r, iset{}) && PendingReceive(r) && r.files.Keys != {} && AllValid(broken)
    requires Lists(response, AcceptedTokens(r, fileIds))
    ensures ReceiverEndsAs(Drive(OnSession(r, Accept(r.id, fileIds, order)),
                                 ReceiverHears(r.id, r.files.Keys, response, broken)),
                           r.files.Keys, fileIds, response, broken)
  {
    hide OnSession, TokensOk, UploadReports, Receipts, FirstBroken, AllSettled, Drive, SessionOk, Chosen,
         AcceptedTokens, BreakMessages, AllValid, ReceiverEndsAs;
    var r1 := OnSession(r, Accept(r.id, fileIds, order));
    var k := BreakAt(r.files.Keys, response, broken);
    Accepting(r, fileIds, order);
    if response == [] {
      NoneAccepted(r, fileIds, order, response);
      NothingHeard(r1, r.id, r.files.Keys, broken);
      NoneLeft(r1, r.files.Keys, fileIds, broken);
    } else {
      SomeAccepted(r, fileIds, order, response);
      Prefix(r1, response, k);
      ReceiverMirrors(r1, r.id, response[..k]);
      UploadsLead(r1, r.id, response[..k], map[]);
      var t := Drive(r1, Receipts(r.id, response[..k]));
      CleanPrefix(r1, t, response[..k]);
      Heard(r1, r.id, r.files.Keys, response, broken);
      if k == |response| {
        assert response[..k] == response;
        AllReceived(r1, t, fileIds, response, broken);
      } else {
        var (f, token) := response[k];
        var b := broken[f];
        ValidAt(broken, f);
        StillWaiting(r1, t, response, k);
        BreakLeads(t, r.id, f, token, b);
        BrokenReceived(r1, t, Drive(t, BreakMessages(r.id, token, b)), fileIds, response, broken);
      }
    }
  }

  lemma Accepting(r: Session, fileIds: Option<seq<string>>, order: seq<string>)
    requires SessionOk(r, iset{}) && PendingReceive(r)
    ensures var t := OnSession(r, Accept(r.id, fileIds, order));
            && t.files.Keys == r.files.Keys && t.direction == Receive && TokensOk(t) && !t.tripped
            && (forall f :: f in r.files ==>
                  && t.files[f].token == r.files[f].token && r.files[f].token.Some?
                  && t.files[f].state == if Chosen(fileIds, f) then FilePending else Skip)
            && (t.state == if AllSettled(t) then Finished else Transfering)
  {
    hide SkipEvents, SkippedOf, Chosen, LifecycleOk, AcceptanceOk;
    AcceptOk(r, fileIds, order);
    AcceptHandsOutTokens(r, fileIds, order);
    PendingFacts(r);
  }

  lemma PendingFacts(r: Session)
    requires SessionOk(r, iset{}) && PendingReceive(r)
    ensures !r.tripped && forall f :: f in r.files ==> r.files[f].state == FilePending && r.files[f].token.Some?
  {
  }

  lemma NoneAccepted(r: Session, fileIds: Option<seq<string>>, order: seq<string>, response: Response)
    requires SessionOk(r, iset{}) && PendingReceive(r) && r.files.Keys != {}
    requires response == [] && Lists(response, AcceptedTokens(r, fileIds))
    ensures forall f :: f in r.files ==> !Chosen(fileIds, f)
    ensures OnSession(r, Accept(r.id, fileIds, order)).state == Finished
  {
    hide OnSession, Chosen;
    PendingFacts(r);
    Accepting(r, fileIds, order);
    forall f | f in r.files ensures !Chosen(fileIds, f) {
      assert Chosen(fileIds, f) ==> f in AcceptedTokens(r, fileIds);
    }
  }

  lemma NothingHeard(r: Session, id: string, offered: set<string>, broken: map<string, Break>)
    ensures Drive(r, ReceiverHears(id, offered, [], broken)) == r
  {
  }

  lemma NoneLeft(t: Session, files: set<string>, fileIds: Option<seq<string>>, broken: map<string, Break>)
    requires t.files.Keys == files && t.state == Finished
    requires forall f :: f in files ==> !Chosen(fileIds, f) && t.files[f].state == Skip
    ensures ReceiverEndsAs(t, files, fileIds, [], broken)
  {
  }

  /** What is heard splits at the first failure. */
  lemma Heard(r: Session, id: string, offered: set<string>, response: Response, broken: map<string, Break>)
    ensures var k := BreakAt(offered, response, broken);
            var t := Drive(r, Receipts(id, response[..k]));
            Drive(r, ReceiverHears(id, offered, response, broken))
            == if k < |response| then Drive(t, BreakMessages(id, response[k].1, broken[response[k].0])) else t
  {
    hide Drive, Receipts, BreakMessages, FirstBroken;
    var k := BreakAt(offered, response, broken);
    var clean := Receipts(id, response[..k]);
    if k < |response| {
      DriveAppend(r, clean, BreakMessages(id, response[k].1, broken[response[k].0]));
    } else {
      assert clean + [] == clean;
    }
  }

  lemma Prefix(r: Session, response: Response, k: nat)
    requires k <= |response| && DistinctNames(response) && HandsOut(r, response) && Waiting(r, response)
    ensures DistinctNames(response[..k]) && HandsOut(r, response[..k]) && Waiting(r, response[..k])
  {
  }

  /** Of the files of `r`, exactly the named ones are now Finish. */
  ghost predicate Received(r: Session, t: Session, names: Response)
  {
    && t.files.Keys == r.files.Keys
    && forall f :: f in r.files ==> t.files[f] == if Names(names, f) then r.files[f].(state := Finish) else r.files[f]
  }

  lemma CleanPrefix(r: Session, t: Session, names: Response)
    requires Uploaded(r, t, names, map[])
    ensures Received(r, t, names) && FirstBroken(r.files.Keys, names, map[]) == |names|
  {
    hide FirstBroken, Names;
    var k := FirstBroken(r.files.Keys, names, map[]);
    assert k == |names|;
    assert names[..k] == names;
  }

  lemma StillWaiting(r: Session, t: Session, response: Response, k: nat)
    requires k < |response| && DistinctNames(response) && HandsOut(r, response) && Waiting(r, response)
    requires Received(r, t, response[..k]) && t.tripped == (t.state == Failed)
    requires t.state == if AllSettled(t) then Finished else Transfering
    ensures Uploading(t)
    ensures var (f, token) := response[k];
            f in t.files && t.files[f].token == Some(token) && t.files[f].state == FilePending
  {
    var f := response[k].0;
    assert f in r.files;
    Unsettled(t, f);
  }

  /** The files of a receiver that made its choice. */
  ghost predicate ChoiceMade(r: Session, fileIds: Option<seq<string>>, response: Response)
  {
    && r.files.Keys != {}
    && (forall f :: f in r.files ==> r.files[f].state == if Chosen(fileIds, f) then FilePending else Skip)
    && (forall f :: f in r.files ==> (Names(response, f) <==> Chosen(fileIds, f)))
  }

  lemma AllReceived(
    r: Session, t: Session, fileIds: Option<seq<string>>, response: Response, broken: map<string, Break>)
    requires ChoiceMade(r, fileIds, response) && Received(r, t, response)
    requires BreakAt(r.files.Keys, response, broken) == |response|
    requires t.state == if AllSettled(t) then Finished else Transfering
    ensures ReceiverEndsAs(t, r.files.Keys, fileIds, response, broken)
  {
    hide FirstBroken, Chosen;
    assert response[..|response|] == response;
  }

  lemma BrokenReceived(
    r: Session, t: Session, u: Session, fileIds: Option<seq<string>>, response: Response, broken: map<string, Break>)
    requires ChoiceMade(r, fileIds, response) && HandsOut(r, response) && DistinctNames(response)
    requires var k := BreakAt(r.files.Keys, response, broken);
             && k < |response| && Received(r, t, response[..k])
             && var f := response[k].0;
                && f in t.files && u.files == t.files[f := t.files[f].(state := FileAfter(broken[f]))]
                && broken[f].Valid() && u.state == StateAfter(broken[f], AllSettled(u))
    ensures ReceiverEndsAs(u, r.files.Keys, fileIds, response, broken)
  {
    hide FirstBroken, Chosen, AllSettled, StateAfter;
    var k := BreakAt(r.files.Keys, response, broken);
    var f := response[k].0;
    assert Names(response, f);
    assert !Names(response[..k], f);
    Completion(r, t, u, fileIds, response, k, broken[f]);
  }

  /** With the broken file counted as received, the session is complete exactly if
      that was the last one of the response. */
  lemma Completion(
    r: Session, t: Session, u: Session, fileIds: Option<seq<string>>, response: Response, k: nat, b: Break)
    requires ChoiceMade(r, fileIds, response) && HandsOut(r, response) && DistinctNames(response)
    requires k < |response| && Received(r, t, response[..k]) && response[k].0 in t.files && b.Valid()
    requires u.files == t.files[response[k].0 := t.files[response[k].0].(state := FileAfter(b))]
    ensures StateAfter(b, AllSettled(u)) == StateAfter(b, k + 1 == |response|)
  {
    hide Chosen;
    if k + 1 < |response| {
      var g := response[k + 1].0;
      assert g in r.files && Names(response, g) && !Names(response[..k], g) && g != response[k].0;
      assert u.files[g].state == FilePending;
    } else if b.report.Some? && b.report.value.Finish? {
      forall g | g in u.files ensures u.files[g].state.IsSettled() {
        if Chosen(fileIds, g) && g != response[k].0 {
          var i :| 0 <= i < |response| && response[i].0 == g;
          assert response[..k][i].0 == g;
        }
      }
    }
  }

  lemma SomeAccepted(r: Session, fileIds: Option<seq<string>>, order: seq<string>, response: Response)
    requires SessionOk(r, iset{}) && PendingReceive(r) && response != [] && Lists(response, AcceptedTokens(r, fileIds))
    ensures var t := OnSession(r, Accept(r.id, fileIds, order));
            Uploading(t) && HandsOut(t, response) && Waiting(t, response)
    ensures forall f :: f in r.files ==> (Names(response, f) <==> Chosen(fileIds, f))
  {
    hide OnSession, Chosen;
    PendingFacts(r);
    Accepting(r, fileIds, order);
    assert response[0].0 in AcceptedTokens(r, fileIds);
    forall f | f in r.files && Chosen(fileIds, f) ensures Names(response, f) {
      assert f in AcceptedTokens(r, fileIds);
    }
  }

  lemma ValidAt(broken: map<string, Break>, f: string)
    requires AllValid(broken) && f in broken
    ensures broken[f].Valid()
  {
  }

  // --- both ends -------------------------------------------------------------

  ghost predicate AllOrNone(files: set<string>, fileIds: Option<seq<string>>)
  {
    (forall f :: f in files ==> Chosen(fileIds, f)) || (forall f :: f in files ==> !Chosen(fileIds, f))
  }

  /** How sender `s` and receiver `r` of `files` end. The files before the first
      failed upload are Finish at both ends. Without a failure the receiver
      finishes, but the sender does so only when all files or none were chosen.
      With one, the sender is Failed at that file, and the receiver ends as its own
      handler and the sender's cancel leave it. */
  ghost predicate EndTogether(
    files: set<string>, s: Session, r: Session, fileIds: Option<seq<string>>, response: Response,
    broken: map<string, Break>)
  {
    var k := BreakAt(files, response, broken);
    && s.files.Keys == r.files.Keys == files
    && (forall f :: f in files && (k < |response| ==> f != response[k].0) ==>
          && (s.files[f].state.Finish? <==> r.files[f].state.Finish?)
          && !s.files[f].state.Fail? && !r.files[f].state.Fail?)
    && if k == |response| then
         && (forall f :: f in files ==> !(Chosen(fileIds, f) && f in broken))
         && r.state == Finished
         && s.state == if AllOrNone(files, fileIds) then Finished else Transfering
       else
         var f := response[k].0;
         var b := broken[f];
         && f in files && Chosen(fileIds, f)
         && s.state == Failed && s.files[f].state == Fail(b.error)
         && r.files[f].state == FileAfter(b)
         && (r.state == Failed <==> b.report.Some? && b.report.value.Fail?)
         && (r.state == Finished <==> b.report.Some? && b.report.value.Finish? && k + 1 == |response|)
         && (r.state == Canceled <==> b.cancelled && r.state != Failed && r.state != Finished)
         && (r.state == Transfering <==> !b.cancelled && r.state != Failed && r.state != Finished)
  }

  /** Both ends of one transfer, when the receiver chose `fileIds` and answered
      with what its session handed out. */
  lemma BothEnds(
    s: Session, entries: seq<(string, FileInfo)>, r: Session, fileIds: Option<seq<string>>, order: seq<string>,
    given: map<string, string>, response: Response, broken: map<string, Break>)
    requires FreshSend(s, entries) && entries != [] && AllValid(broken)
    requires SessionOk(r, iset{}) && PendingReceive(r) && r.files.Keys == s.files.Keys
    requires OnSession(r, Accept(r.id, fileIds, order)).decisions == [Accepted(given)] && Lists(response, given)
    ensures EndTogether(s.files.Keys,
                        Drive(s, Reports(s.id, entries, response, Errors(broken))),
                        Drive(OnSession(r, Accept(r.id, fileIds, order)),
                              ReceiverHears(r.id, s.files.Keys, response, broken)),
                        fileIds, response, broken)
  {
    hide OnSession, Drive, SessionOk, Reports, ReceiverHears, Chosen, AcceptedTokens, EndsAs, EndTogether, Lists,
         ReceiverEndsAs, AllValid, Errors, BreakAt;
    GivenOnAccept(r, fileIds, order, given);
    assert entries[0].0 in s.files;
    ListsDistinct(response, given);
    DriverEnds(s, s.id, entries, response, Errors(broken));
    ReceiverEnds(r, fileIds, order, response, broken);
    ChosenAreNamed(r, fileIds, response);
    Together(s, Drive(s, Reports(s.id, entries, response, Errors(broken))),
             Drive(OnSession(r, Accept(r.id, fileIds, order)), ReceiverHears(r.id, s.files.Keys, response, broken)),
             fileIds, response, broken);
  }

  lemma ListsDistinct(response: Response, given: map<string, string>)
    requires Lists(response, given)
    ensures DistinctNames(response)
  {
  }

  lemma Together(
    s0: Session, s: Session, r: Session, fileIds: Option<seq<string>>, response: Response, broken: map<string, Break>)
    requires s0.files.Keys != {} && DistinctNames(response) && EndsAs(s0, s, response, Errors(broken))
    requires ReceiverEndsAs(r, s0.files.Keys, fileIds, response, broken)
    requires forall f :: f in s0.files ==> s0.files[f].state == FilePending
    requires forall f :: f in s0.files ==> (Names(response, f) <==> Chosen(fileIds, f))
    requires forall i :: 0 <= i < |response| ==> response[i].0 in s0.files
    requires AllValid(broken)
    ensures EndTogether(s0.files.Keys, s, r, fileIds, response, broken)
  {
    hide FirstBroken, Chosen, Errors, EndsAs, ReceiverEndsAs, EndTogether, AllOrNone;
    SenderSide(s0, s, fileIds, response, broken);
    EndsMeet(s0.files.Keys, s, r, fileIds, response, broken);
  }

  /** The sender's end, in the receiver's terms. */
  ghost predicate SenderEndsAs(
    s: Session, files: set<string>, fileIds: Option<seq<string>>, response: Response, broken: map<string, Break>)
  {
    var k := BreakAt(files, response, broken);
    && s.files.Keys == files
    && (forall f :: f in files ==> (s.files[f].state.Finish? <==> Names(response[..k], f)))
    && (forall f :: f in files && s.files[f].state.Fail? ==> k < |response| && f == response[k].0)
    && (k < |response| ==> response[k].0 in files && s.files[response[k].0].state == Fail(broken[response[k].0].error))
    && (k == |response| ==> forall f :: f in files ==> !(Chosen(fileIds, f) && f in broken))
    && s.state == if k < |response| then Failed else if AllOrNone(files, fileIds) then Finished else Transfering
  }

  lemma SenderSide(
    s0: Session, s: Session, fileIds: Option<seq<string>>, response: Response, broken: map<string, Break>)
    requires s0.files.Keys != {} && DistinctNames(response) && EndsAs(s0, s, response, Errors(broken))
    requires forall f :: f in s0.files ==> s0.files[f].state == FilePending
    requires forall f :: f in s0.files ==> (Names(response, f) <==> Chosen(fileIds, f))
    requires forall i :: 0 <= i < |response| ==> response[i].0 in s0.files
    ensures SenderEndsAs(s, s0.files.Keys, fileIds, response, broken)
  {
    hide FirstBroken, Chosen, AllOrNone;
    var k := BreakAt(s0.files.Keys, response, broken);
    if k < |response| {
      assert !Names(response[..k], response[k].0);
    } else {
      NoneBroke(s0.files.Keys, fileIds, response, broken);
      assert response[..k] == response;
    }
    AllOrNoneNamed(s0.files.Keys, fileIds, response);
  }

  lemma NoneBroke(files: set<string>, fileIds: Option<seq<string>>, response: Response, broken: map<string, Break>)
    requires BreakAt(files, response, broken) == |response|
    requires forall f :: f in files ==> (Names(response, f) <==> Chosen(fileIds, f))
    ensures forall f :: f in files ==> !(Chosen(fileIds, f) && f in broken)
  {
    hide FirstBroken, Chosen;
    forall f | f in files && Chosen(fileIds, f) ensures f !in broken {
      var i :| 0 <= i < |response| && response[i].0 == f;
    }
  }

  lemma AllOrNoneNamed(files: set<string>, fileIds: Option<seq<string>>, response: Response)
    requires forall f :: f in files ==> (Names(response, f) <==> Chosen(fileIds, f))
    requires forall i :: 0 <= i < |response| ==> response[i].0 in files
    ensures AllOrNone(files, fileIds) <==> response == [] || forall f :: f in files ==> Names(response, f)
  {
    hide Chosen;
    if response != [] {
      assert Names(response, response[0].0);
    }
  }

  lemma EndsMeet(
    files: set<string>, s: Session, r: Session, fileIds: Option<seq<string>>, response: Response,
    broken: map<string, Break>)
    requires SenderEndsAs(s, files, fileIds, response, broken) && ReceiverEndsAs(r, files, fileIds, response, broken)
    requires forall f :: f in files ==> (Names(response, f) <==> Chosen(fileIds, f))
    requires AllValid(broken)
    ensures EndTogether(files, s, r, fileIds, response, broken)
  {
    hide FirstBroken, Chosen, Errors, AllOrNone;
    var k := BreakAt(files, response, broken);
    forall f | Names(response[..k], f) ensures Names(response, f) {
      var i :| 0 <= i < |response[..k]| && response[..k][i].0 == f;
      assert response[i].0 == f;
    }
    if k < |response| {
      assert Names(response, response[k].0);
      assert broken[response[k].0].Valid();
    }
  }

  lemma GivenOnAccept(r: Session, fileIds: Option<seq<string>>, order: seq<string>, given: map<string, string>)
    requires SessionOk(r, iset{}) && PendingReceive(r)
    requires OnSession(r, Accept(r.id, fileIds, order)).decisions == [Accepted(given)]
    ensures given == AcceptedTokens(r, fileIds)
  {
    hide SessionOk, CheckFinish, AcceptSession, AcceptedTokens;
    AcceptOk(r, fileIds, order);
  }

  lemma ChosenAreNamed(r: Session, fileIds: Option<seq<string>>, response: Response)
    requires SessionOk(r, iset{}) && PendingReceive(r) && Lists(response, AcceptedTokens(r, fileIds))
    ensures forall f :: f in r.files ==> (Names(response, f) <==> Chosen(fileIds, f))
    ensures forall i :: 0 <= i < |response| ==> response[i].0 in r.files
  {
    hide Chosen;
    PendingFacts(r);
    forall f | f in r.files && Chosen(fileIds, f) ensures Names(response, f) {
      assert f in AcceptedTokens(r, fileIds);
    }
  }
}
