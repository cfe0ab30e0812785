/** The CLI's list of cards against the actor it watches: after an index and the
    events since, every card shows its session as it is. */
module CliSync {
  import opened Bytes
  import opened SessionModel
  import opened SessionIndex
  import opened SessionRuns
  import opened CliState
  import opened CliApp

  /** The events of one session in a feed, in order. */
  function Concerning(feed: seq<(string, SessionEvent)>, id: string): seq<SessionEvent>
  {
    if feed == [] then []
    else (if feed[0].0 == id then [feed[0].1] else []) + Concerning(feed[1..], id)
  }

  /** A card is moved by its own session's events, and by nothing else. */
  lemma {:induction false} FedCard(views: seq<View>, feed: seq<(string, SessionEvent)>, i: nat)
    requires i < |views|
    ensures |Fed(views, feed)| == |views|
    ensures Fed(views, feed)[i] == Fold(views[i], Concerning(feed, views[i].id))
    ensures Fed(views, feed)[i].id == views[i].id
    decreases |feed|
  {
    if feed != [] {
      var (id, e) := feed[0];
      var next := ApplyOne(views, id, e);
      FedCard(next, feed[1..], i);
      if views[i].id == id {
        var rest := Concerning(feed[1..], id);
        assert ([e] + rest)[1..] == rest;
      } else {
        assert Concerning(feed, views[i].id) == Concerning(feed[1..], views[i].id);
      }
    }
  }

  /** A card of the session: the same files by id and name, in whatever states. */
  ghost predicate CardOf(v: View, s: Session, keys: seq<string>)
  {
    && Enumerates(keys, s.files.Keys) && Lists(v.files, keys)
    && forall j :: 0 <= j < |keys| ==> keys[j] in s.files && v.files[j].name == s.files[keys[j]].info.fileName
  }

  ghost predicate IsCard(v: View, s: Session) { exists keys :: CardOf(v, s, keys) }

  ghost predicate Shown(v: View, s: Session) { exists keys :: Agrees(v, s, keys) }

  lemma ShownIsCard(v: View, s: Session)
    requires Shown(v, s) && WellKeyed(s)
    ensures IsCard(v, s)
  {
    var keys :| Agrees(v, s, keys);
    DistinctIds(v, s, keys);
    assert CardOf(v, s, keys);
  }

  /** Files are never added, dropped or renamed, so a card stays a card. */
  lemma {:induction false} CardStays(w: World, msgs: seq<Message>, id: string, v: View)
    requires Legal(w, msgs) && id in w.sessions && IsCard(v, w.sessions[id])
    ensures id in Run(w, msgs).sessions && IsCard(v, Run(w, msgs).sessions[id])
    decreases |msgs|
  {
    hide OnSession, IsCard;
    if msgs != [] {
      var m := msgs[0];
      if m.id == id {
        TokensUntouched(w.sessions[id], m);
        CardOfSame(v, w.sessions[id], Next(w, m).sessions[id]);
      } else {
        OthersUntouched(w, m, id);
      }
      CardStays(Next(w, m), msgs[1..], id, v);
    }
  }

  lemma CardOfSame(v: View, s: Session, t: Session)
    requires IsCard(v, s) && t.files.Keys == s.files.Keys
    requires forall f :: f in s.files ==> t.files[f].info == s.files[f].info
    ensures IsCard(v, t)
  {
    var keys :| CardOf(v, s, keys);
    assert CardOf(v, t, keys);
  }

  /** Sessions under their own ids, and files under theirs. */
  ghost predicate Keyed(w: World)
  {
    forall id :: id in w.sessions ==> w.sessions[id].id == id && WellKeyed(w.sessions[id])
  }

  ghost predicate CardsOf(views: seq<View>, w: World)
  {
    forall i :: 0 <= i < |views| && views[i].id in w.sessions ==> IsCard(views[i], w.sessions[views[i].id])
  }

  ghost predicate AllShown(views: seq<View>, w: World)
  {
    forall i :: 0 <= i < |views| ==> views[i].id in w.sessions && Shown(views[i], w.sessions[views[i].id])
  }

  lemma RefreshedShown(v: View, sum: Summary, s: Session, before: seq<View>)
    requires Refreshed(v, sum, before) && IsSummary(sum, s) && WellKeyed(s)
    requires forall i :: 0 <= i < |before| && before[i].id == sum.id ==> IsCard(before[i], s)
    ensures Shown(v, s)
  {
    hide Agrees, IsSummary, UpdateFromSummary, FromSummary;
    if Shows(before, sum.id) {
      var i :| 0 <= i < |before| && before[i].id == sum.id;
      var keys :| CardOf(before[i], s, keys);
      RefreshAgrees(before[i], s, sum, keys);
    } else {
      var keys := SummaryAgrees(sum, s);
    }
  }

  /** Once an index of the actor's sessions is taken in, exactly the uncleared
      sessions have a card, and every card shows its session. */
  lemma IndexIsShown(before: seq<View>, hidden: set<string>, index: seq<Summary>, w: World)
    requires DistinctCards(before) && (forall v :: v in before ==> v.id !in hidden)
    requires Keyed(w) && IsIndex(index, w.sessions) && CardsOf(before, w)
    ensures var after := Retained(Absorbed(before, hidden, index), hidden, index);
            && AllShown(after, w) && forall id :: Shows(after, id) <==> id in w.sessions && id !in hidden
  {
    hide Retained, Absorbed, Refreshed, IsSummary, Shown, IsCard, WellKeyed, LexLe;
    var after := Retained(Absorbed(before, hidden, index), hidden, index);
    IndexShown(before, hidden, index);
    assert StrictIds(index);
    forall i | 0 <= i < |after| ensures after[i].id in w.sessions && Shown(after[i], w.sessions[after[i].id]) {
      assert Shows(after, after[i].id);
      var k :| 0 <= k < |index| && index[k].id == after[i].id;
      assert Refreshed(after[i], index[k], before);
      RefreshedShown(after[i], index[k], w.sessions[index[k].id], before);
    }
    forall id ensures Listed(index, id) <==> id in w.sessions {
    }
  }

  /** The feed brings every session's events since `w`, in order. */
  ghost predicate FeedOf(feed: seq<(string, SessionEvent)>, w: World, w': World)
  {
    forall id :: id in w.sessions && id in w'.sessions ==>
      && w.sessions[id].events <= w'.sessions[id].events
      && Concerning(feed, id) == w'.sessions[id].events[|w.sessions[id].events|..]
  }

  /** Cards that show their sessions still do so when the events since are in. */
  lemma FeedIsShown(views: seq<View>, w: World, msgs: seq<Message>, feed: seq<(string, SessionEvent)>)
    requires Legal(w, msgs) && Keyed(w) && AllShown(views, w) && FeedOf(feed, w, Run(w, msgs))
    ensures AllShown(Fed(views, feed), Run(w, msgs))
    ensures |Fed(views, feed)| == |views| && forall i :: 0 <= i < |views| ==> Fed(views, feed)[i].id == views[i].id
  {
    hide Fed, Run, Legal, Shown, WellKeyed, Concerning, Fold;
    if views == [] {
      NothingFed(feed);
    } else {
      FedCard(views, feed, 0);
    }
    forall i | 0 <= i < |views|
      ensures Fed(views, feed)[i].id == views[i].id && views[i].id in Run(w, msgs).sessions
      ensures Shown(Fed(views, feed)[i], Run(w, msgs).sessions[views[i].id])
    {
      FedCard(views, feed, i);
      CardFollows(views[i], w, msgs, views[i].id);
    }
  }

  lemma {:induction false} NothingFed(feed: seq<(string, SessionEvent)>)
    ensures Fed([], feed) == []
    decreases |feed|
  {
    if feed != [] {
      assert ApplyOne([], feed[0].0, feed[0].1) == [];
      NothingFed(feed[1..]);
    }
  }

  lemma CardFollows(v: View, w: World, msgs: seq<Message>, id: string)
    requires Legal(w, msgs) && id in w.sessions && Shown(v, w.sessions[id]) && WellKeyed(w.sessions[id])
    ensures id in Run(w, msgs).sessions
    ensures var s, t := w.sessions[id], Run(w, msgs).sessions[id];
            s.events <= t.events && Shown(Fold(v, t.events[|s.events|..]), t)
  {
    hide Agrees, Fold, WellKeyed, Follows, Run, Legal;
    var keys :| Agrees(v, w.sessions[id], keys);
    RunFollowed(w, msgs, id, v, keys);
    FollowedAgrees(v, w.sessions[id], Run(w, msgs).sessions[id], keys);
  }

  /** The CLI watching the actor: it takes in an index as published in state `w`,
      then the events sent while the actor handled `msgs`, in any interleaving of
      the sessions. After that every card shows its session as it now is, and the
      cards are those of the sessions of the index the user has not cleared. */
  method Watch(
    app: App, index: seq<Summary>, feed: seq<(string, SessionEvent)>, ghost w: World, ghost msgs: seq<Message>)
    requires app.Valid() && CardsOf(app.sessions, w)
    requires Keyed(w) && IsIndex(index, w.sessions) && Legal(w, msgs) && FeedOf(feed, w, Run(w, msgs))
    modifies app
    ensures app.Valid() && app.hidden == old(app.hidden) && AllShown(app.sessions, Run(w, msgs))
    ensures forall id :: Shows(app.sessions, id) <==> id in w.sessions && id !in app.hidden
  {
    hide Fed, Run, Legal, IsIndex, Keyed, AllShown, CardsOf, FeedOf, Retained, Absorbed, Refreshed;
    IndexIsShown(app.sessions, app.hidden, index, w);
    app.ApplyIndex(index);
    ghost var indexed := app.sessions;
    FeedIsShown(indexed, w, msgs, feed);
    app.ApplyFeed(feed);
    SameCards(indexed, app.sessions);
  }

  lemma SameCards(a: seq<View>, b: seq<View>)
    requires |a| == |b| && forall i :: 0 <= i < |a| ==> b[i].id == a[i].id
    ensures forall id :: Shows(a, id) <==> Shows(b, id)
  {
    forall id ensures Shows(a, id) <==> Shows(b, id) {
      if Shows(a, id) {
        var i :| 0 <= i < |a| && a[i].id == id;
        assert b[i].id == id;
      }
      if Shows(b, id) {
        var i :| 0 <= i < |b| && b[i].id == id;
        assert a[i].id == id;
      }
    }
  }

  /** And what the cards need for the next index is there again, whatever the
      actor has done since. */
  lemma CardsForNext(views: seq<View>, w: World, msgs: seq<Message>)
    requires AllShown(views, w) && Keyed(w) && Legal(w, msgs)
    ensures CardsOf(views, Run(w, msgs))
  {
    hide Shown, IsCard, WellKeyed, Run, Legal;
    forall i | 0 <= i < |views| && views[i].id in Run(w, msgs).sessions
      ensures IsCard(views[i], Run(w, msgs).sessions[views[i].id])
    {
      ShownIsCard(views[i], w.sessions[views[i].id]);
      CardStays(w, msgs, views[i].id, views[i]);
    }
  }
}
