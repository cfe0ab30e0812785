/** The CLI's root state: the list of session cards, which of them the user has
    cleared, and the focused one. */
module CliApp {
  import opened SessionModel
  import opened SessionIndex
  import opened CliState

  predicate DistinctCards(views: seq<View>)
  {
    forall i, j :: 0 <= i < j < |views| ==> views[i].id != views[j].id
  }

  predicate Shows(views: seq<View>, id: string) { exists i :: 0 <= i < |views| && views[i].id == id }

  predicate Listed(index: seq<Summary>, id: string) { exists i :: 0 <= i < |index| && index[i].id == id }

  method FindView(views: seq<View>, id: string) returns (i: nat)
    ensures i <= |views| && (i < |views| ==> views[i].id == id)
    ensures i == |views| <==> !Shows(views, id)
    ensures i == Find(views, id)
  {
    i := 0;
    while i < |views| && views[i].id != id
      invariant i <= |views| && forall j :: 0 <= j < i ==> views[j].id != id
    {
      i := i + 1;
    }
  }

  /** `retain`. */
  method Retain(views: seq<View>, drop: set<string>, index: seq<Summary>) returns (r: seq<View>)
    ensures r == Retained(views, drop, index)
  {
    r := [];
    for k := 0 to |views|
      invariant r == Retained(views[..k], drop, index)
    {
      assert views[..k + 1][..k] == views[..k];
      if views[k].id !in drop && Listed(index, views[k].id) {
        r := r + [views[k]];
      }
    }
    assert views[..|views|] == views;
  }

  /** The card is the old one brought up to date, or a new one. */
  ghost predicate Refreshed(v: View, sum: Summary, before: seq<View>)
  {
    && v.id == sum.id && v.state == sum.state
    && (forall i :: 0 <= i < |before| && before[i].id == sum.id ==> v == UpdateFromSummary(before[i], sum))
    && (!Shows(before, sum.id) ==> v == FromSummary(sum))
  }

  // --- what the loops compute, card order included ---------------------------

  function Find(views: seq<View>, id: string): (i: nat)
    ensures i <= |views| && (i < |views| ==> views[i].id == id)
    ensures forall j :: 0 <= j < i ==> views[j].id != id
  {
    if views == [] || views[0].id == id then 0
    else
      var i := Find(views[1..], id);
      assert forall j :: 0 < j < 1 + i ==> views[j] == views[1..][j - 1];
      1 + i
  }

  function TakeIn(views: seq<View>, sum: Summary): seq<View>
  {
    var i := Find(views, sum.id);
    if i < |views| then views[i := UpdateFromSummary(views[i], sum)] else views + [FromSummary(sum)]
  }

  function Absorbed(views: seq<View>, hidden: set<string>, index: seq<Summary>): seq<View>
  {
    if index == [] then views
    else
      var n := |index| - 1;
      var taken := Absorbed(views, hidden, index[..n]);
      if index[n].id in hidden then taken else TakeIn(taken, index[n])
  }

  function Retained(views: seq<View>, hidden: set<string>, index: seq<Summary>): seq<View>
  {
    if views == [] then []
    else
      var n := |views| - 1;
      Retained(views[..n], hidden, index)
      + if views[n].id !in hidden && Listed(index, views[n].id) then [views[n]] else []
  }

  function Uncleared(views: seq<View>): seq<View>
  {
    if views == [] then []
    else
      var n := |views| - 1;
      Uncleared(views[..n]) + if views[n].IsTerminal() then [] else [views[n]]
  }

  function ApplyOne(views: seq<View>, id: string, e: SessionEvent): seq<View>
  {
    seq(|views|, i requires 0 <= i < |views| =>
      if views[i].id == id then CliState.ApplyEvent(views[i], e) else views[i])
  }

  function Fed(views: seq<View>, feed: seq<(string, SessionEvent)>): seq<View>
    decreases |feed|
  {
    if feed == [] then views else Fed(ApplyOne(views, feed[0].0, feed[0].1), feed[1..])
  }

  class App {
    var sessions: seq<View>
    var focus: nat
    var hidden: set<string>

    constructor ()
      ensures Valid() && sessions == [] && hidden == {}
    {
      sessions, focus, hidden := [], 0, {};
    }

    /** One card per session, none of them cleared, and a focus inside the list. */
    ghost predicate Valid()
      reads this
    {
      && DistinctCards(sessions) && (focus == 0 || focus < |sessions|)
      && forall v :: v in sessions ==> v.id !in hidden
    }

    method ClampFocus()
      modifies this`focus
      ensures focus == if sessions == [] then 0 else if old(focus) >= |sessions| then |sessions| - 1 else old(focus)
    {
      if sessions == [] {
        focus := 0;
      } else if focus >= |sessions| {
        focus := |sessions| - 1;
      }
    }

    /** Take in the summaries one by one. */
    method Absorb(index: seq<Summary>) returns (views: seq<View>)
      ensures views == Absorbed(sessions, hidden, index)
    {
      hide UpdateFromSummary, FromSummary;
      views := sessions;
      for k := 0 to |index|
        invariant views == Absorbed(sessions, hidden, index[..k])
      {
        assert index[..k + 1][..k] == index[..k];
        if index[k].id !in hidden {
          var i := FindView(views, index[k].id);
          if i < |views| {
            views := views[i := UpdateFromSummary(views[i], index[k])];
          } else {
            views := views + [FromSummary(index[k])];
          }
        }
      }
      assert index[..|index|] == index;
    }

    /** After taking in an index, exactly its uncleared sessions are shown, each
        with the state the index gives. */
    method ApplyIndex(index: seq<Summary>)
      requires Valid()
      modifies this
      ensures Valid() && hidden == old(hidden)
      ensures sessions == Retained(Absorbed(old(sessions), hidden, index), hidden, index)
      ensures forall id :: Shows(sessions, id) <==> Listed(index, id) && id !in hidden
      ensures StrictIds(index) ==>
                forall i, k :: 0 <= i < |sessions| && 0 <= k < |index| && sessions[i].id == index[k].id ==>
                  Refreshed(sessions[i], index[k], old(sessions))
    {
      hide Refreshed, Absorbed, Retained;
      var views := Absorb(index);
      var kept := Retain(views, hidden, index);
      IndexShown(sessions, hidden, index);
      sessions := kept;
      ClampFocus();
    }

    method ApplyEvent(id: string, e: SessionEvent)
      requires Valid()
      modifies this`sessions
      ensures Valid() && |sessions| == |old(sessions)|
      ensures forall i :: 0 <= i < |sessions| ==>
                sessions[i] ==
                  if old(sessions)[i].id == id then CliState.ApplyEvent(old(sessions)[i], e) else old(sessions)[i]
    {
      var i := FindView(sessions, id);
      if i < |sessions| {
        assert sessions[i] in sessions;
        sessions := sessions[i := CliState.ApplyEvent(sessions[i], e)];
        forall v | v in sessions ensures v.id !in hidden {
          var k :| 0 <= k < |sessions| && sessions[k] == v;
          assert k != i ==> v in old(sessions);
        }
      }
    }

    /** Events of several sessions, one after the other. */
    method ApplyFeed(feed: seq<(string, SessionEvent)>)
      requires Valid()
      modifies this`sessions
      ensures Valid() && sessions == Fed(old(sessions), feed)
    {
      hide CliState.ApplyEvent;
      for k := 0 to |feed|
        invariant Valid() && Fed(sessions, feed[k..]) == Fed(old(sessions), feed)
      {
        ghost var before := sessions;
        ApplyEvent(feed[k].0, feed[k].1);
        assert sessions == ApplyOne(before, feed[k].0, feed[k].1);
        assert feed[k..][1..] == feed[k + 1..];
      }
    }

    method CycleFocus(delta: int)
      requires Valid()
      modifies this`focus
      ensures Valid()
      ensures sessions != [] ==> focus == (old(focus) + delta) % |sessions|
    {
      if sessions == [] {
        focus := 0;
      } else {
        focus := (focus + delta) % |sessions|;
      }
    }

    /** Clears exactly the cards of finished, failed and canceled sessions, for
        good: the cleared set only grows, and `Valid` keeps what is in it away. */
    method ClearTerminal() returns (count: nat)
      requires Valid()
      modifies this
      ensures Valid() && old(hidden) <= hidden
      ensures sessions == Uncleared(old(sessions))
      ensures forall v :: v in sessions <==> v in old(sessions) && v.state !in {Finished, Failed, Canceled}
      ensures forall v :: v in old(sessions) && v.state in {Finished, Failed, Canceled} ==> v.id in hidden
      ensures count + |sessions| == |old(sessions)|
    {
      hide Uncleared;
      var terminal := Terminal(sessions);
      count := |terminal|;
      for k := 0 to count
        invariant sessions == old(sessions)
        invariant forall id :: id in hidden <==> id in old(hidden) || id in terminal[..k]
      {
        assert terminal[..k + 1] == terminal[..k] + [terminal[k]];
        hidden := hidden + {terminal[k]};
      }
      assert terminal[..count] == terminal;
      var kept := Unhidden(sessions, hidden);
      ClearedShown(sessions, old(hidden), hidden, terminal, kept);
      sessions := kept;
      ClampFocus();
    }
  }

  /** The ids of the cards whose sessions are over. */
  method Terminal(views: seq<View>) returns (ids: seq<string>)
    ensures |ids| + |Uncleared(views)| == |views|
    ensures forall id :: id in ids <==> exists i :: 0 <= i < |views| && views[i].id == id && views[i].IsTerminal()
  {
    ids := [];
    for k := 0 to |views|
      invariant |ids| + |Uncleared(views[..k])| == k
      invariant forall id :: id in ids <==> exists i :: 0 <= i < k && views[i].id == id && views[i].IsTerminal()
    {
      assert views[..k + 1][..k] == views[..k];
      if views[k].IsTerminal() {
        ids := ids + [views[k].id];
      }
    }
    assert views[..|views|] == views;
  }

  function Visible(views: seq<View>, hidden: set<string>): seq<View>
  {
    if views == [] then []
    else
      var n := |views| - 1;
      Visible(views[..n], hidden) + if views[n].id in hidden then [] else [views[n]]
  }

  method Unhidden(views: seq<View>, hidden: set<string>) returns (r: seq<View>)
    ensures r == Visible(views, hidden)
  {
    r := [];
    for k := 0 to |views|
      invariant r == Visible(views[..k], hidden)
    {
      assert views[..k + 1][..k] == views[..k];
      if views[k].id !in hidden {
        r := r + [views[k]];
      }
    }
    assert views[..|views|] == views;
  }

  /** Hiding the ids of the finished cards drops those cards and no others, since
      no two cards have the same id. */
  lemma {:induction false} VisibleIsUncleared(views: seq<View>, hidden: set<string>)
    requires DistinctCards(views)
    requires forall i :: 0 <= i < |views| ==> (views[i].id in hidden <==> views[i].IsTerminal())
    ensures Visible(views, hidden) == Uncleared(views)
    ensures DistinctCards(Uncleared(views))
    ensures forall v :: v in Uncleared(views) <==> v in views && !v.IsTerminal()
  {
    if views != [] {
      var n := |views| - 1;
      VisibleIsUncleared(views[..n], hidden);
      assert views == views[..n] + [views[n]];
      var u := Uncleared(views[..n]);
      assert forall i :: 0 <= i < |u| ==> u[i] in u && u[i] in views[..n];
    }
  }

  lemma ClearedShown(views: seq<View>, before: set<string>, hidden: set<string>, terminal: seq<string>, kept: seq<View>)
    requires DistinctCards(views) && forall v :: v in views ==> v.id !in before
    requires forall id :: id in hidden <==> id in before || id in terminal
    requires forall id :: id in terminal <==> exists i :: 0 <= i < |views| && views[i].id == id && views[i].IsTerminal()
    requires kept == Visible(views, hidden)
    ensures kept == Uncleared(views) && DistinctCards(kept) && before <= hidden
    ensures forall v :: v in kept <==> v in views && !v.IsTerminal()
    ensures forall v :: v in kept ==> v.id !in hidden
    ensures forall v :: v in views && v.IsTerminal() ==> v.id in hidden
  {
    hide Visible, Uncleared;
    assert forall i :: 0 <= i < |views| ==> views[i] in views;
    VisibleIsUncleared(views, hidden);
  }

  predicate StrictIds(index: seq<Summary>)
  {
    forall i, j :: 0 <= i < j < |index| ==> index[i].id != index[j].id
  }

  lemma RefreshKeeps(v: View, sum: Summary, before: seq<View>)
    requires DistinctCards(before) && v.id == sum.id && v in before
    ensures Refreshed(UpdateFromSummary(v, sum), sum, before)
  {
  }

  lemma UpdatedId(v: View, sum: Summary)
    ensures UpdateFromSummary(v, sum).id == v.id
  {
  }

  lemma NewCard(sum: Summary)
    ensures FromSummary(sum).id == sum.id
  {
  }

  lemma NewIsRefreshed(sum: Summary, before: seq<View>)
    requires !Shows(before, sum.id)
    ensures Refreshed(FromSummary(sum), sum, before)
  {
  }

  /** The cards after the summaries in `index` have been taken in. */
  ghost predicate TakenIn(views: seq<View>, before: seq<View>, hidden: set<string>, index: seq<Summary>)
  {
    && DistinctCards(views)
    && (forall i :: 0 <= i < |index| && index[i].id !in hidden ==> Shows(views, index[i].id))
    && (forall i :: 0 <= i < |views| ==> views[i] in before || Listed(index, views[i].id))
    && (forall i :: 0 <= i < |before| ==> Shows(views, before[i].id))
  }

  ghost predicate AllRefreshed(views: seq<View>, before: seq<View>, hidden: set<string>, index: seq<Summary>)
  {
    forall i, j :: 0 <= i < |views| && 0 <= j < |index| && index[j].id !in hidden && views[i].id == index[j].id ==>
      Refreshed(views[i], index[j], before)
  }

  lemma {:induction false} AbsorbedTakesIn(before: seq<View>, hidden: set<string>, index: seq<Summary>)
    requires DistinctCards(before) && forall i :: 0 <= i < |before| ==> before[i].id !in hidden
    ensures TakenIn(Absorbed(before, hidden, index), before, hidden, index)
    ensures StrictIds(index) ==> AllRefreshed(Absorbed(before, hidden, index), before, hidden, index)
  {
    hide TakenIn, TakeIn, AllRefreshed;
    if index == [] {
      NothingTakenIn(before, hidden);
    } else {
      var n := |index| - 1;
      AbsorbedTakesIn(before, hidden, index[..n]);
      TakeOne(Absorbed(before, hidden, index[..n]), before, hidden, index);
      if StrictIds(index) {
        RefreshOneMore(Absorbed(before, hidden, index[..n]), before, hidden, index);
      }
    }
  }

  lemma NothingTakenIn(before: seq<View>, hidden: set<string>)
    requires DistinctCards(before)
    ensures TakenIn(before, before, hidden, []) && AllRefreshed(before, before, hidden, [])
  {
  }

  lemma TakeOne(views: seq<View>, before: seq<View>, hidden: set<string>, index: seq<Summary>)
    requires index != [] && DistinctCards(before) && TakenIn(views, before, hidden, index[..|index| - 1])
    ensures var sum := index[|index| - 1];
            TakenIn(if sum.id in hidden then views else TakeIn(views, sum), before, hidden, index)
  {
    hide UpdateFromSummary, FromSummary;
    var n := |index| - 1;
    var sum := index[n];
    assert forall j :: 0 <= j < n ==> index[..n][j] == index[j];
    MoreListed(index);
    if sum.id !in hidden {
      var i := Find(views, sum.id);
      var after := TakeIn(views, sum);
      if i < |views| {
        UpdatedId(views[i], sum);
        ShowsUpdated(views, i, after);
      } else {
        NewCard(sum);
        ShowsAppended(views, FromSummary(sum));
      }
    }
  }

  lemma RefreshOneMore(views: seq<View>, before: seq<View>, hidden: set<string>, index: seq<Summary>)
    requires index != [] && DistinctCards(before) && StrictIds(index)
    requires TakenIn(views, before, hidden, index[..|index| - 1])
             && AllRefreshed(views, before, hidden, index[..|index| - 1])
    ensures var sum := index[|index| - 1];
            AllRefreshed(if sum.id in hidden then views else TakeIn(views, sum), before, hidden, index)
  {
    hide UpdateFromSummary, FromSummary, Refreshed;
    var n := |index| - 1;
    var sum := index[n];
    assert forall j :: 0 <= j < n ==> index[..n][j] == index[j];
    if sum.id !in hidden {
      var i := Find(views, sum.id);
      if i < |views| {
        UpdatedId(views[i], sum);
        RefreshKeeps(views[i], sum, before);
      } else {
        NewCard(sum);
        NewIsRefreshed(sum, before);
      }
    }
  }

  lemma MoreListed(index: seq<Summary>)
    requires index != []
    ensures Listed(index, index[|index| - 1].id)
    ensures forall id :: Listed(index[..|index| - 1], id) ==> Listed(index, id)
  {
    var shorter := index[..|index| - 1];
    forall id | Listed(shorter, id) ensures Listed(index, id) {
      var i :| 0 <= i < |shorter| && shorter[i].id == id;
      assert index[i].id == id;
    }
  }

  lemma {:induction false} RetainedFacts(views: seq<View>, hidden: set<string>, index: seq<Summary>)
    requires DistinctCards(views)
    ensures DistinctCards(Retained(views, hidden, index))
    ensures forall v :: v in Retained(views, hidden, index) <==> v in views && v.id !in hidden && Listed(index, v.id)
  {
    if views != [] {
      var n := |views| - 1;
      RetainedFacts(views[..n], hidden, index);
      assert views == views[..n] + [views[n]];
      var r := Retained(views[..n], hidden, index);
      assert forall i :: 0 <= i < |r| ==> r[i] in r && r[i] in views[..n];
    }
  }

  /** Exactly the index's uncleared sessions are shown, each brought up to date. */
  lemma IndexShown(before: seq<View>, hidden: set<string>, index: seq<Summary>)
    requires DistinctCards(before) && forall v :: v in before ==> v.id !in hidden
    ensures var after := Retained(Absorbed(before, hidden, index), hidden, index);
            && DistinctCards(after)
            && (forall id :: Shows(after, id) <==> Listed(index, id) && id !in hidden)
            && (forall v :: v in after ==> v.id !in hidden)
            && (StrictIds(index) ==>
                  forall i, k :: 0 <= i < |after| && 0 <= k < |index| && after[i].id == index[k].id ==>
                    Refreshed(after[i], index[k], before))
  {
    hide Absorbed, Retained, Refreshed;
    var views := Absorbed(before, hidden, index);
    var after := Retained(views, hidden, index);
    AbsorbedTakesIn(before, hidden, index);
    RetainedFacts(views, hidden, index);
    forall i | 0 <= i < |after| ensures after[i] in views && after[i].id !in hidden && Listed(index, after[i].id) {
      assert after[i] in after;
    }
    forall id | Listed(index, id) && id !in hidden ensures Shows(after, id) {
      var k :| 0 <= k < |index| && index[k].id == id;
      var i :| 0 <= i < |views| && views[i].id == id;
      assert views[i] in after;
    }
  }

  lemma ShowsUpdated(before: seq<View>, i: nat, after: seq<View>)
    requires i < |before| == |after| && after[i].id == before[i].id && after == before[i := after[i]]
    ensures forall id :: Shows(before, id) <==> Shows(after, id)
  {
    forall id | Shows(before, id) ensures Shows(after, id) {
      var j :| 0 <= j < |before| && before[j].id == id;
      assert after[j].id == id;
    }
    forall id | Shows(after, id) ensures Shows(before, id) {
      var j :| 0 <= j < |after| && after[j].id == id;
      assert before[j].id == id;
    }
  }

  lemma ShowsAppended(before: seq<View>, v: View)
    ensures forall id :: Shows(before + [v], id) <==> Shows(before, id) || id == v.id
  {
    var after := before + [v];
    forall id | Shows(before, id) || id == v.id ensures Shows(after, id) {
      if id == v.id {
        assert after[|before|].id == id;
      } else {
        var j :| 0 <= j < |before| && before[j].id == id;
        assert after[j].id == id;
      }
    }
  }
}
