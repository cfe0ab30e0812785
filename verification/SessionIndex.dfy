/** The published session index: summaries sorted by session id, each with its
    files sorted by name. */
module SessionIndex {
  import opened SessionModel

  datatype FileSummary = FileSummary(info: FileInfo, state: FileState)

  datatype Summary = Summary(
    id: string, direction: Direction, peer: Peer, fileCount: nat, state: MissionState, viaRelay: bool, route: string,
    files: seq<FileSummary>)

  // --- string order ---------------------------------------------------------

  /** Code point order, which is also the byte order of the encodings. */
  predicate LexLe(a: string, b: string)
  {
    a == [] || (b != [] && (a[0] < b[0] || (a[0] == b[0] && LexLe(a[1..], b[1..]))))
  }

  lemma {:induction false} LexTotal(a: string, b: string)
    ensures LexLe(a, b) || LexLe(b, a)
  {
    if a != [] && b != [] && a[0] == b[0] {
      LexTotal(a[1..], b[1..]);
    }
  }

  lemma {:induction false} LexTransitive(a: string, b: string, c: string)
    requires LexLe(a, b) && LexLe(b, c)
    ensures LexLe(a, c)
  {
    if a != [] && a[0] == b[0] == c[0] {
      LexTransitive(a[1..], b[1..], c[1..]);
    }
  }

  lemma {:induction false} LexAntisymmetric(a: string, b: string)
    requires LexLe(a, b) && LexLe(b, a)
    ensures a == b
  {
    if a != [] && b != [] {
      LexAntisymmetric(a[1..], b[1..]);
      assert a == [a[0]] + a[1..] && b == [b[0]] + b[1..];
    }
  }

  // --- sorting --------------------------------------------------------------

  predicate SortedBy(keys: seq<string>, name: map<string, string>)
  {
    && (forall k :: k in keys ==> k in name)
    && forall i, j :: 0 <= i < j < |keys| ==> LexLe(name[keys[i]], name[keys[j]])
  }

  /** Where `key` goes: behind everything that is not after it. */
  method InsertKey(sorted: seq<string>, key: string, name: map<string, string>) returns (r: seq<string>)
    requires SortedBy(sorted, name) && key in name && NoDup(sorted) && key !in sorted
    ensures SortedBy(r, name) && NoDup(r)
    ensures forall k :: k in r <==> k in sorted || k == key
  {
    hide LexLe;
    var i := 0;
    while i < |sorted| && LexLe(name[sorted[i]], name[key])
      invariant i <= |sorted|
      invariant forall j :: 0 <= j < i ==> LexLe(name[sorted[j]], name[key])
    {
      i := i + 1;
    }
    r := sorted[..i] + [key] + sorted[i..];
    forall j | i <= j < |sorted| ensures LexLe(name[key], name[sorted[j]]) {
      LexTotal(name[key], name[sorted[i]]);
      if i < j {
        LexTransitive(name[key], name[sorted[i]], name[sorted[j]]);
      }
    }
    InsertedAt(sorted, i, key, r);
  }

  lemma InsertedAt(sorted: seq<string>, i: nat, key: string, r: seq<string>)
    requires i <= |sorted| && r == sorted[..i] + [key] + sorted[i..]
    ensures |r| == |sorted| + 1 && r[i] == key
    ensures forall j :: 0 <= j < i ==> r[j] == sorted[j]
    ensures forall j :: i <= j < |sorted| ==> r[j + 1] == sorted[j]
    ensures forall k :: k in r <==> k in sorted || k == key
  {
    forall k | k in sorted ensures k in r {
      var j :| 0 <= j < |sorted| && sorted[j] == k;
      assert r[if j < i then j else j + 1] == k;
    }
    assert r[i] == key;
  }

  /** The keys in the order of their names; equal names in any order. */
  method SortKeys(keys: set<string>, name: map<string, string>) returns (r: seq<string>)
    requires forall k :: k in keys ==> k in name
    ensures Enumerates(r, keys) && SortedBy(r, name)
  {
    r := [];
    var left := keys;
    while left != {}
      invariant left <= keys && SortedBy(r, name) && NoDup(r)
      invariant forall k :: k in r <==> k in keys && k !in left
      decreases |left|
    {
      var k :| k in left;
      r := InsertKey(r, k, name);
      left := left - {k};
    }
  }

  // --- summaries and the index ----------------------------------------------

  /** The list is the session's files, each once, in the order `keys`, by name. */
  ghost predicate ListsFiles(list: seq<FileSummary>, s: Session, keys: seq<string>)
  {
    && Enumerates(keys, s.files.Keys) && |list| == |keys|
    && (forall j :: 0 <= j < |keys| ==>
          list[j] == FileSummary(s.files[keys[j]].info, s.files[keys[j]].state))
    && (forall i, j :: 0 <= i < j < |list| ==> LexLe(list[i].info.fileName, list[j].info.fileName))
  }

  ghost predicate IsSummary(sum: Summary, s: Session)
  {
    && sum == Summary(s.id, s.direction, s.peer, |s.files|, s.state, s.viaRelay, s.route, sum.files)
    && exists keys :: ListsFiles(sum.files, s, keys)
  }

  ghost predicate IsIndex(index: seq<Summary>, sessions: map<string, Session>)
  {
    && (forall i :: 0 <= i < |index| ==> index[i].id in sessions && IsSummary(index[i], sessions[index[i].id]))
    && (forall id :: id in sessions ==> exists i :: 0 <= i < |index| && index[i].id == id)
    && (forall i, j :: 0 <= i < j < |index| ==> index[i].id != index[j].id && LexLe(index[i].id, index[j].id))
  }

  /** Summaries listed by sorted, distinct ids make the index. */
  lemma IndexFrom(ids: seq<string>, list: seq<Summary>, sessions: map<string, Session>)
    requires Enumerates(ids, sessions.Keys) && |list| == |ids|
    requires forall i, j :: 0 <= i < j < |ids| ==> LexLe(ids[i], ids[j])
    requires forall j :: 0 <= j < |ids| ==>
               ids[j] in sessions && list[j].id == ids[j] && IsSummary(list[j], sessions[ids[j]])
    ensures IsIndex(list, sessions)
  {
    hide LexLe, IsSummary;
    forall id | id in sessions ensures exists i :: 0 <= i < |list| && list[i].id == id {
      var i :| 0 <= i < |ids| && ids[i] == id;
      assert list[i].id == id;
    }
  }

  /** The index is determined by the sessions, up to the order of files of one
      session that have the same name: the same sessions in the same places, with
      the same files under the same sequence of names. */
  lemma IndexUnique(a: seq<Summary>, b: seq<Summary>, sessions: map<string, Session>)
    requires IsIndex(a, sessions) && IsIndex(b, sessions)
    ensures |a| == |b|
    ensures forall i :: 0 <= i < |a| ==>
              && a[i].(files := []) == b[i].(files := [])
              && multiset(a[i].files) == multiset(b[i].files) && FileNames(a[i].files) == FileNames(b[i].files)
  {
    hide LexLe, ListsFiles, FileNames;
    IdsOf(a, sessions);
    IdsOf(b, sessions);
    SortedUnique(Ids(a), Ids(b));
    forall i | 0 <= i < |a|
      ensures a[i].(files := []) == b[i].(files := [])
      ensures multiset(a[i].files) == multiset(b[i].files) && FileNames(a[i].files) == FileNames(b[i].files)
    {
      assert Ids(a)[i] == a[i].id && Ids(b)[i] == b[i].id;
      var s := sessions[a[i].id];
      assert IsSummary(a[i], s) && IsSummary(b[i], s);
      var keysA :| ListsFiles(a[i].files, s, keysA);
      var keysB :| ListsFiles(b[i].files, s, keysB);
      SameListing(a[i].files, b[i].files, s, keysA, keysB);
    }
  }

  function FileNames(list: seq<FileSummary>): (names: seq<string>)
    ensures |names| == |list|
  {
    seq(|list|, i requires 0 <= i < |list| => list[i].info.fileName)
  }

  lemma SameListing(a: seq<FileSummary>, b: seq<FileSummary>, s: Session, keysA: seq<string>, keysB: seq<string>)
    requires ListsFiles(a, s, keysA) && ListsFiles(b, s, keysB)
    ensures multiset(a) == multiset(b) && FileNames(a) == FileNames(b)
  {
    hide LexLe;
    assert forall i :: 0 <= i < |keysA| ==> keysA[i] in keysA;
    assert forall i :: 0 <= i < |keysB| ==> keysB[i] in keysB;
    SameFiles(a, b, s, keysA, keysB);
    SortedSame(a, b);
  }

  /** Files listed along two enumerations of the same keys. */
  lemma {:induction false} SameFiles(
    a: seq<FileSummary>, b: seq<FileSummary>, s: Session, keysA: seq<string>, keysB: seq<string>)
    requires NoDup(keysA) && NoDup(keysB) && (forall k :: k in keysA <==> k in keysB)
    requires forall k :: k in keysA ==> k in s.files
    requires Along(a, s, keysA) && Along(b, s, keysB)
    ensures multiset(a) == multiset(b)
    decreases |keysA|
  {
    hide Along;
    SameLength(a, s, keysA);
    SameLength(b, s, keysB);
    assert keysB != [] ==> keysB[0] in keysA;
    if keysA != [] {
      assert keysA[0] in keysB;
      var j :| 0 <= j < |keysB| && keysB[j] == keysA[0];
      var restB, restb := keysB[..j] + keysB[j + 1..], b[..j] + b[j + 1..];
      WithoutOne(keysA, keysB, j);
      FirstSame(a, b, s, keysA, keysB, j);
      AlongRest(a, s, keysA, 0);
      AlongRest(b, s, keysB, j);
      assert keysA[..0] + keysA[1..] == keysA[1..] && a[..0] + a[1..] == a[1..];
      SameFiles(a[1..], restb, s, keysA[1..], restB);
      TakeOut(a, 0);
      TakeOut(b, j);
    }
  }

  lemma SameLength(list: seq<FileSummary>, s: Session, keys: seq<string>)
    requires (forall k :: k in keys ==> k in s.files) && Along(list, s, keys)
    ensures |list| == |keys|
  {
  }

  lemma FirstSame(
    a: seq<FileSummary>, b: seq<FileSummary>, s: Session, keysA: seq<string>, keysB: seq<string>, j: nat)
    requires (forall k :: k in keysA ==> k in s.files) && (forall k :: k in keysB ==> k in s.files)
    requires Along(a, s, keysA) && Along(b, s, keysB) && keysA != [] && j < |keysB| && keysB[j] == keysA[0]
    ensures a[0] == b[j]
  {
  }

  lemma TakeOut<T>(s: seq<T>, j: nat)
    requires j < |s|
    ensures multiset(s) == multiset{s[j]} + multiset(s[..j] + s[j + 1..])
  {
    assert s == s[..j] + [s[j]] + s[j + 1..];
  }

  lemma Cancel<T>(x: T, a: seq<T>, b: seq<T>)
    requires multiset{x} + multiset(a) == multiset{x} + multiset(b)
    ensures multiset(a) == multiset(b)
  {
    assert multiset(a) == multiset{x} + multiset(a) - multiset{x};
    assert multiset(b) == multiset{x} + multiset(b) - multiset{x};
  }

  lemma AlongRest(list: seq<FileSummary>, s: Session, keys: seq<string>, j: nat)
    requires (forall k :: k in keys ==> k in s.files) && Along(list, s, keys) && j < |keys|
    ensures (forall k :: k in keys[..j] + keys[j + 1..] ==> k in s.files)
    ensures Along(list[..j] + list[j + 1..], s, keys[..j] + keys[j + 1..])
  {
    assert forall k :: k in keys[..j] + keys[j + 1..] ==> k in keys;
  }

  ghost predicate Along(list: seq<FileSummary>, s: Session, keys: seq<string>)
    requires forall k :: k in keys ==> k in s.files
  {
    |list| == |keys|
    && forall j :: 0 <= j < |keys| ==> list[j] == FileSummary(s.files[keys[j]].info, s.files[keys[j]].state)
  }

  lemma WithoutOne(keysA: seq<string>, keysB: seq<string>, j: nat)
    requires NoDup(keysA) && NoDup(keysB) && (forall k :: k in keysA <==> k in keysB)
    requires keysA != [] && j < |keysB| && keysB[j] == keysA[0]
    ensures var rest := keysB[..j] + keysB[j + 1..];
            NoDup(keysA[1..]) && NoDup(rest) && forall k :: k in keysA[1..] <==> k in rest
  {
    var rest := keysB[..j] + keysB[j + 1..];
    assert keysB == keysB[..j] + [keysB[j]] + keysB[j + 1..];
    assert keysA == [keysA[0]] + keysA[1..];
    forall k ensures k in keysA[1..] <==> k in rest {
      assert k in keysA <==> k == keysA[0] || k in keysA[1..];
      assert k in keysB <==> k == keysB[j] || k in rest;
    }
  }

  ghost predicate SortedByName(list: seq<FileSummary>)
  {
    forall i, j :: 0 <= i < j < |list| ==> LexLe(list[i].info.fileName, list[j].info.fileName)
  }

  /** Two sorted lists of the same files have the same names in the same places. */
  lemma {:induction false} SortedSame(a: seq<FileSummary>, b: seq<FileSummary>)
    requires SortedByName(a) && SortedByName(b) && multiset(a) == multiset(b)
    ensures FileNames(a) == FileNames(b)
  {
    SameNames(a, b);
    SortedNames(FileNames(a), FileNames(b));
  }

  ghost predicate SortedStrings(s: seq<string>)
  {
    forall i, j :: 0 <= i < j < |s| ==> LexLe(s[i], s[j])
  }

  lemma {:induction false} SameNames(a: seq<FileSummary>, b: seq<FileSummary>)
    requires multiset(a) == multiset(b)
    ensures multiset(FileNames(a)) == multiset(FileNames(b))
    decreases |a|
  {
    hide FileNames;
    SameSize(a, b);
    if a == [] {
      assert b == [];
    } else {
      assert a[0] in b;
      var j :| 0 <= j < |b| && b[j] == a[0];
      TakeOut(a, 0);
      TakeOut(b, j);
      assert a[..0] + a[1..] == a[1..];
      Cancel(a[0], a[1..], b[..j] + b[j + 1..]);
      SameNames(a[1..], b[..j] + b[j + 1..]);
      NamesWithout(a, 0);
      NamesWithout(b, j);
      TakeOut(FileNames(a), 0);
      TakeOut(FileNames(b), j);
    }
  }

  lemma NamesWithout(list: seq<FileSummary>, j: nat)
    requires j < |list|
    ensures FileNames(list)[j] == list[j].info.fileName
    ensures FileNames(list[..j] + list[j + 1..]) == FileNames(list)[..j] + FileNames(list)[j + 1..]
  {
  }

  lemma {:induction false} SortedNames(a: seq<string>, b: seq<string>)
    requires SortedStrings(a) && SortedStrings(b) && multiset(a) == multiset(b)
    ensures a == b
    decreases |a|
  {
    hide LexLe, SortedStrings;
    SameSize(a, b);
    if a != [] {
      SameHead(a, b);
      TakeHead(a);
      TakeHead(b);
      SortedRest(a);
      SortedRest(b);
      Cancel(a[0], a[1..], b[1..]);
      SortedNames(a[1..], b[1..]);
      assert a == [a[0]] + a[1..] && b == [b[0]] + b[1..];
    }
  }

  lemma SameSize<T>(a: seq<T>, b: seq<T>)
    requires multiset(a) == multiset(b)
    ensures |a| == |b| && forall x :: x in a <==> x in b
  {
    assert |multiset(a)| == |a| && |multiset(b)| == |b|;
    assert forall x :: (x in a <==> x in multiset(a)) && (x in b <==> x in multiset(b));
  }

  lemma TakeHead<T>(s: seq<T>)
    requires s != []
    ensures multiset(s) == multiset{s[0]} + multiset(s[1..])
  {
    assert s == [s[0]] + s[1..];
  }

  lemma SameHead(a: seq<string>, b: seq<string>)
    requires SortedStrings(a) && SortedStrings(b) && a != [] && b != [] && forall x :: x in a <==> x in b
    ensures a[0] == b[0]
  {
    hide LexLe, SortedStrings;
    assert a[0] in b && b[0] in a;
    FirstIsLeast(a, b[0]);
    FirstIsLeast(b, a[0]);
    LexAntisymmetric(a[0], b[0]);
  }

  lemma FirstIsLeast(s: seq<string>, x: string)
    requires SortedStrings(s) && x in s
    ensures LexLe(s[0], x)
  {
    hide LexLe;
    LexReflexive(s[0]);
    var i :| 0 <= i < |s| && s[i] == x;
  }

  lemma SortedRest(s: seq<string>)
    requires SortedStrings(s) && s != []
    ensures SortedStrings(s[1..])
  {
    hide LexLe;
  }

  lemma {:induction false} LexReflexive(a: string)
    ensures LexLe(a, a)
  {
    if a != [] {
      LexReflexive(a[1..]);
    }
  }

  function Ids(index: seq<Summary>): (ids: seq<string>)
    ensures |ids| == |index|
  {
    seq(|index|, i requires 0 <= i < |index| => index[i].id)
  }

  lemma IdsOf(index: seq<Summary>, sessions: map<string, Session>)
    requires IsIndex(index, sessions)
    ensures StrictlySorted(Ids(index)) && forall id :: id in Ids(index) <==> id in sessions
  {
    hide LexLe, IsSummary;
    forall id | id in sessions ensures id in Ids(index) {
      var i :| 0 <= i < |index| && index[i].id == id;
      assert Ids(index)[i] == id;
    }
  }

  predicate StrictlySorted(s: seq<string>)
  {
    forall i, j :: 0 <= i < j < |s| ==> s[i] != s[j] && LexLe(s[i], s[j])
  }

  lemma {:induction false} SortedUnique(a: seq<string>, b: seq<string>)
    requires StrictlySorted(a) && StrictlySorted(b) && forall x :: x in a <==> x in b
    ensures a == b
  {
    assert b != [] ==> b[0] in b;
    if a != [] {
      assert a[0] in b;
      assert b[0] in a;
      LexAntisymmetricHeads(a, b);
      forall x ensures x in a[1..] <==> x in b[1..] {
        assert x in a <==> x == a[0] || x in a[1..];
        assert x in b <==> x == b[0] || x in b[1..];
      }
      SortedUnique(a[1..], b[1..]);
      assert a == [a[0]] + a[1..] && b == [b[0]] + b[1..];
    }
  }

  lemma LexAntisymmetricHeads(a: seq<string>, b: seq<string>)
    requires StrictlySorted(a) && StrictlySorted(b) && a != [] && b != [] && a[0] in b && b[0] in a
    ensures a[0] == b[0]
  {
    if a[0] != b[0] {
      var i :| 0 <= i < |b| && b[i] == a[0];
      var j :| 0 <= j < |a| && a[j] == b[0];
      LexAntisymmetric(a[0], b[0]);
    }
  }
}
