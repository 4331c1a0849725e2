/** What a refresh of the followed authors makes of the table, and how long a switched-off author stays so. */
module FollowingTheorems {
  import opened Results
  import opened Ordered
  import opened Text
  import opened FollowingModel

  // ----- Collecting pages --------------------------------------------------------------------

  ghost predicate Among(users: seq<User>, id: ArtistId) {
    exists i :: 0 <= i < |users| && users[i].id == id
  }

  /** The last entry of a list with the id. */
  ghost predicate LastOf(users: seq<User>, i: nat, id: ArtistId) {
    i < |users| && users[i].id == id && forall j :: i < j < |users| ==> users[j].id != id
  }

  lemma {:induction false} TakeAllAt(
    authors: map<ArtistId, Snapshot>, users: seq<User>, visibility: Visibility, id: ArtistId)
    requires ValidUsers(users)
    ensures var taken := TakeAll(authors, users, visibility);
      && (id in taken <==> id in authors || Among(users, id))
      && (!Among(users, id) && id in authors ==> taken[id] == authors[id])
      && (Among(users, id) ==> taken[id].id == id && taken[id].visibility == visibility)
      && (Among(users, id) ==>
            exists i: nat :: LastOf(users, i, id)
              && taken[id] == Snapshot(id, users[i].name, AvatarOf(users[i]), visibility))
    decreases |users|
  {
    if users != [] {
      var n := |users| - 1;
      TakeAllAt(authors, users[..n], visibility, id);
      assert forall i: nat :: LastOf(users[..n], i, id) && users[n].id != id ==> LastOf(users, i, id);
      assert users[n].id == id ==> LastOf(users, n, id);
      assert Among(users, id) <==> Among(users[..n], id) || users[n].id == id by {
        assert forall i :: 0 <= i < n ==> users[..n][i] == users[i];
        if Among(users[..n], id) {
          var i :| 0 <= i < n && users[..n][i].id == id;
          assert users[i].id == id;
        }
      }
    }
  }

  lemma {:induction false} TakeAllJoin(
    authors: map<ArtistId, Snapshot>, first: seq<User>, rest: seq<User>, visibility: Visibility)
    requires ValidUsers(first) && ValidUsers(rest)
    ensures ValidUsers(first + rest)
    ensures TakeAll(authors, first + rest, visibility) == TakeAll(TakeAll(authors, first, visibility), rest, visibility)
    decreases |rest|
  {
    if rest == [] {
      assert first + rest == first;
    } else {
      var n := |rest| - 1;
      TakeAllJoin(authors, first, rest[..n], visibility);
      assert (first + rest)[..|first| + n] == first + rest[..n];
    }
  }

  /** `response` is a part of a fixed list, from `offset` on; it may be empty, and may misstate the total. */
  ghost predicate PartOf(response: Response, users: seq<User>, offset: nat) {
    && response.Body? && 0 <= response.total <= U32Max
    && offset + |response.users| <= |users|
    && response.users == users[offset..offset + |response.users|]
  }

  ghost predicate Serves(server: Server, visibility: Visibility, users: seq<User>) {
    forall offset: nat, call: nat :: offset <= |users| ==> PartOf(server(visibility, offset, call), users, offset)
  }

  /** A list that its pages can address. */
  ghost predicate Addressable(users: seq<User>) {
    ValidUsers(users) && |users| + PageSize <= U32Max
  }

  /** The reading goes on after a page that holds something and ends before the total it states. */
  predicate GoesOn(response: Response, offset: nat) {
    response.Body? && response.users != [] && offset + |response.users| < response.total
  }

  function After(response: Response, offset: nat): nat {
    if response.Body? then offset + |response.users| else offset
  }

  /** Where the reading of a list of `size` comes to its end, and the number of the next call. */
  function EndOf(server: Server, visibility: Visibility, size: nat, offset: nat, call: nat): (nat, nat)
    requires offset <= size
    decreases size - offset
  {
    var response := server(visibility, offset, call);
    var next := After(response, offset);
    if GoesOn(response, offset) && next <= size then EndOf(server, visibility, size, next, call + 1)
    else (next, call + 1)
  }

  /**
   * No page that is asked for breaks the reading off: until one reaches the end of the list, each holds
   * something and states a total that it does not reach.
   */
  predicate Unbroken(server: Server, visibility: Visibility, size: nat, offset: nat, call: nat)
    requires offset <= size
    decreases size - offset
  {
    || offset == size
    || (var response := server(visibility, offset, call); var next := After(response, offset);
        offset < next && (next == size || (next < size && GoesOn(response, offset)
                                           && Unbroken(server, visibility, size, next, call + 1))))
  }

  lemma {:induction false} EndsWhenUnbroken(
    server: Server, visibility: Visibility, users: seq<User>, offset: nat, call: nat)
    requires Serves(server, visibility, users) && offset <= |users|
    ensures var end := EndOf(server, visibility, |users|, offset, call).0;
      offset <= end <= |users| && (end == |users| <==> Unbroken(server, visibility, |users|, offset, call))
    decreases |users| - offset
  {
    var response := server(visibility, offset, call);
    assert PartOf(response, users, offset);
    if GoesOn(response, offset) {
      EndsWhenUnbroken(server, visibility, users, After(response, offset), call + 1);
    }
  }

  /** One page of a fixed list is taken whole, and the next one is asked for unless it ends the reading. */
  lemma FetchPage(
    server: Server, visibility: Visibility, users: seq<User>, offset: nat, call: nat, authors: map<ArtistId, Snapshot>)
    requires PartOf(server(visibility, offset, call), users, offset) && Addressable(users) && offset <= |users|
    ensures var response := server(visibility, offset, call); var next := After(response, offset);
      && offset <= next <= |users| && ValidUsers(users[offset..next])
      && FetchFrom(server, visibility, offset, call, authors) ==
         var taken := TakeAll(authors, users[offset..next], visibility);
         if GoesOn(response, offset) then FetchFrom(server, visibility, next, call + 1, taken)
         else Ok((taken, call + 1))
  {
    var response := server(visibility, offset, call);
    assert MapPage(offset, PageSize, response)
      == Ok(Page(response.users, if GoesOn(response, offset) then Some(After(response, offset)) else None));
  }

  lemma {:induction false} FetchReads(
    server: Server, visibility: Visibility, users: seq<User>, offset: nat, call: nat, authors: map<ArtistId, Snapshot>)
    requires Serves(server, visibility, users) && Addressable(users) && offset <= |users|
    ensures var (end, calls) := EndOf(server, visibility, |users|, offset, call);
      && offset <= end <= |users| && ValidUsers(users[offset..end])
      && FetchFrom(server, visibility, offset, call, authors)
         == Ok((TakeAll(authors, users[offset..end], visibility), calls))
    decreases |users| - offset
  {
    var response := server(visibility, offset, call);
    assert PartOf(response, users, offset);
    FetchPage(server, visibility, users, offset, call, authors);
    if GoesOn(response, offset) {
      var next := After(response, offset);
      FetchReads(server, visibility, users, next, call + 1, TakeAll(authors, users[offset..next], visibility));
      TakenOn(authors, users, offset, next, EndOf(server, visibility, |users|, next, call + 1).0, visibility);
    }
  }

  lemma TakenOn(
    authors: map<ArtistId, Snapshot>, users: seq<User>, from: nat, middle: nat, to: nat, visibility: Visibility)
    requires ValidUsers(users) && from <= middle <= to <= |users|
    ensures ValidUsers(users[from..to])
    ensures TakeAll(authors, users[from..to], visibility)
      == TakeAll(TakeAll(authors, users[from..middle], visibility), users[middle..to], visibility)
  {
    assert users[from..to] == users[from..middle] + users[middle..to];
    TakeAllJoin(authors, users[from..middle], users[middle..to], visibility);
  }

  /** How much of the two lists a refresh reads. */
  function ReadOf(server: Server, shown: seq<User>, hidden: seq<User>): (nat, nat) {
    var first := EndOf(server, Public, |shown|, 0, 0);
    (first.0, EndOf(server, Private, |hidden|, 0, first.1).0)
  }

  /** No page of either list breaks the refresh off. */
  predicate Whole(server: Server, shown: seq<User>, hidden: seq<User>) {
    && Unbroken(server, Public, |shown|, 0, 0)
    && Unbroken(server, Private, |hidden|, 0, EndOf(server, Public, |shown|, 0, 0).1)
  }

  /** `authors` are those of both lists, as private whoever is in the private list. */
  ghost predicate Union(authors: map<ArtistId, Snapshot>, shown: seq<User>, hidden: seq<User>) {
    && (forall id :: id in authors <==> Among(shown, id) || Among(hidden, id))
    && (forall id :: id in authors ==>
          authors[id].id == id && (authors[id].visibility == Private <==> Among(hidden, id)))
  }

  /** No author stands only in what was not read, nor as private only there. */
  ghost predicate NoneMissed(shown: seq<User>, hidden: seq<User>, a: nat, b: nat)
    requires a <= |shown| && b <= |hidden|
  {
    && (forall id :: Among(shown, id) ==> Among(shown[..a], id) || Among(hidden[..b], id))
    && (forall id :: Among(hidden, id) ==> Among(hidden[..b], id))
  }

  lemma FetchReadsBoth(server: Server, shown: seq<User>, hidden: seq<User>)
    requires Serves(server, Public, shown) && Serves(server, Private, hidden)
    requires Addressable(shown) && Addressable(hidden)
    ensures var (a, b) := ReadOf(server, shown, hidden);
      && a <= |shown| && b <= |hidden| && ValidUsers(shown[..a]) && ValidUsers(hidden[..b])
      && Fetch(server) == Ok(TakeAll(TakeAll(map[], shown[..a], Public), hidden[..b], Private))
      && (a == |shown| && b == |hidden| <==> Whole(server, shown, hidden))
  {
    var (a, b) := ReadOf(server, shown, hidden);
    FetchReads(server, Public, shown, 0, 0, map[]);
    var first := FetchFrom(server, Public, 0, 0, map[]).value;
    FetchReads(server, Private, hidden, 0, first.1, first.0);
    EndsWhenUnbroken(server, Public, shown, 0, 0);
    EndsWhenUnbroken(server, Private, hidden, 0, first.1);
    assert shown[0..a] == shown[..a] && hidden[0..b] == hidden[..b];
  }

  lemma TakenIsUnion(shown: seq<User>, hidden: seq<User>)
    requires ValidUsers(shown) && ValidUsers(hidden)
    ensures Union(TakeAll(TakeAll(map[], shown, Public), hidden, Private), shown, hidden)
  {
    var first := TakeAll(map[], shown, Public);
    forall id
      ensures id in first <==> Among(shown, id)
      ensures id in TakeAll(first, hidden, Private) <==> Among(shown, id) || Among(hidden, id)
      ensures id in TakeAll(first, hidden, Private) ==>
        && TakeAll(first, hidden, Private)[id].id == id
        && (TakeAll(first, hidden, Private)[id].visibility == Private <==> Among(hidden, id))
    {
      TakeAllAt(map[], shown, Public, id);
      TakeAllAt(first, hidden, Private, id);
    }
  }

  lemma AmongPrefix(users: seq<User>, n: nat, id: ArtistId)
    requires n <= |users|
    ensures Among(users[..n], id) ==> Among(users, id)
  {
    if Among(users[..n], id) {
      var i :| 0 <= i < n && users[..n][i].id == id;
      assert users[i].id == id;
    }
  }

  lemma UnionOfMore(authors: map<ArtistId, Snapshot>, shown: seq<User>, hidden: seq<User>, a: nat, b: nat)
    requires a <= |shown| && b <= |hidden| && Union(authors, shown[..a], hidden[..b])
    ensures Union(authors, shown, hidden) <==> NoneMissed(shown, hidden, a, b)
  {
    forall id
      ensures Among(shown[..a], id) ==> Among(shown, id)
      ensures Among(hidden[..b], id) ==> Among(hidden, id)
    {
      AmongPrefix(shown, a, id);
      AmongPrefix(hidden, b, id);
    }
  }

  /**
   * Against fixed lists, however they are cut into pages, the refresh collects exactly the authors of
   * what it read of both, each once, and as private whoever it read in the private list. Those are the
   * authors of both lists exactly when none stands only behind a page that broke the reading off, as is
   * so when no page does.
   */
  lemma FetchIsTheUnion(server: Server, shown: seq<User>, hidden: seq<User>)
    requires Serves(server, Public, shown) && Serves(server, Private, hidden)
    requires Addressable(shown) && Addressable(hidden)
    ensures var (a, b) := ReadOf(server, shown, hidden);
      && a <= |shown| && b <= |hidden| && Fetch(server).Ok?
      && Union(Fetch(server).value, shown[..a], hidden[..b])
      && (Union(Fetch(server).value, shown, hidden) <==> NoneMissed(shown, hidden, a, b))
      && (Whole(server, shown, hidden) ==> NoneMissed(shown, hidden, a, b))
  {
    var (a, b) := ReadOf(server, shown, hidden);
    FetchReadsBoth(server, shown, hidden);
    TakenIsUnion(shown[..a], hidden[..b]);
    UnionOfMore(Fetch(server).value, shown, hidden, a, b);
    assert a == |shown| && b == |hidden| ==> shown[..a] == shown && hidden[..b] == hidden;
  }

  /** When nobody is listed twice, the pages alone decide: all are collected exactly when none breaks off. */
  lemma FetchIsWhole(server: Server, shown: seq<User>, hidden: seq<User>)
    requires Serves(server, Public, shown) && Serves(server, Private, hidden)
    requires Addressable(shown) && Addressable(hidden) && ListedOnce(shown + hidden)
    ensures Fetch(server).Ok? && (Union(Fetch(server).value, shown, hidden) <==> Whole(server, shown, hidden))
  {
    var (a, b) := ReadOf(server, shown, hidden);
    FetchReadsBoth(server, shown, hidden);
    FetchIsTheUnion(server, shown, hidden);
    if a < |shown| {
      UnreadIsMissed(shown, hidden, a, b, a);
    } else if b < |hidden| {
      UnreadIsMissed(shown, hidden, a, b, |shown| + b);
    }
  }

  ghost predicate ListedOnce(users: seq<User>) {
    forall i, j :: 0 <= i < j < |users| ==> users[i].id != users[j].id
  }

  /** The author at place `k` of the two lists together is not in what was read of them. */
  lemma UnreadIsMissed(shown: seq<User>, hidden: seq<User>, a: nat, b: nat, k: nat)
    requires a <= |shown| && b <= |hidden| && ListedOnce(shown + hidden) && k < |shown| + |hidden|
    requires if k < |shown| then a <= k else b <= k - |shown|
    requires ValidUsers(shown) && ValidUsers(hidden)
    ensures !NoneMissed(shown, hidden, a, b)
  {
    var all := shown + hidden;
    assert all[k] == if k < |shown| then shown[k] else hidden[k - |shown|];
    var id: nat := all[k].id;
    assert forall i :: 0 <= i < a ==> all[i] == shown[..a][i];
    assert forall i :: 0 <= i < b ==> all[|shown| + i] == hidden[..b][i];
    assert if k < |shown| then Among(shown, id) else Among(hidden, id);
    assert !Among(shown[..a], id) && !Among(hidden[..b], id);
  }

  // ----- One synchronisation -----------------------------------------------------------------

  lemma {:induction false} UpsertAllAt(authors: map<ArtistId, Author>, snapshots: seq<Snapshot>, at: int, id: ArtistId)
    requires DistinctIds(snapshots)
    ensures var later := UpsertAll(authors, snapshots, at);
      && (id in later <==> id in authors || id in IdsOf(snapshots))
      && (id !in IdsOf(snapshots) && id in authors ==> later[id] == authors[id])
      && (id in later ==> later[id].lastCollected == (if id in authors then authors[id].lastCollected else None))
      && (forall i :: 0 <= i < |snapshots| && snapshots[i].id == id ==>
            && later[id].name == Trim(snapshots[i].name) && later[id].avatar == snapshots[i].avatar
            && later[id].visibility == snapshots[i].visibility && later[id].refreshedAt == at)
    decreases |snapshots|
  {
    if snapshots != [] {
      var n := |snapshots| - 1;
      UpsertAllAt(authors, snapshots[..n], at, id);
      IdsSnoc(snapshots);
      assert forall i :: 0 <= i < n ==> snapshots[..n][i] == snapshots[i];
    }
  }

  lemma IdsSnoc(snapshots: seq<Snapshot>)
    requires snapshots != []
    ensures IdsOf(snapshots) == IdsOf(snapshots[..|snapshots| - 1]) + {snapshots[|snapshots| - 1].id}
  {
  }

  /** A synchronisation makes the table the snapshot, and keeps when each author was last collected. */
  lemma SyncMirrors(f: Following, snapshots: seq<Snapshot>, at: int)
    requires ValidSnapshots(snapshots)
    ensures Synced(f, snapshots, at).Ok?
    ensures var later := Synced(f, snapshots, at).value;
      && later.authors.Keys == IdsOf(snapshots)
      && (forall i :: 0 <= i < |snapshots| ==>
            var s := snapshots[i];
            && s.id in later.authors
            && later.authors[s.id] == Author(Trim(s.name), s.avatar, s.visibility, at,
                 if s.id in f.authors then f.authors[s.id].lastCollected else None))
  {
    var upserted := UpsertAll(f.authors, snapshots, at);
    forall id
      ensures id in IdsOf(snapshots) ==> id in upserted
    {
      UpsertAllAt(f.authors, snapshots, at, id);
    }
    forall i | 0 <= i < |snapshots|
      ensures var s := snapshots[i];
        s.id in IdsOf(snapshots) && s.id in upserted
        && upserted[s.id] == Author(Trim(s.name), s.avatar, s.visibility, at,
          if s.id in f.authors then f.authors[s.id].lastCollected else None)
    {
      UpsertAllAt(f.authors, snapshots, at, snapshots[i].id);
    }
  }

  // ----- Switched-off authors ----------------------------------------------------------------

  /**
   * After a synchronisation an author is switched off exactly when it was before and is still
   * followed: an author that was unfollowed in between comes back switched on.
   */
  lemma SyncKeepsSwitch(f: Following, snapshots: seq<Snapshot>, at: int, id: ArtistId)
    requires ValidSnapshots(snapshots)
    ensures !Enabled(Synced(f, snapshots, at).value, id) <==> !Enabled(f, id) && id in IdsOf(snapshots)
  {
  }

  /** Unfollowing and following again, with a refresh after each, switches an author on. */
  lemma RefollowedIsEnabled(
    f: Following, without: seq<Snapshot>, again: seq<Snapshot>, at: int, later: int, id: ArtistId)
    requires ValidSnapshots(without) && ValidSnapshots(again) && id !in IdsOf(without) && id in IdsOf(again)
    ensures var end := Exec(f, [Sync(without, at), Sync(again, later)]); id in end.authors && Enabled(end, id)
  {
    var actions := [Sync(without, at), Sync(again, later)];
    var mid := Apply(f, actions[0]);
    var end := Apply(mid, actions[1]);
    SyncKeepsSwitch(f, without, at, id);
    SyncMirrors(mid, again, later);
    assert actions[1..] == [actions[1]] && actions[1..][1..] == [];
    assert Exec(mid, actions[1..]) == Exec(end, []);
  }

  /** An action that can change whether `id` is switched off: a switch, or its row's removal. */
  ghost predicate Concerns(action: Action, id: ArtistId) {
    match action
    case Sync(snapshots, _) => ValidSnapshots(snapshots) && id !in IdsOf(snapshots)
    case AddOne(_, _) => false
    case RemoveOne(other) => other == id
    case SwitchMany(ids, _) => id in ids
    case Collect(_) => false
  }

  ghost predicate Referenced(f: Following) {
    f.excluded <= f.authors.Keys
  }

  lemma StepReferenced(f: Following, action: Action)
    requires Referenced(f)
    ensures Referenced(Apply(f, action))
  {
    if action.Sync? && ValidSnapshots(action.snapshots) {
      forall id | id in f.excluded
        ensures id in UpsertAll(f.authors, action.snapshots, action.at)
      {
        UpsertAllAt(f.authors, action.snapshots, action.at, id);
      }
    }
  }

  lemma StepKeepsSwitch(f: Following, action: Action, id: ArtistId)
    requires Referenced(f) && !Concerns(action, id)
    ensures Enabled(Apply(f, action), id) <==> Enabled(f, id)
  {
  }

  /** An author stays switched on or off through every run that neither switches it nor lets it go. */
  lemma {:induction false} SwitchIsKept(f: Following, actions: seq<Action>, id: ArtistId)
    requires Referenced(f) && forall i :: 0 <= i < |actions| ==> !Concerns(actions[i], id)
    ensures Enabled(Exec(f, actions), id) <==> Enabled(f, id)
    ensures Referenced(Exec(f, actions))
    decreases |actions|
  {
    if actions != [] {
      StepReferenced(f, actions[0]);
      StepKeepsSwitch(f, actions[0], id);
      SwitchIsKept(Apply(f, actions[0]), actions[1..], id);
    }
  }

  /** A switch takes effect on all its authors and on nobody else, or on nobody. */
  lemma SwitchesExactly(f: Following, ids: seq<int>, enabled: bool, id: ArtistId)
    ensures var switched := Switched(f, ids, enabled);
      && (switched.Ok? <==> ValidIds(ids) && forall i :: 0 <= i < |ids| ==> ids[i] in f.authors)
      && (switched.Ok? ==> switched.value.authors == f.authors)
      && (switched.Ok? ==> (Enabled(switched.value, id) <==> if id in ids then enabled else Enabled(f, id)))
  {
  }

  // ----- A whole refresh ---------------------------------------------------------------------

  /** The collected authors in the order of their ids. */
  function Values(authors: map<ArtistId, Snapshot>): seq<Snapshot> {
    var ids := Sorted(authors.Keys);
    seq(|ids|, i requires 0 <= i < |ids| => assert ids[i] in ids; authors[ids[i]])
  }

  lemma ValuesAt(authors: map<ArtistId, Snapshot>, i: nat)
    requires i < |Values(authors)| && forall id :: id in authors ==> authors[id].id == id
    ensures var id := Sorted(authors.Keys)[i];
      id in authors && Values(authors)[i] == authors[id] && Values(authors)[i].id == id
  {
  }

  lemma ValuesDistinct(authors: map<ArtistId, Snapshot>)
    requires forall id :: id in authors ==> authors[id].id == id
    ensures DistinctIds(Values(authors))
  {
  }

  lemma ValuesIds(authors: map<ArtistId, Snapshot>)
    requires forall id :: id in authors ==> authors[id].id == id
    ensures IdsOf(Values(authors)) == authors.Keys
    ensures forall i :: 0 <= i < |Values(authors)| ==>
      Values(authors)[i].id in authors && authors[Values(authors)[i].id] == Values(authors)[i]
  {
    var values := Values(authors);
    forall i | 0 <= i < |values|
      ensures values[i].id in authors && authors[values[i].id] == values[i]
    {
      ValuesAt(authors, i);
    }
    forall id | id in authors
      ensures id in IdsOf(values)
    {
      var i := IndexOf(Sorted(authors.Keys), id);
      ValuesAt(authors, i);
    }
  }

  lemma IndexOf(ids: seq<nat>, id: nat) returns (i: nat)
    requires id in ids
    ensures i < |ids| && ids[i] == id
  {
    i :| 0 <= i < |ids| && ids[i] == id;
  }

  function Refreshed(f: Following, server: Server, at: int): Result<Following, FollowError> {
    match Fetch(server)
    case Err(error) => Err(error)
    case Ok(authors) => Synced(f, Values(authors), at)
  }

  predicate Named(users: seq<User>) {
    forall i :: 0 <= i < |users| ==> Trim(users[i].name) != ""
  }

  lemma {:induction false} TakenNames(authors: map<ArtistId, Snapshot>, users: seq<User>, visibility: Visibility)
    requires ValidUsers(users) && Named(users)
    requires forall id :: id in authors ==> id > 0 && Trim(authors[id].name) != ""
    ensures forall id :: id in TakeAll(authors, users, visibility) ==>
      id > 0 && Trim(TakeAll(authors, users, visibility)[id].name) != ""
    decreases |users|
  {
    if users != [] {
      TakenNames(authors, users[..|users| - 1], visibility);
    }
  }

  lemma ValuesValid(authors: map<ArtistId, Snapshot>)
    requires forall id :: id in authors ==> authors[id].id == id && id > 0 && Trim(authors[id].name) != ""
    ensures ValidSnapshots(Values(authors))
  {
    ValuesIds(authors);
    ValuesDistinct(authors);
  }

  lemma SyncedVisibility(f: Following, snapshots: seq<Snapshot>, at: int, i: nat)
    requires ValidSnapshots(snapshots) && i < |snapshots|
    ensures var later := Synced(f, snapshots, at).value;
      snapshots[i].id in later.authors && later.authors[snapshots[i].id].visibility == snapshots[i].visibility
  {
    SyncMirrors(f, snapshots, at);
  }

  lemma ValuesSync(f: Following, authors: map<ArtistId, Snapshot>, at: int)
    requires forall id :: id in authors ==> authors[id].id == id && id > 0 && Trim(authors[id].name) != ""
    ensures Synced(f, Values(authors), at).Ok?
    ensures var later := Synced(f, Values(authors), at).value;
      && later.authors.Keys == authors.Keys
      && (forall id :: id in authors ==> later.authors[id].visibility == authors[id].visibility)
      && (forall id :: id in authors ==> (Enabled(later, id) <==> Enabled(f, id)))
  {
    var snapshots := Values(authors);
    ValuesIds(authors);
    ValuesValid(authors);
    SyncMirrors(f, snapshots, at);
    forall id | id in authors
      ensures Synced(f, snapshots, at).value.authors[id].visibility == authors[id].visibility
    {
      var i := IndexOf(Sorted(authors.Keys), id);
      ValuesAt(authors, i);
      SyncedVisibility(f, snapshots, at, i);
    }
  }

  /** The table has the authors of both lists, as private whoever is in the private list. */
  ghost predicate Mirrors(f: Following, shown: seq<User>, hidden: seq<User>) {
    && (forall id :: id in f.authors <==> Among(shown, id) || Among(hidden, id))
    && (forall id :: id in f.authors ==> (f.authors[id].visibility == Private <==> Among(hidden, id)))
  }

  /**
   * A refresh against fixed lists of named authors leaves in the table exactly the authors of what it
   * read of both, each still switched off only if it was; and the authors of the whole lists exactly
   * when none stands only behind a page that broke the reading off, so that nobody is dropped who is
   * still followed.
   */
  lemma RefreshMirrors(f: Following, server: Server, at: int, shown: seq<User>, hidden: seq<User>)
    requires Serves(server, Public, shown) && Serves(server, Private, hidden)
    requires Addressable(shown) && Addressable(hidden) && Named(shown) && Named(hidden)
    ensures var refreshed := Refreshed(f, server, at); var (a, b) := ReadOf(server, shown, hidden);
      && refreshed.Ok? && a <= |shown| && b <= |hidden|
      && Mirrors(refreshed.value, shown[..a], hidden[..b])
      && (Mirrors(refreshed.value, shown, hidden) <==> NoneMissed(shown, hidden, a, b))
      && (forall id :: id in refreshed.value.authors ==> (Enabled(refreshed.value, id) <==> Enabled(f, id)))
  {
    var (a, b) := ReadOf(server, shown, hidden);
    FetchIsTheUnion(server, shown, hidden);
    FetchNames(server, shown, hidden);
    ValuesSync(f, Fetch(server).value, at);
    MirrorsUnion(Refreshed(f, server, at).value, Fetch(server).value, shown[..a], hidden[..b]);
    MirrorsUnion(Refreshed(f, server, at).value, Fetch(server).value, shown, hidden);
  }

  /** Two empty pages drop every author, however long the lists are. */
  lemma EmptyPagesDropAll(f: Following, server: Server, at: int, shown: seq<User>, hidden: seq<User>)
    requires Serves(server, Public, shown) && Serves(server, Private, hidden)
    requires Addressable(shown) && Addressable(hidden) && Named(shown) && Named(hidden)
    requires After(server(Public, 0, 0), 0) == 0 && After(server(Private, 0, 1), 0) == 0
    ensures Refreshed(f, server, at).Ok? && Refreshed(f, server, at).value.authors == map[]
  {
    RefreshMirrors(f, server, at, shown, hidden);
    assert ReadOf(server, shown, hidden) == (0, 0);
    assert forall id :: !Among(shown[..0], id) && !Among(hidden[..0], id);
  }

  lemma MirrorsUnion(f: Following, authors: map<ArtistId, Snapshot>, shown: seq<User>, hidden: seq<User>)
    requires forall id :: id in authors ==> authors[id].id == id
    requires f.authors.Keys == authors.Keys
    requires forall id :: id in authors ==> f.authors[id].visibility == authors[id].visibility
    ensures Mirrors(f, shown, hidden) <==> Union(authors, shown, hidden)
  {
  }

  lemma FetchNames(server: Server, shown: seq<User>, hidden: seq<User>)
    requires Serves(server, Public, shown) && Serves(server, Private, hidden)
    requires Addressable(shown) && Addressable(hidden) && Named(shown) && Named(hidden)
    ensures Fetch(server).Ok?
    ensures forall id :: id in Fetch(server).value ==>
      id > 0 && Trim(Fetch(server).value[id].name) != ""
  {
    var (a, b) := ReadOf(server, shown, hidden);
    FetchReadsBoth(server, shown, hidden);
    TakenNames(map[], shown[..a], Public);
    TakenNames(TakeAll(map[], shown[..a], Public), hidden[..b], Private);
  }
}
