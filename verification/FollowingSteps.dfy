/** What a page, and each change of the table of followed authors, amounts to. */
module FollowingSteps {
  import opened Results
  import opened Text
  import opened FollowingModel
  import opened FollowingTheorems

  /**
   * A page is taken when its request is in range, its users have positive ids and its numbers fit 32 bits.
   * It names the next offset exactly when it holds somebody and ends before the total it states.
   */
  lemma PageIs(offset: nat, limit: nat, response: Response)
    ensures var page := MapPage(offset, limit, response);
      var inRange := 1 <= limit <= 100 && offset + limit < 0x1_0000_0000;
      && (page.Ok? <==>
            && inRange && response.Body? && 0 <= response.total < 0x1_0000_0000
            && (forall i :: 0 <= i < |response.users| ==> response.users[i].id > 0)
            && offset + |response.users| < 0x1_0000_0000)
      && (page.Err? ==> page.error == if inRange && response.Failed? then RemoteFailure else InvalidResponse)
      && (page.Ok? ==>
            var end := offset + |response.users|;
            && page.value.users == response.users
            && page.value.next == if end > offset && end < response.total then Some(end) else None)
  {
  }

  /** Where a collected author's name and picture come from; an empty picture address is none. */
  ghost predicate Describes(user: User, author: Snapshot) {
    && author.id == user.id && author.name == user.name
    && author.avatar == if user.avatar == Some("") then None else user.avatar
  }

  /**
   * Every author that is collected is described by the last entry for it among those read of the private
   * list, or of the public one when it is not in there.
   */
  lemma CollectedAreDescribed(server: Server, shown: seq<User>, hidden: seq<User>, id: ArtistId)
    requires Serves(server, Public, shown) && Serves(server, Private, hidden)
    requires Addressable(shown) && Addressable(hidden)
    ensures Fetch(server).Ok?
    ensures var (a, b) := ReadOf(server, shown, hidden);
      id in Fetch(server).value ==>
        && a <= |shown| && b <= |hidden|
        && var list := if Among(hidden[..b], id) then hidden[..b] else shown[..a];
           exists i: nat :: LastOf(list, i, id) && Describes(list[i], Fetch(server).value[id])
  {
    var (a, b) := ReadOf(server, shown, hidden);
    FetchReadsBoth(server, shown, hidden);
    TakeAllAt(map[], shown[..a], Public, id);
    TakeAllAt(TakeAll(map[], shown[..a], Public), hidden[..b], Private, id);
  }

  // ----- The table ---------------------------------------------------------------------------

  /** Nobody is switched when the ids are unusable, or when one of them is not followed. */
  lemma SwitchFailsWhen(f: Following, ids: seq<int>, enabled: bool)
    ensures var outcome := Switched(f, ids, enabled);
      var usable := ids != [] && (forall i :: 0 <= i < |ids| ==> ids[i] >= 1)
        && (forall i, j :: 0 <= i < j < |ids| ==> ids[i] != ids[j]);
      && (outcome == Err(InvalidValue) <==> !usable)
      && (outcome == Err(NotFound) <==> usable && exists i :: 0 <= i < |ids| && ids[i] !in f.authors)
      && (outcome.Err? ==> outcome.error == InvalidValue || outcome.error == NotFound)
  {
  }

  /** Removing an author takes its row and its exclusion, and nothing else. */
  lemma RemoveIs(f: Following, id: int)
    ensures var outcome := Removed(f, id);
      && (outcome == Err(InvalidValue) <==> id <= 0)
      && (id > 0 ==> outcome.Ok? && outcome.value == Following(f.authors - {id}, f.excluded * (f.authors.Keys - {id})))
  {
    if id > 0 {
      assert Removed(f, id).value.authors == f.authors - {id};
    }
  }

  /** A collection is noted for every author that is switched on, and nothing else changes. */
  lemma CollectIs(f: Following, at: int)
    ensures var later := Collected(f, at);
      && later.excluded == f.excluded && later.authors.Keys == f.authors.Keys
      && forall id :: id in f.authors ==>
           later.authors[id] == if id in f.excluded then f.authors[id] else f.authors[id].(lastCollected := Some(at))
  {
  }

  /** A snapshot is refused when an id is not positive, a name is blank, or an id is there twice. */
  lemma SyncNeeds(f: Following, snapshots: seq<Snapshot>, at: int)
    ensures var outcome := Synced(f, snapshots, at);
      && (outcome.Ok? <==>
            && (forall i :: 0 <= i < |snapshots| ==> snapshots[i].id >= 1 && !Blank(snapshots[i].name))
            && (forall i, j :: 0 <= i < j < |snapshots| ==> snapshots[i].id != snapshots[j].id))
      && (outcome.Err? ==> outcome.error == InvalidValue)
      && (outcome.Ok? ==> outcome.value.excluded == f.excluded * IdsOf(snapshots))
  {
    forall i | 0 <= i < |snapshots|
      ensures Trim(snapshots[i].name) == "" <==> Blank(snapshots[i].name)
    {
      BlankIsEmpty(snapshots[i].name);
    }
  }

  /** Adding one author makes its row what was added, and keeps when it was last collected. */
  lemma AddIs(f: Following, snapshot: Snapshot, at: int)
    ensures var later := Apply(f, AddOne(snapshot, at));
      if snapshot.id >= 1 && Trim(snapshot.name) != "" then
        later == f.(authors := f.authors[snapshot.id :=
          Author(Trim(snapshot.name), snapshot.avatar, snapshot.visibility, at,
                 if snapshot.id in f.authors then f.authors[snapshot.id].lastCollected else None)])
      else later == f
  {
    assert [snapshot][0] == snapshot;
  }
}
