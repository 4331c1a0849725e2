/** The table of followed authors, one transaction a method, and the refresh that reads every page. */
module FollowingTables {
  import opened Results
  import opened Text
  import opened FollowingModel
  import opened FollowingTheorems

  class FollowingRepository {
    var authors: map<ArtistId, Author>
    var excluded: set<ArtistId>

    function Contents(): Following
      reads this
    {
      Following(authors, excluded)
    }

    constructor ()
      ensures Contents() == Following(map[], {})
    {
      authors, excluded := map[], {};
    }

    /** Writes a row for each author of the snapshot, then deletes the rows of all others. */
    method SyncAuthors(leaseHeld: bool, snapshots: seq<Snapshot>, at: int) returns (result: Result<(), FollowError>)
      modifies this
      ensures result.Ok? <==> leaseHeld && ValidSnapshots(snapshots)
      ensures result.Err? ==> Contents() == old(Contents())
      ensures result.Ok? ==> Synced(old(Contents()), snapshots, at) == Ok(Contents())
    {
      var valid := Validate(snapshots);
      if !valid {
        return Err(InvalidValue);
      }
      if !leaseHeld {
        return Err(LeaseLost);
      }
      var i := 0;
      while i < |snapshots|
        invariant 0 <= i <= |snapshots|
        invariant authors == UpsertAll(old(authors), snapshots[..i], at) && excluded == old(excluded)
      {
        var s := snapshots[i];
        assert snapshots[..i + 1][..i] == snapshots[..i];
        var collected := if s.id in authors then authors[s.id].lastCollected else None;
        authors := authors[s.id := Author(Trim(s.name), s.avatar, s.visibility, at, collected)];
        i := i + 1;
      }
      assert snapshots[..i] == snapshots;
      var ids := IdsOf(snapshots);
      authors := map id | id in authors && id in ids :: authors[id];
      excluded := excluded * ids;
      return Ok(());
    }

    /** Switches every author of the list on or off, if all of them are in the table. */
    method SetEnabledMany(ids: seq<int>, enabled: bool) returns (result: Result<nat, FollowError>)
      modifies this`excluded
      ensures match Switched(old(Contents()), ids, enabled)
        case Err(error) => result == Err(error) && Contents() == old(Contents())
        case Ok(following) => result == Ok(|ids|) && Contents() == following
    {
      var valid := ValidateIds(ids);
      if !valid {
        return Err(InvalidValue);
      }
      var chosen := set id | id in authors && id in ids;
      if exists i :: 0 <= i < |ids| && ids[i] !in authors {
        return Err(NotFound);
      }
      excluded := if enabled then excluded - chosen else excluded + chosen;
      return Ok(|ids|);
    }

    method RemoveAuthor(id: int) returns (result: Result<(), FollowError>)
      modifies this
      ensures result.Ok? <==> id > 0
      ensures Contents() == Settled(old(Contents()), Removed(old(Contents()), id))
    {
      if id <= 0 {
        return Err(InvalidValue);
      }
      var kept := authors.Keys - {id};
      authors := map other | other in authors && other in kept :: authors[other];
      excluded := excluded * kept;
      return Ok(());
    }

    method MarkEnabledCollected(leaseHeld: bool, at: int) returns (result: Result<nat, FollowError>)
      modifies this`authors
      ensures result.Ok? <==> leaseHeld
      ensures Contents() == if leaseHeld then Collected(old(Contents()), at) else old(Contents())
    {
      if !leaseHeld {
        return Err(LeaseLost);
      }
      var affected := set id | id in authors && id !in excluded;
      authors := map id | id in authors ::
        if id in affected then authors[id].(lastCollected := Some(at)) else authors[id];
      return Ok(|affected|);
    }
  }

  /** Positive ids, names that are not blank, and no id twice. */
  method Validate(snapshots: seq<Snapshot>) returns (valid: bool)
    ensures valid <==> ValidSnapshots(snapshots)
  {
    var seen: set<ArtistId> := {};
    var i := 0;
    while i < |snapshots|
      invariant 0 <= i <= |snapshots|
      invariant forall id :: id in seen <==> exists j :: 0 <= j < i && snapshots[j].id == id
      invariant forall j, k :: 0 <= j < k < i ==> snapshots[j].id != snapshots[k].id
      invariant forall j :: 0 <= j < i ==> snapshots[j].id > 0 && Trim(snapshots[j].name) != ""
    {
      if snapshots[i].id <= 0 || Trim(snapshots[i].name) == "" {
        return false;
      }
      if snapshots[i].id in seen {
        return false;
      }
      seen := seen + {snapshots[i].id};
      i := i + 1;
    }
    return true;
  }

  method ValidateIds(ids: seq<int>) returns (valid: bool)
    ensures valid <==> ValidIds(ids)
  {
    if ids == [] {
      return false;
    }
    var seen: set<int> := {};
    var i := 0;
    while i < |ids|
      invariant 0 <= i <= |ids|
      invariant forall id :: id in seen <==> exists j :: 0 <= j < i && ids[j] == id
      invariant forall j, k :: 0 <= j < k < i ==> ids[j] != ids[k]
      invariant forall j :: 0 <= j < i ==> ids[j] > 0
    {
      if ids[i] <= 0 || ids[i] in seen {
        return false;
      }
      seen := seen + {ids[i]};
      i := i + 1;
    }
    return true;
  }

  /** Adds a page's authors to those collected, a later one over an earlier one of its id. */
  method Gather(authors: map<ArtistId, Snapshot>, users: seq<User>, visibility: Visibility)
    returns (all: map<ArtistId, Snapshot>)
    requires ValidUsers(users)
    ensures all == TakeAll(authors, users, visibility)
  {
    all := authors;
    var i := 0;
    while i < |users|
      invariant 0 <= i <= |users|
      invariant all == TakeAll(authors, users[..i], visibility)
    {
      assert users[..i + 1][..i] == users[..i];
      var user := users[i];
      all := all[user.id := Snapshot(user.id, user.name, AvatarOf(user), visibility)];
      i := i + 1;
    }
    assert users[..i] == users;
  }

  /** Asks for page after page; it ends whatever the server answers, for the offset only grows. */
  method FetchPages(server: Server, visibility: Visibility, call: nat, collected: map<ArtistId, Snapshot>)
    returns (result: Result<(map<ArtistId, Snapshot>, nat), FollowError>)
    ensures result == FetchFrom(server, visibility, 0, call, collected)
  {
    var offset, calls, authors := 0, call, collected;
    while true
      invariant offset <= U32Max
      invariant FetchFrom(server, visibility, 0, call, collected)
        == FetchFrom(server, visibility, offset, calls, authors)
      decreases U32Max - offset
    {
      var page := MapPage(offset, PageSize, server(visibility, offset, calls));
      if page.Err? {
        return Err(page.error);
      }
      authors := Gather(authors, page.value.users, visibility);
      calls := calls + 1;
      if page.value.next.None? {
        return Ok((authors, calls));
      }
      offset := page.value.next.value;
    }
  }

  /** Reads all public and private pages and mirrors them in the table; any failure leaves it alone. */
  method RefreshWithLease(repository: FollowingRepository, server: Server, sameAccount: bool, leaseHeld: bool, at: int)
    returns (result: Result<(), FollowError>)
    modifies repository
    ensures result.Err? ==> repository.Contents() == old(repository.Contents())
    ensures result.Ok? <==> sameAccount && leaseHeld && Refreshed(old(repository.Contents()), server, at).Ok?
    ensures result.Ok? ==> Refreshed(old(repository.Contents()), server, at) == Ok(repository.Contents())
  {
    if !sameAccount {
      return Err(WrongAccount);
    }
    var shown := FetchPages(server, Public, 0, map[]);
    if shown.Err? {
      return Err(shown.error);
    }
    var all := FetchPages(server, Private, shown.value.1, shown.value.0);
    if all.Err? {
      return Err(all.error);
    }
    result := repository.SyncAuthors(leaseHeld, Values(all.value.0), at);
  }
}
