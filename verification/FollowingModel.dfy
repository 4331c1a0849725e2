/**
 * Followed authors: the pages Pixiv answers with, the table that mirrors them, and the authors
 * whose collection was switched off. A switched-off author is a row of a second table that refers
 * to the first and is deleted with its row there.
 */
module FollowingModel {
  import opened Results
  import opened Text

  type ArtistId = nat

  const U32Max: nat := 0xFFFF_FFFF
  const PageSize: nat := 100

  datatype Visibility = Public | Private

  datatype FollowError = RemoteFailure | InvalidResponse | InvalidValue | NotFound | LeaseLost | WrongAccount

  // ----- Pages -------------------------------------------------------------------------------

  datatype User = User(id: int, name: string, avatar: Option<string>)

  datatype Response = Failed | Body(users: seq<User>, total: int)

  datatype Page = Page(users: seq<User>, next: Option<nat>)

  /** How Pixiv answers a request for a visibility and an offset; the call number lets it change its mind. */
  type Server = (Visibility, nat, nat) -> Response

  predicate ValidUsers(users: seq<User>) {
    forall i :: 0 <= i < |users| ==> users[i].id > 0
  }

  function MapPage(offset: nat, limit: nat, response: Response): Result<Page, FollowError> {
    if limit == 0 || limit > PageSize || offset + limit > U32Max then Err(InvalidResponse)
    else if response.Failed? then Err(RemoteFailure)
    else if !(0 <= response.total <= U32Max) || !ValidUsers(response.users) then Err(InvalidResponse)
    else if offset + |response.users| > U32Max then Err(InvalidResponse)
    else
      var next := offset + |response.users|;
      Ok(Page(response.users, if response.users != [] && next < response.total then Some(next) else None))
  }

  datatype Snapshot = Snapshot(id: ArtistId, name: string, avatar: Option<string>, visibility: Visibility)

  function AvatarOf(user: User): Option<string> {
    if user.avatar == Some("") then None else user.avatar
  }

  function Take(authors: map<ArtistId, Snapshot>, user: User, visibility: Visibility): map<ArtistId, Snapshot>
    requires user.id > 0
  {
    authors[user.id := Snapshot(user.id, user.name, AvatarOf(user), visibility)]
  }

  function TakeAll(authors: map<ArtistId, Snapshot>, users: seq<User>, visibility: Visibility): map<ArtistId, Snapshot>
    requires ValidUsers(users)
    decreases |users|
  {
    if users == [] then authors
    else Take(TakeAll(authors, users[..|users| - 1], visibility), users[|users| - 1], visibility)
  }

  /** All the pages from `offset` on, and the number of the next call. */
  function FetchFrom(server: Server, visibility: Visibility, offset: nat, call: nat, authors: map<ArtistId, Snapshot>)
    : Result<(map<ArtistId, Snapshot>, nat), FollowError>
    requires offset <= U32Max
    decreases U32Max - offset
  {
    match MapPage(offset, PageSize, server(visibility, offset, call))
    case Err(error) => Err(error)
    case Ok(page) =>
      assert page.next.Some? ==> ValidUsers(page.users) && offset < page.next.value <= U32Max;
      var taken := TakeAll(authors, page.users, visibility);
      if page.next.None? then Ok((taken, call + 1))
      else FetchFrom(server, visibility, page.next.value, call + 1, taken)
  }

  /** Public pages first, then private ones over them. */
  function Fetch(server: Server): Result<map<ArtistId, Snapshot>, FollowError> {
    match FetchFrom(server, Public, 0, 0, map[])
    case Err(error) => Err(error)
    case Ok(shown) =>
      match FetchFrom(server, Private, 0, shown.1, shown.0)
      case Err(error) => Err(error)
      case Ok(all) => Ok(all.0)
  }

  // ----- The table of one account ------------------------------------------------------------

  datatype Author = Author(name: string, avatar: Option<string>, visibility: Visibility, refreshedAt: int,
    lastCollected: Option<int>)

  datatype Following = Following(authors: map<ArtistId, Author>, excluded: set<ArtistId>)

  predicate Enabled(f: Following, id: ArtistId) {
    id !in f.excluded
  }

  predicate DistinctIds(snapshots: seq<Snapshot>) {
    forall i, j :: 0 <= i < j < |snapshots| ==> snapshots[i].id != snapshots[j].id
  }

  predicate ValidSnapshots(snapshots: seq<Snapshot>) {
    DistinctIds(snapshots) && forall i :: 0 <= i < |snapshots| ==> snapshots[i].id > 0 && Trim(snapshots[i].name) != ""
  }

  function IdsOf(snapshots: seq<Snapshot>): set<ArtistId> {
    set i | 0 <= i < |snapshots| :: snapshots[i].id
  }

  function Upsert(authors: map<ArtistId, Author>, s: Snapshot, at: int): map<ArtistId, Author> {
    authors[s.id :=
      Author(Trim(s.name), s.avatar, s.visibility, at, if s.id in authors then authors[s.id].lastCollected else None)]
  }

  function UpsertAll(authors: map<ArtistId, Author>, snapshots: seq<Snapshot>, at: int): map<ArtistId, Author>
    decreases |snapshots|
  {
    if snapshots == [] then authors
    else Upsert(UpsertAll(authors, snapshots[..|snapshots| - 1], at), snapshots[|snapshots| - 1], at)
  }

  /** Rows that are not kept go, and their exclusions with them. */
  function Keep(f: Following, ids: set<ArtistId>): Following {
    Following(map id | id in f.authors && id in ids :: f.authors[id], f.excluded * ids)
  }

  function Synced(f: Following, snapshots: seq<Snapshot>, at: int): Result<Following, FollowError> {
    if !ValidSnapshots(snapshots) then Err(InvalidValue)
    else Ok(Keep(f.(authors := UpsertAll(f.authors, snapshots, at)), IdsOf(snapshots)))
  }

  predicate ValidIds(ids: seq<int>) {
    && ids != []
    && (forall i :: 0 <= i < |ids| ==> ids[i] > 0)
    && (forall i, j :: 0 <= i < j < |ids| ==> ids[i] != ids[j])
  }

  /** Switches all the authors, or none when one of them is not in the table. */
  function Switched(f: Following, ids: seq<int>, enabled: bool): Result<Following, FollowError> {
    if !ValidIds(ids) then Err(InvalidValue)
    else if exists i :: 0 <= i < |ids| && ids[i] !in f.authors then Err(NotFound)
    else
      var chosen := set id | id in f.authors && id in ids;
      Ok(f.(excluded := if enabled then f.excluded - chosen else f.excluded + chosen))
  }

  function Removed(f: Following, id: int): Result<Following, FollowError> {
    if id <= 0 then Err(InvalidValue) else Ok(Keep(f, f.authors.Keys - {id}))
  }

  function Collected(f: Following, at: int): Following {
    f.(authors := map id | id in f.authors ::
         if Enabled(f, id) then f.authors[id].(lastCollected := Some(at)) else f.authors[id])
  }

  datatype Action =
    | Sync(snapshots: seq<Snapshot>, at: int)
    | AddOne(snapshot: Snapshot, at: int)
    | RemoveOne(id: int)
    | SwitchMany(ids: seq<int>, enabled: bool)
    | Collect(at: int)

  function Settled(f: Following, outcome: Result<Following, FollowError>): Following {
    if outcome.Ok? then outcome.value else f
  }

  function Apply(f: Following, action: Action): Following {
    match action
    case Sync(snapshots, at) => Settled(f, Synced(f, snapshots, at))
    case AddOne(snapshot, at) =>
      if ValidSnapshots([snapshot]) then f.(authors := Upsert(f.authors, snapshot, at)) else f
    case RemoveOne(id) => Settled(f, Removed(f, id))
    case SwitchMany(ids, enabled) => Settled(f, Switched(f, ids, enabled))
    case Collect(at) => Collected(f, at)
  }

  function Exec(f: Following, actions: seq<Action>): Following
    decreases |actions|
  {
    if actions == [] then f else Exec(Apply(f, actions[0]), actions[1..])
  }
}
