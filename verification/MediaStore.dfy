/**
 * Putting a staged download in its place: the staged file is linked to its destination, never over
 * something that is there, and a destination that is there counts as stored when it is the same.
 */
module MediaStore {
  import opened Results
  import opened MediaModel

  /** What stands at a path. Equal digests stand for equal contents. */
  datatype Entry = Regular(size: nat, digest: Digest) | SymbolicLink | Other

  datatype Staged = Staged(size: nat, digest: Digest)

  datatype StorageError = UnsafeDestination | DestinationConflict | StorageFailure

  /** `size` and `digest` of what the caller will record. */
  datatype StoredMedia = StoredMedia(path: Path, size: nat, digest: Digest)

  predicate SameContents(entry: Entry, staged: Staged) {
    entry == Regular(staged.size, staged.digest)
  }

  /** What the answer is when an entry is found at the destination. */
  function Found(entry: Entry, path: Path, staged: Staged): Result<StoredMedia, StorageError> {
    if entry.SymbolicLink? then Err(UnsafeDestination)
    else if SameContents(entry, staged) then Ok(StoredMedia(path, staged.size, staged.digest))
    else Err(DestinationConflict)
  }

  class MediaFiles {
    var entries: map<Path, Entry>
    /** The staged downloads that still have a file of their own. */
    var staged: map<nat, Staged>

    /**
     * Promotes a staged download. `rival` is what another process may put at the destination between
     * the first look and the link; `fails` says at which operation the file system gives up.
     */
    method Promote(path: Path, ticket: nat, rival: Option<Entry>, linkFails: bool, removeFails: bool)
      returns (result: Result<StoredMedia, StorageError>)
      requires ticket in staged
      modifies this
      ensures forall p :: p in old(entries) ==> p in entries && entries[p] == old(entries)[p]
      ensures forall p :: p in entries && p != path ==> p in old(entries)
      ensures result.Ok? ==>
        && path in entries && SameContents(entries[path], old(staged)[ticket])
        && result.value == StoredMedia(path, old(staged)[ticket].size, old(staged)[ticket].digest)
      ensures path in old(entries) ==>
        result == Found(old(entries)[path], path, old(staged)[ticket]) && entries == old(entries)
        && staged == old(staged)
      ensures path !in old(entries) && rival.Some? ==>
        && entries == old(entries)[path := rival.value] && staged == old(staged)
        && (!linkFails ==> result == Found(rival.value, path, old(staged)[ticket]))
      ensures path !in old(entries) && rival.None? && !linkFails ==>
        && entries == old(entries)[path := Regular(old(staged)[ticket].size, old(staged)[ticket].digest)]
        && (result.Ok? <==> !removeFails)
        && staged == if removeFails then old(staged) else old(staged) - {ticket}
      ensures path !in old(entries) && linkFails ==>
        result == Err(StorageFailure) && staged == old(staged) && (rival.None? ==> entries == old(entries))
    {
      var download := staged[ticket];
      if path in entries {
        return Found(entries[path], path, download);
      }
      if rival.Some? {
        entries := entries[path := rival.value];
      }
      if linkFails {
        return Err(StorageFailure);
      }
      if path in entries {
        return Found(entries[path], path, download);
      }
      entries := entries[path := Regular(download.size, download.digest)];
      if removeFails {
        return Err(StorageFailure);
      }
      staged := staged - {ticket};
      return Ok(StoredMedia(path, download.size, download.digest));
    }
  }

  // ----- Promotion as a step of the artifact protocol ----------------------------------------

  /** The directory holds the protocol's files and nothing else. */
  ghost predicate Holds(entries: map<Path, Entry>, files: map<Path, Digest>) {
    && entries.Keys == files.Keys
    && forall p :: p in entries ==> entries[p].Regular? && entries[p].digest == files[p]
  }

  /** What a promotion without rivals and failures leaves behind. */
  function Promoted(entries: map<Path, Entry>, path: Path, download: Staged): map<Path, Entry> {
    if path in entries then entries else entries[path := Regular(download.size, download.digest)]
  }

  /** Equal contents have equal sizes. */
  ghost predicate SizesAgree(entries: map<Path, Entry>, path: Path, download: Staged) {
    path in entries && entries[path].Regular? && entries[path].digest == download.digest ==>
      entries[path].size == download.size
  }

  /**
   * The protocol's write step of a source file is such a promotion: the same files afterwards, and
   * the attempt goes on exactly when the promotion succeeded.
   */
  lemma PromotionIsWriteStep(s: State, lease: Lease, entries: map<Path, Entry>, download: Staged)
    requires InLease(s, lease) && s.attempts[lease].task.Registered? && s.attempts[lease].task.item.SourceItem?
    requires Holds(entries, s.files)
    requires var path := ItemPath(s.attempts[lease].task.item); SizesAgree(entries, path, download)
    ensures var item := s.attempts[lease].task.item; var t := WriteStep(s, lease, download.digest);
      var found := if ItemPath(item) in entries then Found(entries[ItemPath(item)], ItemPath(item), download)
                   else Ok(StoredMedia(ItemPath(item), download.size, download.digest));
      && Holds(Promoted(entries, ItemPath(item), download), t.files)
      && (found.Ok? ==> t.attempts[lease].task == Stored(item, download.digest))
      && (found.Err? ==> t == s)
  {
  }
}
