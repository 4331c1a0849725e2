/**
 * Acceptance of an ugoira archive against its manifest. The ZIP reader indexes entries by raw name,
 * so that a repeated name is one entry in its eyes; the directory is counted again from the bytes to
 * notice that.
 */
module UgoiraArchive {
  import opened Results
  import opened ZipDirectory

  type RawName = seq<Byte>

  /**
   * An entry as the ZIP reader presents it. `enclosed` is its name as a path that cannot leave the
   * directory it is extracted to, when it has one, and `components` the number of its parts.
   */
  datatype Entry = Entry(
    raw: RawName, readable: bool, enclosed: Option<string>, components: nat, isFile: bool, encrypted: bool, size: nat)

  datatype UgoiraError =
    | Unreadable | ManifestMismatch | DuplicateEntry | OverlappingEntries | UnsafeEntryPath | UnknownEntry
    | EncryptedEntry | InvalidFrame

  /** An opened archive: its index, where its directory starts, and whether entries overlap, if that can be told. */
  datatype Opened = Opened(entries: seq<Entry>, start: nat, overlapping: Option<bool>)

  // ----- The reader's index ------------------------------------------------------------------

  predicate Named(entries: seq<Entry>, raw: RawName) {
    exists i :: 0 <= i < |entries| && entries[i].raw == raw
  }

  function Position(entries: seq<Entry>, raw: RawName): nat
    requires Named(entries, raw)
    ensures Position(entries, raw) < |entries| && entries[Position(entries, raw)].raw == raw
    decreases |entries|
  {
    if entries[|entries| - 1].raw == raw then |entries| - 1
    else
      assert Named(entries[..|entries| - 1], raw) by {
        var i :| 0 <= i < |entries| && entries[i].raw == raw;
        assert entries[..|entries| - 1][i].raw == raw;
      }
      Position(entries[..|entries| - 1], raw)
  }

  /** The index of the records of a directory: a later record takes the place of an earlier one of its name. */
  function Index(records: seq<Entry>): seq<Entry>
    decreases |records|
  {
    if records == [] then []
    else
      var last := records[|records| - 1];
      var index := Index(records[..|records| - 1]);
      if Named(index, last.raw) then index[Position(index, last.raw) := last] else index + [last]
  }

  ghost predicate DistinctNames(records: seq<Entry>) {
    forall i, j :: 0 <= i < j < |records| ==> records[i].raw != records[j].raw
  }

  lemma {:induction false} IndexNames(records: seq<Entry>)
    ensures DistinctNames(Index(records))
    ensures forall raw :: Named(Index(records), raw) <==> Named(records, raw)
    decreases |records|
  {
    if records != [] {
      var n := |records| - 1;
      var last, index := records[n], Index(records[..n]);
      IndexNames(records[..n]);
      assert records == records[..n] + [last];
      forall raw
        ensures Named(Index(records), raw) <==> Named(records, raw)
      {
        NamedSnoc(records[..n], last, raw);
        if Named(index, last.raw) {
          NamedReplaced(index, Position(index, last.raw), last, raw);
        } else {
          NamedSnoc(index, last, raw);
        }
      }
      if !Named(index, last.raw) {
        assert forall i :: 0 <= i < |index| ==> index[i].raw != last.raw;
      }
    }
  }

  lemma NamedSnoc(entries: seq<Entry>, last: Entry, raw: RawName)
    ensures Named(entries + [last], raw) <==> Named(entries, raw) || last.raw == raw
  {
    var longer := entries + [last];
    if Named(entries, raw) {
      var i :| 0 <= i < |entries| && entries[i].raw == raw;
      assert longer[i].raw == raw;
    }
    assert longer[|entries|].raw == last.raw;
  }

  lemma NamedReplaced(entries: seq<Entry>, at: nat, last: Entry, raw: RawName)
    requires at < |entries| && entries[at].raw == last.raw
    ensures Named(entries[at := last], raw) <==> Named(entries, raw)
  {
    assert forall i :: 0 <= i < |entries| ==> entries[at := last][i].raw == entries[i].raw;
  }

  /** The index is as long as the directory exactly when no name repeats, and then it is the directory. */
  lemma {:induction false} IndexCollapses(records: seq<Entry>)
    ensures |Index(records)| <= |records|
    ensures |Index(records)| == |records| <==> DistinctNames(records)
    ensures DistinctNames(records) ==> Index(records) == records
    decreases |records|
  {
    if records != [] {
      var n := |records| - 1;
      IndexCollapses(records[..n]);
      IndexNames(records[..n]);
      LastIsNew(records);
    }
  }

  lemma LastIsNew(records: seq<Entry>)
    requires records != []
    ensures var n := |records| - 1;
      DistinctNames(records) <==> DistinctNames(records[..n]) && !Named(records[..n], records[n].raw)
  {
  }

  // ----- Acceptance --------------------------------------------------------------------------

  predicate SeenBefore(entries: seq<Entry>, i: nat)
    requires i < |entries|
  {
    exists j :: 0 <= j < i && entries[j].enclosed == entries[i].enclosed
  }

  /** What is wrong with one entry, given that the ones before it were right. */
  function Fault(entries: seq<Entry>, files: seq<string>, i: nat): Option<UgoiraError>
    requires i < |entries|
  {
    var entry := entries[i];
    if i >= |files| then Some(UnknownEntry)
    else if !entry.readable then Some(Unreadable)
    else if entry.enclosed.None? || entry.components != 1 || !entry.isFile then Some(UnsafeEntryPath)
    else if SeenBefore(entries, i) then Some(DuplicateEntry)
    else if entry.enclosed.value != files[i] then Some(UnknownEntry)
    else if entry.encrypted then Some(EncryptedEntry)
    else if entry.size == 0 then Some(InvalidFrame)
    else None
  }

  ghost predicate Sound(entries: seq<Entry>, files: seq<string>, n: nat)
    requires n <= |entries|
  {
    forall i :: 0 <= i < n ==> Fault(entries, files, i).None?
  }

  /** The directory in the bytes has as many headers as the index has entries. */
  ghost predicate Counted(bytes: seq<Byte>, archive: Opened) {
    Directory(bytes, archive.start, |archive.entries|)
  }

  /** Everything that acceptance asks for. */
  ghost predicate Acceptable(files: seq<string>, bytes: seq<Byte>, archive: Opened) {
    && files != []
    && Counted(bytes, archive)
    && archive.overlapping == Some(false)
    && |archive.entries| == |files|
    && Sound(archive.entries, files, |archive.entries|)
  }

  /** The entries come in the manifest's order, one for each of its files. */
  method ValidatedArchive(files: seq<string>, bytes: seq<Byte>, archive: Option<Opened>)
    returns (result: Result<seq<Entry>, UgoiraError>)
    ensures result.Ok? <==> archive.Some? && Acceptable(files, bytes, archive.value)
    ensures result.Ok? ==> result.value == archive.value.entries
    ensures files == [] ==> result == Err(ManifestMismatch)
    ensures files != [] && archive.None? ==> result == Err(Unreadable)
    ensures files != [] && archive.Some? && (forall n: nat :: !Directory(bytes, archive.value.start, n)) ==>
      result == Err(Unreadable)
    ensures files != [] && archive.Some?
      && (exists n: nat :: n != |archive.value.entries| && Directory(bytes, archive.value.start, n))
      ==> result == Err(DuplicateEntry)
    ensures files != [] && archive.Some? && Counted(bytes, archive.value) ==>
      && (archive.value.overlapping == None ==> result == Err(Unreadable))
      && (archive.value.overlapping == Some(true) ==> result == Err(OverlappingEntries))
      && (archive.value.overlapping == Some(false) && |archive.value.entries| != |files| ==>
            Sound(archive.value.entries, files, |archive.value.entries|) ==> result == Err(ManifestMismatch))
      && (archive.value.overlapping == Some(false) ==>
            forall i :: 0 <= i < |archive.value.entries| && Sound(archive.value.entries, files, i) ==>
              var fault := Fault(archive.value.entries, files, i);
              fault.Some? ==> result == Err(fault.value))
  {
    if files == [] {
      return Err(ManifestMismatch);
    }
    if archive.None? {
      return Err(Unreadable);
    }
    var entries := archive.value.entries;
    var counted := CentralDirectoryEntryCount(bytes, archive.value.start);
    if counted.Err? {
      return Err(Unreadable);
    }
    assert Directory(bytes, archive.value.start, counted.value);
    if counted.value != |entries| {
      return Err(DuplicateEntry);
    }
    if archive.value.overlapping.None? {
      return Err(Unreadable);
    }
    if archive.value.overlapping.value {
      return Err(OverlappingEntries);
    }
    var fault := CheckEntries(entries, files);
    if fault.Some? {
      return Err(fault.value);
    }
    if |entries| != |files| {
      return Err(ManifestMismatch);
    }
    return Ok(entries);
  }

  method CheckEntries(entries: seq<Entry>, files: seq<string>) returns (fault: Option<UgoiraError>)
    ensures fault.None? <==> Sound(entries, files, |entries|)
    ensures fault.Some? ==>
      exists i :: 0 <= i < |entries| && Sound(entries, files, i) && fault == Fault(entries, files, i)
  {
    var seen: set<string> := {};
    var i := 0;
    while i < |entries|
      invariant 0 <= i <= |entries| && Sound(entries, files, i)
      invariant forall name :: name in seen <==> exists j :: 0 <= j < i && entries[j].enclosed == Some(name)
    {
      assert Sound(entries, files, |entries|) ==> Fault(entries, files, i).None?;
      var entry := entries[i];
      if i >= |files| {
        return Some(UnknownEntry);
      }
      if !entry.readable {
        return Some(Unreadable);
      }
      if entry.enclosed.None? || entry.components != 1 || !entry.isFile {
        return Some(UnsafeEntryPath);
      }
      var name := entry.enclosed.value;
      if name in seen {
        return Some(DuplicateEntry);
      }
      seen := seen + {name};
      if name != files[i] {
        return Some(UnknownEntry);
      }
      if entry.encrypted {
        return Some(EncryptedEntry);
      }
      if entry.size == 0 {
        return Some(InvalidFrame);
      }
      i := i + 1;
    }
    return None;
  }

  // ----- What acceptance means ---------------------------------------------------------------

  /** The entry is one of the manifest's files, as it should be. */
  ghost predicate InOrder(entry: Entry, file: string) {
    entry.readable && entry.components == 1 && entry.isFile && entry.enclosed == Some(file) && !entry.encrypted
    && entry.size > 0
  }

  /**
   * What is wrong with an entry, the first thing that applies: there is no file left for it, it cannot be
   * read, its path is not a plain file name, its name was there before, is not the next file's, or the
   * entry is encrypted or empty.
   */
  lemma FaultIs(entries: seq<Entry>, files: seq<string>, i: nat)
    requires i < |entries|
    ensures var fault, entry := Fault(entries, files, i), entries[i];
      var plain := entry.enclosed.Some? && entry.components == 1 && entry.isFile;
      var repeated := exists j :: 0 <= j < i && entries[j].enclosed == entry.enclosed;
      if i >= |files| then fault == Some(UnknownEntry)
      else if !entry.readable then fault == Some(Unreadable)
      else
        && (fault == Some(UnsafeEntryPath) <==> !plain)
        && (fault == Some(DuplicateEntry) <==> plain && repeated)
        && (fault == Some(UnknownEntry) <==> plain && !repeated && entry.enclosed.value != files[i])
        && (fault == Some(EncryptedEntry) <==>
              plain && !repeated && entry.enclosed.value == files[i] && entry.encrypted)
        && (fault == Some(InvalidFrame) <==>
              plain && !repeated && entry.enclosed.value == files[i] && !entry.encrypted && entry.size == 0)
        && (fault == None <==> InOrder(entry, files[i]) && !repeated)
  {
  }

  /** An archive is acceptable exactly when its entries are the manifest's files, in order and each as it should be. */
  lemma AcceptableExactly(files: seq<string>, bytes: seq<Byte>, archive: Opened)
    ensures Acceptable(files, bytes, archive) <==>
      && files != [] && Directory(bytes, archive.start, |archive.entries|) && archive.overlapping == Some(false)
      && |archive.entries| == |files|
      && (forall i :: 0 <= i < |files| ==> InOrder(archive.entries[i], files[i]))
      && (forall i, j :: 0 <= i < j < |files| ==> files[i] != files[j])
  {
    if Acceptable(files, bytes, archive) {
      AcceptedIsTheManifest(files, bytes, archive);
      forall i | 0 <= i < |files|
        ensures InOrder(archive.entries[i], files[i])
      {
        assert Fault(archive.entries, files, i).None?;
      }
    } else if |archive.entries| == |files| && !Sound(archive.entries, files, |archive.entries|) {
      var i :| 0 <= i < |archive.entries| && Fault(archive.entries, files, i).Some?;
      FaultIs(archive.entries, files, i);
      if InOrder(archive.entries[i], files[i]) {
        var j :| 0 <= j < i && archive.entries[j].enclosed == archive.entries[i].enclosed;
        assert InOrder(archive.entries[j], files[j]) ==> files[j] == files[i];
      }
    }
  }

  /** An accepted archive holds exactly the manifest's files, in order, and no two alike. */
  lemma AcceptedIsTheManifest(files: seq<string>, bytes: seq<Byte>, archive: Opened)
    requires Acceptable(files, bytes, archive)
    ensures |archive.entries| == |files|
    ensures forall i :: 0 <= i < |files| ==>
      archive.entries[i].enclosed == Some(files[i]) && archive.entries[i].size > 0
    ensures forall i, j :: 0 <= i < j < |files| ==> files[i] != files[j]
  {
    forall i | 0 <= i < |files|
      ensures archive.entries[i].enclosed == Some(files[i]) && archive.entries[i].size > 0
      ensures forall j :: 0 <= j < i ==> files[j] != files[i]
    {
      assert Fault(archive.entries, files, i).None?;
      forall j | 0 <= j < i
        ensures files[j] != files[i]
      {
        assert Fault(archive.entries, files, j).None?;
      }
    }
  }

  /** The index was built from the headers that stand in the bytes. */
  ghost predicate IndexOf(bytes: seq<Byte>, archive: Opened, records: seq<Entry>) {
    && archive.entries == Index(records)
    && Directory(bytes, archive.start, |records|)
    && forall i :: 0 <= i < |records| ==> records[i].raw == DecodeAll(bytes, archive.start, |records|)[i].name
  }

  /**
   * Counting the directory notices every repeated name and nothing else: the count agrees with the
   * index exactly when all headers in the bytes have different names.
   */
  lemma CountNoticesRepeats(bytes: seq<Byte>, archive: Opened, records: seq<Entry>)
    requires IndexOf(bytes, archive, records)
    ensures Counted(bytes, archive) <==>
      forall i, j :: 0 <= i < j < |records| ==>
        DecodeAll(bytes, archive.start, |records|)[i].name != DecodeAll(bytes, archive.start, |records|)[j].name
  {
  }

  /** An accepted archive lists every record of its directory, and each is one of the manifest's files. */
  lemma AcceptedHidesNothing(files: seq<string>, bytes: seq<Byte>, archive: Opened, records: seq<Entry>)
    requires IndexOf(bytes, archive, records) && Acceptable(files, bytes, archive)
    ensures archive.entries == records && |records| == |files|
    ensures forall i :: 0 <= i < |files| ==> records[i].enclosed == Some(files[i])
  {
    DirectoryUnique(bytes, archive.start, |archive.entries|, |records|);
    IndexCollapses(records);
    AcceptedIsTheManifest(files, bytes, archive);
  }
}
