/**
 * How much the media directory holds: a walk with an explicit stack, shared by all who ask while it
 * runs and remembered for a short time.
 */
module MediaUsage {
  import opened Results

  const U64Max: nat := 0xFFFF_FFFF_FFFF_FFFF

  // ----- The walk ----------------------------------------------------------------------------

  /**
   * An entry of a directory, as reading it turns out: a file whose size cannot be had is `LostFile`,
   * a directory that cannot be listed `LockedDirectory`, an entry of no known type `Unreadable`.
   */
  datatype Node =
    | File(size: nat)
    | LostFile
    | Directory(entries: seq<Node>)
    | LockedDirectory
    | Symlink
    | Special
    | Unreadable

  datatype IoError = NotADirectory | ReadFailed

  /** The bytes of the regular files below, without following symbolic links. */
  function Bytes(node: Node): nat {
    match node
    case File(size) => size
    case Directory(entries) => BytesAll(entries)
    case _ => 0
  }

  function BytesAll(nodes: seq<Node>): nat {
    if nodes == [] then 0 else Bytes(nodes[0]) + BytesAll(nodes[1..])
  }

  /** Whether anything below cannot be read. */
  predicate Broken(node: Node) {
    match node
    case Directory(entries) => BrokenAny(entries)
    case _ => node.LostFile? || node.LockedDirectory? || node.Unreadable?
  }

  predicate BrokenAny(nodes: seq<Node>) {
    nodes != [] && (Broken(nodes[0]) || BrokenAny(nodes[1..]))
  }

  function Capped(n: nat): nat {
    if n > U64Max then U64Max else n
  }

  function SaturatingAdd(a: nat, b: nat): nat {
    Capped(a + b)
  }

  function Directories(node: Node): nat {
    match node
    case Directory(entries) => 1 + DirectoriesIn(entries)
    case LockedDirectory => 1
    case _ => 0
  }

  function DirectoriesIn(nodes: seq<Node>): nat {
    if nodes == [] then 0 else Directories(nodes[0]) + DirectoriesIn(nodes[1..])
  }

  lemma {:induction false} Joined(a: seq<Node>, b: seq<Node>)
    ensures BytesAll(a + b) == BytesAll(a) + BytesAll(b)
    ensures BrokenAny(a + b) <==> BrokenAny(a) || BrokenAny(b)
    ensures DirectoriesIn(a + b) == DirectoriesIn(a) + DirectoriesIn(b)
    decreases |a|
  {
    if a == [] {
      assert a + b == b;
    } else {
      Joined(a[1..], b);
      assert (a + b)[1..] == a[1..] + b;
    }
  }

  lemma Alone(node: Node)
    ensures BytesAll([node]) == Bytes(node)
    ensures BrokenAny([node]) <==> Broken(node)
    ensures DirectoriesIn([node]) == Directories(node)
  {
  }

  /** The entries below that are no readable directory, in the order of the directories. */
  function Leaves(node: Node): seq<Node> {
    match node
    case Directory(entries) => LeavesOf(entries)
    case _ => [node]
  }

  function LeavesOf(nodes: seq<Node>): seq<Node> {
    if nodes == [] then [] else Leaves(nodes[0]) + LeavesOf(nodes[1..])
  }

  function SizeOf(leaf: Node): nat {
    if leaf.File? then leaf.size else 0
  }

  function Sum(leaves: seq<Node>): nat {
    if leaves == [] then 0 else SizeOf(leaves[0]) + Sum(leaves[1..])
  }

  lemma {:induction false} SumJoin(a: seq<Node>, b: seq<Node>)
    ensures Sum(a + b) == Sum(a) + Sum(b)
    decreases |a|
  {
    if a == [] {
      assert a + b == b;
    } else {
      SumJoin(a[1..], b);
      assert (a + b)[1..] == a[1..] + b;
    }
  }

  /** The bytes below are those of the regular files, whatever else there is. */
  lemma {:induction false} BytesAreLeaves(nodes: seq<Node>)
    ensures BytesAll(nodes) == Sum(LeavesOf(nodes))
    decreases nodes
  {
    if nodes != [] {
      BytesAreLeaves(nodes[1..]);
      SumJoin(Leaves(nodes[0]), LeavesOf(nodes[1..]));
      if nodes[0].Directory? {
        BytesAreLeaves(nodes[0].entries);
      } else {
        assert [nodes[0]][1..] == [];
      }
    }
  }

  /** What stops a walk: a file without a size, a directory without a listing, an entry without a type. */
  ghost predicate Stops(leaf: Node) {
    leaf == LostFile || leaf == LockedDirectory || leaf == Unreadable
  }

  /** A tree cannot be read exactly when one of its entries cannot. */
  lemma {:induction false} BrokenIsALeaf(nodes: seq<Node>)
    ensures BrokenAny(nodes) <==> exists leaf :: leaf in LeavesOf(nodes) && Stops(leaf)
    decreases nodes
  {
    if nodes != [] {
      BrokenIsALeaf(nodes[1..]);
      if nodes[0].Directory? {
        BrokenIsALeaf(nodes[0].entries);
      } else {
        assert Broken(nodes[0]) <==> Stops(nodes[0]);
        assert nodes[0] in Leaves(nodes[0]);
      }
      assert forall leaf :: leaf in LeavesOf(nodes) <==> leaf in Leaves(nodes[0]) || leaf in LeavesOf(nodes[1..]);
    }
  }

  /** The sum is exact as long as it fits 64 bits, and the greatest number after that. */
  lemma SaturatesAt64Bits(a: nat, b: nat)
    ensures a + b < 0x1_0000_0000_0000_0000 ==> SaturatingAdd(a, b) == a + b
    ensures a + b >= 0x1_0000_0000_0000_0000 ==> SaturatingAdd(a, b) == 0xFFFF_FFFF_FFFF_FFFF
    ensures Capped(a) == SaturatingAdd(a, 0)
  {
  }

  /** Reads one directory: adds up its files and pushes its directories, or stops at what it cannot read. */
  method ReadDirectory(nodes: seq<Node>, total: nat, stack: seq<Node>)
    returns (failed: bool, sum: nat, pushed: seq<Node>)
    requires total <= U64Max && forall n :: n in stack ==> n.Directory? || n.LockedDirectory?
    ensures failed ==> BrokenAny(nodes)
    ensures !failed ==> (BrokenAny(nodes) || BrokenAny(stack) <==> BrokenAny(pushed))
    ensures !failed ==> sum <= U64Max && DirectoriesIn(pushed) == DirectoriesIn(nodes) + DirectoriesIn(stack)
    ensures !failed ==> Capped(sum + BytesAll(pushed)) == Capped(total + BytesAll(nodes) + BytesAll(stack))
    ensures forall n :: n in pushed ==> n.Directory? || n.LockedDirectory?
  {
    failed, sum, pushed := false, total, stack;
    var i := 0;
    while i < |nodes|
      invariant 0 <= i <= |nodes| && sum <= U64Max
      invariant BrokenAny(nodes) || BrokenAny(stack) <==> BrokenAny(nodes[i..]) || BrokenAny(pushed)
      invariant BrokenAny(nodes[i..]) ==> BrokenAny(nodes)
      invariant DirectoriesIn(nodes[i..]) + DirectoriesIn(pushed) == DirectoriesIn(nodes) + DirectoriesIn(stack)
      invariant Capped(sum + BytesAll(nodes[i..]) + BytesAll(pushed))
        == Capped(total + BytesAll(nodes) + BytesAll(stack))
      invariant forall n :: n in pushed ==> n.Directory? || n.LockedDirectory?
    {
      var entry := nodes[i];
      assert nodes[i..][0] == entry && nodes[i..][1..] == nodes[i + 1..];
      assert Broken(entry) ==> BrokenAny(nodes[i..]);
      if entry.Unreadable? || entry.LostFile? {
        assert Broken(entry);
        failed := true;
        return;
      }
      if entry.Directory? || entry.LockedDirectory? {
        Joined(pushed, [entry]);
        Alone(entry);
        pushed := pushed + [entry];
      } else if entry.File? {
        sum := SaturatingAdd(sum, entry.size);
      }
      i := i + 1;
    }
  }

  /**
   * The size of a directory is the sum over the whole tree, kept to 64 bits, if all of the tree can
   * be read; the order in which the stack visits it does not matter.
   */
  method MediaDirectorySize(root: Node) returns (result: Result<nat, IoError>)
    ensures match root
      case Directory(_) => result == if Broken(root) then Err(ReadFailed) else Ok(Capped(Bytes(root)))
      case LockedDirectory => result == Err(ReadFailed)
      case Unreadable => result == Err(ReadFailed)
      case _ => result == Err(NotADirectory)
  {
    if root.Unreadable? {
      return Err(ReadFailed);
    }
    if !root.Directory? && !root.LockedDirectory? {
      return Err(NotADirectory);
    }
    var total: nat := 0;
    var stack := [root];
    Alone(root);
    while stack != []
      invariant total <= U64Max && forall n :: n in stack ==> n.Directory? || n.LockedDirectory?
      invariant Broken(root) <==> BrokenAny(stack)
      invariant Capped(total + BytesAll(stack)) == Capped(Bytes(root))
      decreases DirectoriesIn(stack)
    {
      var n := |stack| - 1;
      var top, rest := stack[n], stack[..n];
      assert stack == rest + [top];
      Joined(rest, [top]);
      Alone(top);
      if top.LockedDirectory? {
        return Err(ReadFailed);
      }
      var failed, sum, pushed := ReadDirectory(top.entries, total, rest);
      if failed {
        return Err(ReadFailed);
      }
      total, stack := sum, pushed;
    }
    return Ok(total);
  }

  // ----- The shared scan ---------------------------------------------------------------------

  type RequestId = nat

  /** Nanoseconds for which a result is reused. */
  const CacheTtl: int := 15_000_000_000

  datatype Scan = Scan(result: Result<nat, IoError>, finished: int)

  datatype Cache = Cache(bytes: nat, measuredAt: int)

  /** Given at `at`: from the cache, or by the scan with that number among the finished ones. */
  datatype Answer = Cached(bytes: nat, at: int) | Shared(scan: nat, at: int)

  /**
   * `running` counts the scans under way and `finished` records those that ended; `asked` is when
   * each request came.
   */
  datatype Tracker = Tracker(
    clock: int, cache: Option<Cache>, scanRunning: bool, waiters: seq<RequestId>, running: nat,
    finished: seq<Scan>, asked: map<RequestId, int>, answers: map<RequestId, Answer>)

  datatype Action = Tick(to: int) | Ask(request: RequestId) | ScanEnds(result: Result<nat, IoError>)

  function Idle(clock: int): Tracker {
    Tracker(clock, None, false, [], 0, [], map[], map[])
  }

  predicate IsFresh(t: Tracker) {
    t.cache.Some? && t.clock - t.cache.value.measuredAt < CacheTtl
  }

  function Asked(t: Tracker, request: RequestId): Tracker {
    var noted := t.(asked := t.asked[request := t.clock]);
    if IsFresh(t) then noted.(answers := t.answers[request := Cached(t.cache.value.bytes, t.clock)])
    else if t.scanRunning then noted.(waiters := t.waiters + [request])
    else noted.(waiters := t.waiters + [request], scanRunning := true, running := t.running + 1)
  }

  function Answered(t: Tracker, waiters: seq<RequestId>): map<RequestId, Answer> {
    map r | r in t.answers.Keys + (set w | w in waiters) ::
      if r in waiters then Shared(|t.finished|, t.clock) else t.answers[r]
  }

  function Finished(t: Tracker, result: Result<nat, IoError>): Tracker
    requires t.running > 0
  {
    t.(scanRunning := false, running := t.running - 1,
       cache := if result.Ok? then Some(Cache(result.value, t.clock)) else t.cache,
       waiters := [], answers := Answered(t, t.waiters), finished := t.finished + [Scan(result, t.clock)])
  }

  function Apply(t: Tracker, action: Action): Tracker {
    match action
    case Tick(to) => if to < t.clock then t else t.(clock := to)
    case Ask(request) => if request in t.asked then t else Asked(t, request)
    case ScanEnds(result) => if t.running == 0 then t else Finished(t, result)
  }

  function Exec(t: Tracker, actions: seq<Action>): Tracker
    decreases |actions|
  {
    if actions == [] then t else Exec(Apply(t, actions[0]), actions[1..])
  }

  /** The last successful scan before number `n`, if there was one. */
  function LastSuccess(finished: seq<Scan>, n: nat): Option<Cache>
    requires n <= |finished|
    decreases n
  {
    if n == 0 then None
    else if finished[n - 1].result.Ok? then Some(Cache(finished[n - 1].result.value, finished[n - 1].finished))
    else LastSuccess(finished, n - 1)
  }

  ghost predicate SingleFlight(t: Tracker) {
    && t.running == (if t.scanRunning then 1 else 0)
    && (t.waiters != [] ==> t.scanRunning)
  }

  /** Every request that came is waiting or answered, never both. */
  ghost predicate NobodyLost(t: Tracker) {
    && (forall r :: r in t.asked <==> r in t.answers || r in t.waiters)
    && (forall r :: r in t.answers ==> r !in t.waiters)
    && (forall i, j :: 0 <= i < j < |t.waiters| ==> t.waiters[i] != t.waiters[j])
  }

  /** The scan that an answer passes on ended when the answer was given, not before the request came. */
  ghost predicate SharedSound(t: Tracker, r: RequestId)
    requires r in t.answers && r in t.asked
  {
    t.answers[r].Shared? ==>
      && t.answers[r].scan < |t.finished|
      && t.asked[r] <= t.finished[t.answers[r].scan].finished == t.answers[r].at
  }

  /** A remembered answer is the latest successful measurement of its time, and not old. */
  ghost predicate CachedSound(t: Tracker, r: RequestId)
    requires r in t.answers && r in t.asked
  {
    t.answers[r].Cached? ==>
      && t.answers[r].at == t.asked[r]
      && exists n :: CachedFrom(t.finished, t.answers[r], n)
  }

  ghost predicate CachedFrom(finished: seq<Scan>, answer: Answer, n: nat) {
    && n <= |finished| && answer.Cached?
    && LastSuccess(finished, n).Some?
    && LastSuccess(finished, n).value.bytes == answer.bytes
    && answer.at - LastSuccess(finished, n).value.measuredAt < CacheTtl
    && (n < |finished| ==> answer.at <= finished[n].finished)
  }

  ghost predicate TimesSound(t: Tracker) {
    && t.cache == LastSuccess(t.finished, |t.finished|)
    && (forall r :: r in t.asked ==> t.asked[r] <= t.clock)
    && (forall r :: r in t.answers ==> t.answers[r].at <= t.clock)
  }

  ghost predicate Inv(t: Tracker) {
    && SingleFlight(t) && NobodyLost(t) && TimesSound(t)
    && forall r :: r in t.answers ==> r in t.asked && SharedSound(t, r) && CachedSound(t, r)
  }

  lemma {:induction false} LastSuccessStays(finished: seq<Scan>, more: Scan, n: nat)
    requires n <= |finished|
    ensures LastSuccess(finished + [more], n) == LastSuccess(finished, n)
    decreases n
  {
    if n > 0 {
      LastSuccessStays(finished, more, n - 1);
    }
  }

  lemma CachedStays(finished: seq<Scan>, more: Scan, answer: Answer, n: nat)
    requires CachedFrom(finished, answer, n) && answer.at <= more.finished
    ensures CachedFrom(finished + [more], answer, n)
  {
    LastSuccessStays(finished, more, n);
  }

  lemma AskInv(t: Tracker, request: RequestId)
    requires Inv(t) && request !in t.asked
    ensures Inv(Asked(t, request))
  {
    var next := Asked(t, request);
    if IsFresh(t) {
      assert CachedFrom(t.finished, next.answers[request], |t.finished|);
    }
    forall r | r in t.answers
      ensures r in next.asked && next.asked[r] == t.asked[r] && next.answers[r] == t.answers[r]
      ensures SharedSound(next, r) && CachedSound(next, r)
    {
      assert SharedSound(t, r) && CachedSound(t, r);
    }
  }

  lemma FinishInv(t: Tracker, result: Result<nat, IoError>)
    requires Inv(t) && t.running > 0
    ensures Inv(Finished(t, result))
  {
    var next := Finished(t, result);
    var scan := Scan(result, t.clock);
    LastSuccessStays(t.finished, scan, |t.finished|);
    forall r | r in next.answers
      ensures r in next.asked && SharedSound(next, r) && CachedSound(next, r)
    {
      if r !in t.waiters {
        assert SharedSound(t, r) && CachedSound(t, r);
        if t.answers[r].Cached? {
          var n :| CachedFrom(t.finished, t.answers[r], n);
          CachedStays(t.finished, scan, t.answers[r], n);
        }
      }
    }
  }

  lemma ApplyInv(t: Tracker, action: Action)
    requires Inv(t)
    ensures Inv(Apply(t, action))
  {
    match action
    case Tick(to) =>
      forall r | r in t.answers
        ensures SharedSound(Apply(t, action), r) && CachedSound(Apply(t, action), r)
      {
        assert SharedSound(t, r) && CachedSound(t, r);
      }
    case Ask(request) => if request !in t.asked { AskInv(t, request); }
    case ScanEnds(result) => if t.running > 0 { FinishInv(t, result); }
  }

  lemma {:induction false} ExecInv(t: Tracker, actions: seq<Action>)
    requires Inv(t)
    ensures Inv(Exec(t, actions))
    decreases |actions|
  {
    if actions != [] {
      ApplyInv(t, actions[0]);
      ExecInv(Apply(t, actions[0]), actions[1..]);
    }
  }

  /** In every run at most one scan is under way, and whoever waits has one to wait for. */
  lemma OneScanAtATime(clock: int, actions: seq<Action>)
    ensures var t := Exec(Idle(clock), actions); t.running <= 1 && (t.waiters != [] ==> t.running == 1)
  {
    ExecInv(Idle(clock), actions);
  }

  /**
   * In every run each request is waiting or has one answer: the result of a scan that ended after the
   * request came, or the latest successful measurement, less than the cache's lifetime old.
   */
  lemma AnswersAreRecent(clock: int, actions: seq<Action>, r: RequestId)
    requires r in Exec(Idle(clock), actions).asked
    ensures var t := Exec(Idle(clock), actions);
      if r in t.answers then
        match t.answers[r]
        case Shared(scan, at) => scan < |t.finished| && t.asked[r] <= t.finished[scan].finished == at
        case Cached(bytes, at) => at == t.asked[r] && exists n :: CachedFrom(t.finished, t.answers[r], n)
      else r in t.waiters
  {
    ExecInv(Idle(clock), actions);
    var t := Exec(Idle(clock), actions);
    if r in t.answers {
      assert SharedSound(t, r) && CachedSound(t, r);
    }
  }

  /** A step of a run changes what it is about: the clock, or what the request or the scan is answered. */
  lemma RunsAreSteps(t: Tracker, action: Action)
    ensures Exec(t, [action]) == Apply(t, action)
    ensures action.Tick? && action.to >= t.clock ==> Apply(t, action) == t.(clock := action.to)
    ensures action.Ask? && action.request !in t.asked ==> action.request in Apply(t, action).asked
    ensures action.ScanEnds? && t.running > 0 ==>
      Apply(t, action).finished == t.finished + [Scan(action.result, t.clock)]
  {
    assert [action][1..] == [];
    assert Exec(Apply(t, action), []) == Apply(t, action);
  }

  /** The latest successful measurement is not yet as old as the cache's lifetime of 15 seconds. */
  ghost predicate Remembers(t: Tracker) {
    var latest := LastSuccess(t.finished, |t.finished|);
    latest.Some? && t.clock < latest.value.measuredAt + 15_000_000_000
  }

  /**
   * In every run a new request is answered at once, and starts nothing, exactly when the latest successful
   * measurement is young; otherwise it waits for the scan under way, or for one that it starts.
   */
  lemma AskIsAnswered(clock: int, actions: seq<Action>, request: RequestId)
    requires request !in Exec(Idle(clock), actions).asked
    ensures var t := Exec(Idle(clock), actions); var next := Apply(t, Ask(request));
      && request in next.asked && next.asked[request] == t.clock && next.finished == t.finished
      && (request in next.answers <==> Remembers(t))
      && (Remembers(t) ==>
            && next.running == t.running && next.waiters == t.waiters
            && next.answers[request] == Cached(LastSuccess(t.finished, |t.finished|).value.bytes, t.clock))
      && (!Remembers(t) ==> next.waiters == t.waiters + [request] && next.running == 1)
  {
    ExecInv(Idle(clock), actions);
  }

  /** In every run the end of a scan answers all who waited with its result, and leaves nobody waiting. */
  lemma EndAnswersAll(clock: int, actions: seq<Action>, result: Result<nat, IoError>)
    requires Exec(Idle(clock), actions).running > 0
    ensures var t := Exec(Idle(clock), actions); var next := Apply(t, ScanEnds(result));
      && next.waiters == [] && next.running == 0 && next.finished == t.finished + [Scan(result, t.clock)]
      && (forall r :: r in t.waiters ==> r in next.answers && next.answers[r] == Shared(|t.finished|, t.clock))
      && (forall r :: r in t.asked && r !in t.waiters ==> r in next.answers && next.answers[r] == t.answers[r])
      && next.asked == t.asked
  {
    ExecInv(Idle(clock), actions);
  }

  // ----- The tracker as an object ------------------------------------------------------------

  class MediaUsageTracker {
    var cache: Option<Cache>
    var scanRunning: bool
    var waiters: seq<RequestId>
    ghost var running: nat
    ghost var finished: seq<Scan>
    ghost var asked: map<RequestId, int>
    ghost var answers: map<RequestId, Answer>

    ghost function At(clock: int): Tracker
      reads this
    {
      Tracker(clock, cache, scanRunning, waiters, running, finished, asked, answers)
    }

    constructor (ghost clock: int)
      ensures At(clock) == Idle(clock) && Inv(At(clock))
    {
      cache, scanRunning, waiters := None, false, [];
      running, finished, asked, answers := 0, [], map[], map[];
    }

    /** What `measure` does under its lock: answers from the cache, or joins or starts the scan. */
    method Measure(request: RequestId, now: int) returns (known: Option<nat>, startScan: bool)
      requires Inv(At(now)) && request !in asked
      modifies this
      ensures Inv(At(now)) && At(now) == Apply(old(At(now)), Ask(request))
      ensures startScan ==> !old(scanRunning) && known.None?
      ensures known.None? <==> request in waiters
      ensures known.Some? ==> answers[request] == Cached(known.value, now)
    {
      ApplyInv(At(now), Ask(request));
      asked := asked[request := now];
      if cache.Some? && now - cache.value.measuredAt < CacheTtl {
        answers := answers[request := Cached(cache.value.bytes, now)];
        return Some(cache.value.bytes), false;
      }
      waiters := waiters + [request];
      if !scanRunning {
        scanRunning := true;
        running := running + 1;
        return None, true;
      }
      return None, false;
    }

    /** The end of the scan: its result is for everyone who waited. */
    method FinishScan(result: Result<nat, IoError>, now: int) returns (served: seq<RequestId>)
      requires Inv(At(now)) && scanRunning
      modifies this
      ensures Inv(At(now)) && At(now) == Apply(old(At(now)), ScanEnds(result))
      ensures served == old(waiters) && waiters == []
    {
      ApplyInv(At(now), ScanEnds(result));
      served := waiters;
      answers := Answered(At(now), waiters);
      finished := finished + [Scan(result, now)];
      running := running - 1;
      scanRunning := false;
      if result.Ok? {
        cache := Some(Cache(result.value, now));
      }
      waiters := [];
    }
  }
}
