/**
 * A page of the newest works of followed artists: the works come as thumbnails, their order as a
 * list of ids that may name works without a thumbnail and may repeat itself.
 */
module FollowLatest {
  import opened Results

  datatype Thumbnail<+W> = Thumbnail(id: int, work: Option<W>)

  datatype MapError = ThumbnailId | ThumbnailWork(id: int) | DuplicateThumbnail(id: int) | PageId | ThumbnailOrder

  predicate DistinctIds<W>(thumbnails: seq<Thumbnail<W>>) {
    forall i, j :: 0 <= i < j < |thumbnails| ==> thumbnails[i].id != thumbnails[j].id
  }

  predicate Usable<W>(thumbnails: seq<Thumbnail<W>>) {
    DistinctIds(thumbnails) && forall i :: 0 <= i < |thumbnails| ==> thumbnails[i].id > 0 && thumbnails[i].work.Some?
  }

  function WorksOf<W>(thumbnails: seq<Thumbnail<W>>): map<int, W>
    requires Usable(thumbnails)
    decreases |thumbnails|
  {
    if thumbnails == [] then map[]
    else
      var last := thumbnails[|thumbnails| - 1];
      WorksOf(thumbnails[..|thumbnails| - 1])[last.id := last.work.value]
  }

  /** The ids that are known, each where it stands first. */
  function FirstOccurrences(ids: seq<int>, known: set<int>): seq<int>
    decreases |ids|
  {
    if ids == [] then []
    else if ids[0] in known then [ids[0]] + FirstOccurrences(ids[1..], known - {ids[0]})
    else FirstOccurrences(ids[1..], known)
  }

  function FirstIndex(ids: seq<int>, id: int): (i: nat)
    requires id in ids
    ensures i < |ids| && ids[i] == id && forall j :: 0 <= j < i ==> ids[j] != id
    decreases |ids|
  {
    if ids[0] == id then 0 else 1 + FirstIndex(ids[1..], id)
  }

  lemma {:induction false} FirstOccurrencesMembers(ids: seq<int>, known: set<int>)
    ensures forall id :: id in FirstOccurrences(ids, known) <==> id in ids && id in known
    ensures forall i :: 0 <= i < |FirstOccurrences(ids, known)| ==>
      FirstOccurrences(ids, known)[i] in ids && FirstOccurrences(ids, known)[i] in known
    decreases |ids|
  {
    if ids != [] {
      assert ids == [ids[0]] + ids[1..];
      FirstOccurrencesMembers(ids[1..], if ids[0] in known then known - {ids[0]} else known);
    }
  }

  /** `b` is first found later than `a`. */
  predicate FoundLater(ids: seq<int>, a: int, b: int) {
    a in ids && b in ids && FirstIndex(ids, a) < FirstIndex(ids, b)
  }

  /** They are exactly the known ids of the list, each once, in the order of their first places. */
  lemma FirstOccurrencesAre(ids: seq<int>, known: set<int>)
    ensures var chosen := FirstOccurrences(ids, known);
      && (forall id :: id in chosen <==> id in ids && id in known)
      && (forall i, j :: 0 <= i < j < |chosen| ==> FoundLater(ids, chosen[i], chosen[j]))
  {
  }

  function AllIds<W>(thumbnails: seq<Thumbnail<W>>): seq<int> {
    seq(|thumbnails|, i requires 0 <= i < |thumbnails| => thumbnails[i].id)
  }

  lemma {:induction false} WorksAt<W>(thumbnails: seq<Thumbnail<W>>)
    requires Usable(thumbnails)
    ensures forall id :: id in WorksOf(thumbnails) <==> id in AllIds(thumbnails)
    ensures forall i :: 0 <= i < |thumbnails| ==>
      thumbnails[i].id in WorksOf(thumbnails) && WorksOf(thumbnails)[thumbnails[i].id] == thumbnails[i].work.value
    decreases |thumbnails|
  {
    if thumbnails != [] {
      var n := |thumbnails| - 1;
      WorksAt(thumbnails[..n]);
      assert AllIds(thumbnails) == AllIds(thumbnails[..n]) + [thumbnails[n].id];
    }
  }

  predicate Known<W>(works: map<int, W>, ids: seq<int>) {
    forall i :: 0 <= i < |ids| ==> ids[i] in works
  }

  /** The works of the ids, in that order. */
  function Pick<W>(works: map<int, W>, ids: seq<int>): seq<W>
    requires Known(works, ids)
  {
    seq(|ids|, i requires 0 <= i < |ids| => works[ids[i]])
  }

  predicate AllPositive(ids: seq<int>) {
    forall i :: 0 <= i < |ids| ==> ids[i] > 0
  }

  /** The order in which works are shown: the page's, or without one the thumbnails' own. */
  function Shown<W>(thumbnails: seq<Thumbnail<W>>, page: Option<seq<int>>): seq<int>
    requires Usable(thumbnails)
  {
    if page.Some? then FirstOccurrences(page.value, WorksOf(thumbnails).Keys) else AllIds(thumbnails)
  }

  lemma ShownAreKnown<W>(thumbnails: seq<Thumbnail<W>>, page: Option<seq<int>>)
    requires Usable(thumbnails)
    ensures Known(WorksOf(thumbnails), Shown(thumbnails, page))
  {
    var ids := Shown(thumbnails, page);
    WorksAt(thumbnails);
    if page.Some? {
      FirstOccurrencesMembers(page.value, WorksOf(thumbnails).Keys);
    }
  }

  lemma FirstOccurrencesKnown<W>(ids: seq<int>, works: map<int, W>)
    ensures Known(works, FirstOccurrences(ids, works.Keys))
  {
    FirstOccurrencesMembers(ids, works.Keys);
  }

  lemma UsableNext<W>(thumbnails: seq<Thumbnail<W>>, i: nat)
    requires i < |thumbnails| && Usable(thumbnails[..i])
    ensures thumbnails[i].id > 0 && thumbnails[i].work.Some? && thumbnails[i].id !in WorksOf(thumbnails[..i]) ==>
      && Usable(thumbnails[..i + 1])
      && WorksOf(thumbnails[..i + 1]) == WorksOf(thumbnails[..i])[thumbnails[i].id := thumbnails[i].work.value]
    ensures thumbnails[i].id in WorksOf(thumbnails[..i]) ==> !Usable(thumbnails)
    ensures AllIds(thumbnails[..i + 1]) == AllIds(thumbnails[..i]) + [thumbnails[i].id]
  {
    var first, longer := thumbnails[..i], thumbnails[..i + 1];
    WorksAt(first);
    assert longer[..i] == first && longer == first + [thumbnails[i]];
    if thumbnails[i].id in WorksOf(first) {
      var k :| 0 <= k < i && AllIds(first)[k] == thumbnails[i].id;
      assert thumbnails[k].id == thumbnails[i].id;
    }
  }

  /** Collects the thumbnails by id; a repeated id is an error. */
  method Collect<W>(thumbnails: seq<Thumbnail<W>>) returns (result: Result<(map<int, W>, seq<int>), MapError>)
    ensures result.Ok? <==> Usable(thumbnails)
    ensures result.Ok? ==> result.value == (WorksOf(thumbnails), AllIds(thumbnails))
    ensures result.Err? ==> !result.error.ThumbnailOrder? && !result.error.PageId?
  {
    var works: map<int, W> := map[];
    var order: seq<int> := [];
    var i := 0;
    while i < |thumbnails|
      invariant 0 <= i <= |thumbnails| && Usable(thumbnails[..i])
      invariant works == WorksOf(thumbnails[..i]) && order == AllIds(thumbnails[..i])
    {
      var thumbnail := thumbnails[i];
      UsableNext(thumbnails, i);
      if thumbnail.id <= 0 {
        return Err(ThumbnailId);
      }
      if thumbnail.work.None? {
        return Err(ThumbnailWork(thumbnail.id));
      }
      if thumbnail.id in works {
        return Err(DuplicateThumbnail(thumbnail.id));
      }
      works := works[thumbnail.id := thumbnail.work.value];
      order := order + [thumbnail.id];
      i := i + 1;
    }
    assert thumbnails[..i] == thumbnails;
    return Ok((works, order));
  }

  /** Takes works out by the ids of the page, until an id is no id. */
  method Drain<W>(works: map<int, W>, ids: seq<int>) returns (result: Result<seq<W>, MapError>)
    ensures result.Ok? <==> AllPositive(ids)
    ensures Known(works, FirstOccurrences(ids, works.Keys))
    ensures result.Ok? ==> result.value == Pick(works, FirstOccurrences(ids, works.Keys))
    ensures result.Err? ==> result.error == PageId
  {
    var left := works;
    var items: seq<W> := [];
    ghost var taken: seq<int> := [];
    var i := 0;
    FirstOccurrencesKnown(ids, works);
    while i < |ids|
      invariant 0 <= i <= |ids| && AllPositive(ids[..i])
      invariant left.Keys <= works.Keys && forall id :: id in left ==> left[id] == works[id]
      invariant Known(works, taken)
      invariant items == Pick(works, taken)
      invariant taken + FirstOccurrences(ids[i..], left.Keys) == FirstOccurrences(ids, works.Keys)
    {
      var id := ids[i];
      assert ids[i..][0] == id && ids[i..][1..] == ids[i + 1..];
      if id <= 0 {
        return Err(PageId);
      }
      if id in left {
        items := items + [left[id]];
        left := left - {id};
        taken := taken + [id];
      }
      i := i + 1;
    }
    assert taken == FirstOccurrences(ids, works.Keys);
    return Ok(items);
  }

  /**
   * The shown works: with page ids those that have a thumbnail, each once and in the page's order;
   * without, all of them in the order of the thumbnails. A thumbnail's id is never missing.
   */
  method MapFollowLatest<W>(thumbnails: seq<Thumbnail<W>>, page: Option<seq<int>>)
    returns (result: Result<seq<W>, MapError>)
    ensures result.Ok? <==> Usable(thumbnails) && (page.Some? ==> AllPositive(page.value))
    ensures result.Err? ==> result.error != ThumbnailOrder
    ensures Usable(thumbnails) && page.Some? && !AllPositive(page.value) ==> result == Err(PageId)
    ensures result.Ok? ==>
      && Known(WorksOf(thumbnails), Shown(thumbnails, page))
      && result.value == Pick(WorksOf(thumbnails), Shown(thumbnails, page))
  {
    var collected := Collect(thumbnails);
    if collected.Err? {
      return Err(collected.error);
    }
    var (works, order) := collected.value;
    ShownAreKnown(thumbnails, page);
    if page.Some? {
      result := Drain(works, page.value);
      return;
    }
    AllKnown(thumbnails);
    result := TakeInOrder(works, order);
  }

  predicate Distinct(ids: seq<int>) {
    forall i, j :: 0 <= i < j < |ids| ==> ids[i] != ids[j]
  }

  /** Takes works out in a given order, which fails exactly when one is missing or taken already. */
  method TakeInOrder<W>(works: map<int, W>, order: seq<int>) returns (result: Result<seq<W>, MapError>)
    ensures result.Ok? <==> Known(works, order) && Distinct(order)
    ensures result.Ok? ==> result.value == Pick(works, order)
    ensures result.Err? ==> result.error == ThumbnailOrder
  {
    var items: seq<W> := [];
    var left := works;
    var i := 0;
    while i < |order|
      invariant 0 <= i <= |order| && Known(works, order[..i]) && Distinct(order[..i])
      invariant items == Pick(works, order[..i])
      invariant forall id :: id in left <==> id in works && id !in order[..i]
      invariant forall id :: id in left ==> left[id] == works[id]
    {
      var id := order[i];
      assert order[..i + 1] == order[..i] + [id];
      if id !in left {
        Missing(works, order, i);
        return Err(ThumbnailOrder);
      }
      items := items + [left[id]];
      left := left - {id};
      i := i + 1;
    }
    assert order[..i] == order;
    return Ok(items);
  }

  lemma Missing<W>(works: map<int, W>, order: seq<int>, i: nat)
    requires i < |order| && (order[i] !in works || order[i] in order[..i])
    ensures !(Known(works, order) && Distinct(order))
  {
    if order[i] in order[..i] {
      var k :| 0 <= k < i && order[..i][k] == order[i];
      assert order[k] == order[i];
    }
  }

  lemma AllKnown<W>(thumbnails: seq<Thumbnail<W>>)
    requires Usable(thumbnails)
    ensures Known(WorksOf(thumbnails), AllIds(thumbnails)) && Distinct(AllIds(thumbnails))
  {
    WorksAt(thumbnails);
  }
}
