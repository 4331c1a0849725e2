/** Stable sorting by a key, as the repositories order a batch before they take its locks. */
module Sorting {

  function Insert<T>(key: T -> int, item: T, sorted: seq<T>): seq<T>
    decreases |sorted|
  {
    if sorted == [] || key(item) <= key(sorted[0]) then [item] + sorted
    else [sorted[0]] + Insert(key, item, sorted[1..])
  }

  /** The items in the order of their keys; those of one key stay in their order. */
  function SortBy<T>(key: T -> int, items: seq<T>): seq<T>
    decreases |items|
  {
    if items == [] then [] else Insert(key, items[0], SortBy(key, items[1..]))
  }

  ghost predicate Ascends<T>(key: T -> int, items: seq<T>) {
    forall i, j :: 0 <= i < j < |items| ==> key(items[i]) <= key(items[j])
  }

  ghost predicate StrictlyAscends<T>(key: T -> int, items: seq<T>) {
    forall i, j :: 0 <= i < j < |items| ==> key(items[i]) < key(items[j])
  }

  function OfKey<T>(key: T -> int, items: seq<T>, k: int): seq<T>
    decreases |items|
  {
    if items == [] then []
    else (if key(items[0]) == k then [items[0]] else []) + OfKey(key, items[1..], k)
  }

  lemma {:induction false} InsertElements<T>(key: T -> int, item: T, sorted: seq<T>)
    ensures multiset(Insert(key, item, sorted)) == multiset{item} + multiset(sorted)
    decreases |sorted|
  {
    if sorted != [] && key(item) > key(sorted[0]) {
      InsertElements(key, item, sorted[1..]);
      assert sorted == [sorted[0]] + sorted[1..];
    }
  }

  lemma {:induction false} InsertAscends<T>(key: T -> int, item: T, sorted: seq<T>)
    requires Ascends(key, sorted)
    ensures Ascends(key, Insert(key, item, sorted))
    ensures forall r :: r in Insert(key, item, sorted) ==> r == item || r in sorted
    decreases |sorted|
  {
    if sorted != [] && key(item) > key(sorted[0]) {
      var rest := Insert(key, item, sorted[1..]);
      InsertAscends(key, item, sorted[1..]);
      forall r | r in rest
        ensures key(sorted[0]) <= key(r)
      {
      }
    }
  }

  lemma {:induction false} InsertStable<T>(key: T -> int, item: T, sorted: seq<T>, k: int)
    ensures OfKey(key, Insert(key, item, sorted), k) == OfKey(key, [item], k) + OfKey(key, sorted, k)
    decreases |sorted|
  {
    OfKeyFirst(key, item, [], k);
    if sorted == [] || key(item) <= key(sorted[0]) {
      OfKeyFirst(key, item, sorted, k);
    } else {
      InsertStable(key, item, sorted[1..], k);
      OfKeyFirst(key, sorted[0], Insert(key, item, sorted[1..]), k);
      assert key(sorted[0]) != key(item);
    }
  }

  lemma OfKeyFirst<T>(key: T -> int, item: T, rest: seq<T>, k: int)
    ensures OfKey(key, [item] + rest, k) == (if key(item) == k then [item] else []) + OfKey(key, rest, k)
  {
  }

  /** Sorting reorders the items, ascending. */
  lemma {:induction false} SortBySorts<T>(key: T -> int, items: seq<T>)
    ensures Ascends(key, SortBy(key, items))
    ensures multiset(SortBy(key, items)) == multiset(items)
    decreases |items|
  {
    if items != [] {
      SortBySorts(key, items[1..]);
      InsertElements(key, items[0], SortBy(key, items[1..]));
      InsertAscends(key, items[0], SortBy(key, items[1..]));
      assert items == [items[0]] + items[1..];
    }
  }

  /** Sorting is stable. */
  lemma {:induction false} SortByStable<T>(key: T -> int, items: seq<T>, k: int)
    ensures OfKey(key, SortBy(key, items), k) == OfKey(key, items, k)
    decreases |items|
  {
    if items != [] {
      SortByStable(key, items[1..], k);
      InsertStable(key, items[0], SortBy(key, items[1..]), k);
      OfKeyFirst(key, items[0], [], k);
    }
  }

  /** Two neighbours with one key. */
  predicate Repeats<T>(key: T -> int, items: seq<T>) {
    exists i :: 0 <= i < |items| - 1 && key(items[i]) == key(items[i + 1])
  }

  lemma NoRepeatStrict<T>(key: T -> int, items: seq<T>)
    requires Ascends(key, items) && !Repeats(key, items)
    ensures StrictlyAscends(key, items)
  {
    forall i, j | 0 <= i < j < |items|
      ensures key(items[i]) < key(items[j])
    {
      assert key(items[i]) <= key(items[i + 1]);
      assert i + 1 == j || key(items[i + 1]) <= key(items[j]);
    }
  }

  lemma SortedMembers<T>(key: T -> int, items: seq<T>)
    ensures |SortBy(key, items)| == |items|
    ensures forall x :: x in SortBy(key, items) <==> x in items
  {
    SortBySorts(key, items);
    assert |multiset(SortBy(key, items))| == |multiset(items)|;
    forall x
      ensures x in SortBy(key, items) <==> x in items
    {
      assert x in multiset(SortBy(key, items)) <==> x in multiset(items);
    }
  }

  /** Two items have one key. */
  predicate Duplicates<T>(key: T -> int, items: seq<T>) {
    exists i, j :: 0 <= i < j < |items| && key(items[i]) == key(items[j])
  }

  /** Sorted neighbours share a key exactly when two of the items do. */
  lemma RepeatsWhenDuplicate<T>(key: T -> int, items: seq<T>)
    ensures Repeats(key, SortBy(key, items)) <==> Duplicates(key, items)
  {
    if Repeats(key, SortBy(key, items)) {
      RepeatsDuplicate(key, items);
    }
    if Duplicates(key, items) {
      DuplicatesRepeat(key, items);
    }
  }

  lemma RepeatsDuplicate<T>(key: T -> int, items: seq<T>)
    requires Repeats(key, SortBy(key, items))
    ensures Duplicates(key, items)
  {
    var sorted := SortBy(key, items);
    var n :| 0 <= n < |sorted| - 1 && key(sorted[n]) == key(sorted[n + 1]);
    CountsTwo(key, sorted, n, n + 1, key(sorted[n]));
    SortByStable(key, items, key(sorted[n]));
    TwoOfKey(key, items, key(sorted[n]));
  }

  lemma DuplicatesRepeat<T>(key: T -> int, items: seq<T>)
    requires Duplicates(key, items)
    ensures Repeats(key, SortBy(key, items))
  {
    var i, j :| 0 <= i < j < |items| && key(items[i]) == key(items[j]);
    var k := key(items[i]);
    CountsTwo(key, items, i, j, k);
    SortByStable(key, items, k);
    SortBySorts(key, items);
    SortedTwiceRepeats(key, SortBy(key, items), k);
  }

  lemma SortedTwiceRepeats<T>(key: T -> int, sorted: seq<T>, k: int)
    requires Ascends(key, sorted) && |OfKey(key, sorted, k)| >= 2
    ensures Repeats(key, sorted)
  {
    TwoOfKey(key, sorted, k);
    var a, b :| 0 <= a < b < |sorted| && key(sorted[a]) == k && key(sorted[b]) == k;
    assert key(sorted[a]) <= key(sorted[a + 1]);
    assert a + 1 == b || key(sorted[a + 1]) <= key(sorted[b]);
  }

  lemma {:induction false} CountsTwo<T>(key: T -> int, items: seq<T>, i: nat, j: nat, k: int)
    requires i < j < |items| && key(items[i]) == k == key(items[j])
    ensures |OfKey(key, items, k)| >= 2
    decreases |items|
  {
    if i > 0 {
      CountsTwo(key, items[1..], i - 1, j - 1, k);
    } else {
      CountsOne(key, items[1..], j - 1, k);
    }
  }

  lemma {:induction false} CountsOne<T>(key: T -> int, items: seq<T>, i: nat, k: int)
    requires i < |items| && key(items[i]) == k
    ensures |OfKey(key, items, k)| >= 1
    decreases |items|
  {
    if i > 0 {
      CountsOne(key, items[1..], i - 1, k);
    }
  }

  lemma {:induction false} OneOfKey<T>(key: T -> int, items: seq<T>, k: int)
    requires |OfKey(key, items, k)| >= 1
    ensures exists i :: 0 <= i < |items| && key(items[i]) == k
    decreases |items|
  {
    if key(items[0]) != k {
      OneOfKey(key, items[1..], k);
      var i :| 0 <= i < |items[1..]| && key(items[1..][i]) == k;
      assert key(items[i + 1]) == k;
    }
  }

  lemma {:induction false} TwoOfKey<T>(key: T -> int, items: seq<T>, k: int)
    requires |OfKey(key, items, k)| >= 2
    ensures exists i, j :: 0 <= i < j < |items| && key(items[i]) == k && key(items[j]) == k
    decreases |items|
  {
    var rest := items[1..];
    if key(items[0]) == k {
      OneOfKey(key, rest, k);
      var j :| 0 <= j < |rest| && key(rest[j]) == k;
      assert key(items[j + 1]) == k;
    } else {
      TwoOfKey(key, rest, k);
      var i, j :| 0 <= i < j < |rest| && key(rest[i]) == k && key(rest[j]) == k;
      assert key(items[i + 1]) == k && key(items[j + 1]) == k;
    }
  }
}
