/** Python's stable sort of items by an index that comes with each of them. */
module IndexSort {

  function Insert<T>(item: (nat, T), sorted: seq<(nat, T)>): seq<(nat, T)> {
    if sorted == [] || item.0 <= sorted[0].0 then [item] + sorted
    else [sorted[0]] + Insert(item, sorted[1..])
  }

  function ByIndex<T>(items: seq<(nat, T)>): seq<(nat, T)> {
    if items == [] then [] else Insert(items[0], ByIndex(items[1..]))
  }

  function Values<T>(items: seq<(nat, T)>): (values: seq<T>)
    ensures |values| == |items|
    ensures forall i | 0 <= i < |items| :: values[i] == items[i].1
  {
    seq(|items|, i requires 0 <= i < |items| => items[i].1)
  }

  predicate Ascending<T>(items: seq<(nat, T)>) {
    forall i, j | 0 <= i < j < |items| :: items[i].0 < items[j].0
  }

  predicate Sorted<T>(items: seq<(nat, T)>) {
    forall i, j | 0 <= i < j < |items| :: items[i].0 <= items[j].0
  }

  predicate DistinctIndices<T>(items: seq<(nat, T)>) {
    forall i, j | 0 <= i < j < |items| :: items[i].0 != items[j].0
  }

  lemma HeadAndTail<T>(s: seq<T>)
    requires s != []
    ensures multiset(s) == multiset{s[0]} + multiset(s[1..])
  {
    assert s == [s[0]] + s[1..];
  }

  lemma {:induction false} InsertPermutes<T>(item: (nat, T), sorted: seq<(nat, T)>)
    ensures multiset(Insert(item, sorted)) == multiset(sorted) + multiset{item}
    ensures |Insert(item, sorted)| == |sorted| + 1
  {
    if sorted != [] && item.0 > sorted[0].0 {
      InsertPermutes(item, sorted[1..]);
      HeadAndTail(sorted);
    }
  }

  lemma {:induction false} InsertSorts<T>(item: (nat, T), sorted: seq<(nat, T)>)
    requires Sorted(sorted)
    ensures Sorted(Insert(item, sorted))
  {
    if sorted != [] && item.0 > sorted[0].0 {
      InsertSorts(item, sorted[1..]);
      InsertPermutes(item, sorted[1..]);
      var tail := Insert(item, sorted[1..]);
      forall k | 0 <= k < |tail| ensures sorted[0].0 <= tail[k].0 {
        assert tail[k] in multiset(tail);
        assert tail[k] == item || tail[k] in sorted[1..];
      }
    }
  }

  lemma {:induction false} ByIndexSorts<T>(items: seq<(nat, T)>)
    ensures Sorted(ByIndex(items)) && multiset(ByIndex(items)) == multiset(items) && |ByIndex(items)| == |items|
  {
    if items != [] {
      ByIndexSorts(items[1..]);
      InsertSorts(items[0], ByIndex(items[1..]));
      InsertPermutes(items[0], ByIndex(items[1..]));
      HeadAndTail(items);
    }
  }

  lemma SameHead<T>(a: seq<(nat, T)>, b: seq<(nat, T)>)
    requires Ascending(a) && Ascending(b) && multiset(a) == multiset(b) && a != []
    ensures b != [] && a[0] == b[0]
  {
    assert a[0] in multiset(b);
    assert b[0] in multiset(a);
    var i :| 0 <= i < |b| && b[i] == a[0];
    var j :| 0 <= j < |a| && a[j] == b[0];
  }

  lemma SameTails<T>(a: seq<T>, b: seq<T>)
    requires a != [] && b != [] && a[0] == b[0] && multiset(a) == multiset(b)
    ensures multiset(a[1..]) == multiset(b[1..])
  {
    HeadAndTail(a);
    HeadAndTail(b);
    assert multiset(a[1..]) == multiset(a) - multiset{a[0]};
    assert multiset(b[1..]) == multiset(b) - multiset{b[0]};
  }

  lemma SameParts<T>(a: seq<T>, b: seq<T>)
    requires a != [] && b != [] && a[0] == b[0] && a[1..] == b[1..]
    ensures a == b
  {
    assert a == [a[0]] + a[1..] && b == [b[0]] + b[1..];
  }

  /** Two ascending lists of the same items are the same list. */
  lemma {:induction false} AscendingUnique<T>(a: seq<(nat, T)>, b: seq<(nat, T)>)
    requires Ascending(a) && Ascending(b) && multiset(a) == multiset(b)
    ensures a == b
    decreases |a|
  {
    if a == [] {
      if b != [] {
        HeadAndTail(b);
      }
    } else {
      SameHead(a, b);
      SameTails(a, b);
      AscendingUnique(a[1..], b[1..]);
      SameParts(a, b);
    }
  }

  lemma DistinctOfMultiset<T>(a: seq<(nat, T)>, b: seq<(nat, T)>)
    requires DistinctIndices(a) && multiset(a) == multiset(b) && Sorted(b)
    ensures Ascending(b)
  {
    forall i, j | 0 <= i < j < |b| ensures b[i].0 < b[j].0 {
      if b[i].0 == b[j].0 {
        assert b[i] in multiset(a) && b[j] in multiset(a);
        var x :| 0 <= x < |a| && a[x] == b[i];
        var y :| 0 <= y < |a| && a[y] == b[j];
        assert x == y;
        TwiceInB(b, i, j);
        OnceInA(a, x);
      }
    }
  }

  lemma TwiceInB<T>(b: seq<(nat, T)>, i: nat, j: nat)
    requires i < j < |b| && b[i] == b[j]
    ensures multiset(b)[b[i]] >= 2
  {
    assert b == b[..i] + [b[i]] + b[i + 1..j] + [b[j]] + b[j + 1..];
  }

  lemma OnceInA<T>(a: seq<(nat, T)>, x: nat)
    requires DistinctIndices(a) && x < |a|
    ensures multiset(a)[a[x]] == 1
  {
    assert a == a[..x] + [a[x]] + a[x + 1..];
    assert a[x] !in a[..x] && a[x] !in a[x + 1..];
  }

  /** Sorting restores the ascending arrangement, however its items were shuffled. */
  lemma SortRestores<T>(shuffled: seq<(nat, T)>, inOrder: seq<(nat, T)>)
    requires Ascending(inOrder) && multiset(shuffled) == multiset(inOrder)
    ensures ByIndex(shuffled) == inOrder
  {
    ByIndexSorts(shuffled);
    DistinctOfMultiset(inOrder, ByIndex(shuffled));
    AscendingUnique(ByIndex(shuffled), inOrder);
  }

  // --------------------------------------------------------------- mapping

  function MapValues<T, U>(items: seq<(nat, T)>, f: T -> U): (mapped: seq<(nat, U)>)
    ensures |mapped| == |items|
    ensures forall i | 0 <= i < |items| :: mapped[i] == (items[i].0, f(items[i].1))
  {
    seq(|items|, i requires 0 <= i < |items| => (items[i].0, f(items[i].1)))
  }

  lemma {:induction false} InsertMap<T, U>(item: (nat, T), sorted: seq<(nat, T)>, f: T -> U)
    ensures MapValues(Insert(item, sorted), f) == Insert((item.0, f(item.1)), MapValues(sorted, f))
  {
    if sorted != [] && item.0 > sorted[0].0 {
      InsertMap(item, sorted[1..], f);
      assert MapValues(sorted, f)[1..] == MapValues(sorted[1..], f);
    }
  }

  /** Sorting looks at the indices only. */
  lemma {:induction false} ByIndexMap<T, U>(items: seq<(nat, T)>, f: T -> U)
    ensures MapValues(ByIndex(items), f) == ByIndex(MapValues(items, f))
  {
    if items != [] {
      ByIndexMap(items[1..], f);
      InsertMap(items[0], ByIndex(items[1..]), f);
      assert MapValues(items, f)[1..] == MapValues(items[1..], f);
    }
  }

  lemma {:induction false} IndexAtLeast<T>(items: seq<(nat, T)>, k: nat)
    requires Ascending(items) && k < |items|
    ensures items[k].0 >= k
  {
    if k > 0 {
      IndexAtLeast(items, k - 1);
    }
  }

  lemma {:induction false} IndexAtMost<T>(items: seq<(nat, T)>, k: nat)
    requires Ascending(items) && k < |items| && forall i | 0 <= i < |items| :: items[i].0 < |items|
    ensures items[k].0 <= k
    decreases |items| - k
  {
    if k + 1 < |items| {
      IndexAtMost(items, k + 1);
    }
  }

  /** As many items as there are indices, one each: sorting puts item k in place k. */
  lemma SortPlaces<T>(items: seq<(nat, T)>, k: nat)
    requires DistinctIndices(items) && k < |items| && forall i | 0 <= i < |items| :: items[i].0 < |items|
    ensures |ByIndex(items)| == |items| && ByIndex(items)[k].0 == k && ByIndex(items)[k] in items
  {
    ByIndexSorts(items);
    var sorted := ByIndex(items);
    DistinctOfMultiset(items, sorted);
    forall i | 0 <= i < |sorted| ensures sorted[i] in items {
      assert sorted[i] in multiset(sorted);
    }
    IndexAtLeast(sorted, k);
    IndexAtMost(sorted, k);
  }

  // ------------------------------------------------------------ any order

  function Mapped<T, U>(items: seq<T>, f: T -> U): (mapped: seq<U>)
    ensures |mapped| == |items|
    ensures forall i | 0 <= i < |items| :: mapped[i] == f(items[i])
  {
    seq(|items|, i requires 0 <= i < |items| => f(items[i]))
  }

  lemma MappedConcat<T, U>(a: seq<T>, b: seq<T>, f: T -> U)
    ensures Mapped(a + b, f) == Mapped(a, f) + Mapped(b, f)
  {
  }

  lemma TakenOut<T>(a: seq<T>, b: seq<T>, i: nat)
    requires a != [] && multiset(a) == multiset(b) && i < |b| && b[i] == a[0]
    ensures multiset(a[1..]) == multiset(b[..i] + b[i + 1..])
  {
    HeadAndTail(a);
    assert b == b[..i] + [b[i]] + b[i + 1..];
    assert multiset(b) == multiset(b[..i]) + multiset{b[i]} + multiset(b[i + 1..]);
    assert multiset(a[1..]) == multiset(a) - multiset{a[0]};
  }

  /** Rearranging items rearranges what is made of them. */
  lemma {:induction false} PermutedMap<T, U>(a: seq<T>, b: seq<T>, f: T -> U)
    requires multiset(a) == multiset(b)
    ensures multiset(Mapped(a, f)) == multiset(Mapped(b, f))
    decreases |a|
  {
    if a == [] {
      if b != [] {
        HeadAndTail(b);
      }
    } else {
      assert a[0] in multiset(b);
      var i :| 0 <= i < |b| && b[i] == a[0];
      TakenOut(a, b, i);
      PermutedMap(a[1..], b[..i] + b[i + 1..], f);
      hide Mapped;
      MappedConcat(b[..i], b[i + 1..], f);
      MappedConcat(b[..i], [b[i]], f);
      MappedConcat(b[..i] + [b[i]], b[i + 1..], f);
      MappedConcat([a[0]], a[1..], f);
      assert b == b[..i] + [b[i]] + b[i + 1..] && a == [a[0]] + a[1..];
    }
  }
}
