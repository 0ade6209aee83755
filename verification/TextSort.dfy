/** Python's ordering of strings, and sorted lists of them. */
module TextSort {
  import IndexSort

  /** Code point by code point; a prefix comes first. */
  predicate Upto(a: string, b: string) {
    if a == "" then true
    else if b == "" then false
    else a[0] < b[0] || (a[0] == b[0] && Upto(a[1..], b[1..]))
  }

  lemma {:induction false} Reflexive(a: string)
    ensures Upto(a, a)
  {
    if a != "" {
      Reflexive(a[1..]);
    }
  }

  lemma {:induction false} Total(a: string, b: string)
    ensures Upto(a, b) || Upto(b, a)
  {
    if a != "" && b != "" {
      Total(a[1..], b[1..]);
    }
  }

  lemma {:induction false} Transitive(a: string, b: string, c: string)
    requires Upto(a, b) && Upto(b, c)
    ensures Upto(a, c)
  {
    if a != "" {
      if a[0] == b[0] == c[0] {
        Transitive(a[1..], b[1..], c[1..]);
      }
    }
  }

  lemma {:induction false} Antisymmetric(a: string, b: string)
    requires Upto(a, b) && Upto(b, a)
    ensures a == b
  {
    if a != "" && b != "" {
      Antisymmetric(a[1..], b[1..]);
      assert a == [a[0]] + a[1..] && b == [b[0]] + b[1..];
    }
  }

  // ----------------------------------------------------------------- sorting

  function Insert(text: string, sorted: seq<string>): seq<string> {
    if sorted == [] || Upto(text, sorted[0]) then [text] + sorted
    else [sorted[0]] + Insert(text, sorted[1..])
  }

  function Sort(texts: seq<string>): seq<string> {
    if texts == [] then [] else Insert(texts[0], Sort(texts[1..]))
  }

  ghost predicate Sorted(texts: seq<string>) {
    forall i, j | 0 <= i < j < |texts| :: Upto(texts[i], texts[j])
  }

  lemma {:induction false} InsertPermutes(text: string, sorted: seq<string>)
    ensures multiset(Insert(text, sorted)) == multiset(sorted) + multiset{text}
    ensures forall t :: t in Insert(text, sorted) <==> t in sorted || t == text
  {
    if sorted != [] {
      IndexSort.HeadAndTail(sorted);
      assert sorted == [sorted[0]] + sorted[1..];
      InsertPermutes(text, sorted[1..]);
    }
  }

  lemma {:induction false} InsertSorts(text: string, sorted: seq<string>)
    requires Sorted(sorted)
    ensures Sorted(Insert(text, sorted))
  {
    if sorted != [] {
      var first, rest := sorted[0], sorted[1..];
      if Upto(text, first) {
        Reflexive(first);
        forall j | 0 <= j < |sorted| ensures Upto(text, sorted[j]) {
          Transitive(text, first, sorted[j]);
        }
      } else {
        Total(text, first);
        InsertSorts(text, rest);
        InsertPermutes(text, rest);
        var tail := Insert(text, rest);
        forall j | 0 <= j < |tail| ensures Upto(first, tail[j]) {
          assert tail[j] in tail;
        }
      }
    }
  }

  lemma {:induction false} SortIsRight(texts: seq<string>)
    ensures Sorted(Sort(texts)) && multiset(Sort(texts)) == multiset(texts)
    ensures forall t :: t in Sort(texts) <==> t in texts
  {
    if texts != [] {
      SortIsRight(texts[1..]);
      InsertSorts(texts[0], Sort(texts[1..]));
      InsertPermutes(texts[0], Sort(texts[1..]));
      IndexSort.HeadAndTail(texts);
    }
    SameMembers(Sort(texts), texts);
  }

  lemma SameMembers(a: seq<string>, b: seq<string>)
    requires multiset(a) == multiset(b)
    ensures forall t :: t in a <==> t in b
  {
    forall t ensures t in a <==> t in b {
      assert t in multiset(a) <==> t in multiset(b);
    }
  }

  /** A sorted arrangement is unique. */
  lemma {:induction false} SortedUnique(a: seq<string>, b: seq<string>)
    requires Sorted(a) && Sorted(b) && multiset(a) == multiset(b)
    ensures a == b
    decreases |a|
  {
    if a == [] || b == [] {
      if a != [] {
        IndexSort.HeadAndTail(a);
      } else if b != [] {
        IndexSort.HeadAndTail(b);
      }
    } else {
      SameMembers(a, b);
      LeastFirst(a, b[0]);
      LeastFirst(b, a[0]);
      Antisymmetric(a[0], b[0]);
      IndexSort.SameTails(a, b);
      SortedUnique(a[1..], b[1..]);
      IndexSort.SameParts(a, b);
    }
  }

  lemma LeastFirst(a: seq<string>, text: string)
    requires Sorted(a) && text in a
    ensures Upto(a[0], text)
  {
    Reflexive(a[0]);
  }

  /** The order of the input does not matter. */
  lemma SortForgetsOrder(a: seq<string>, b: seq<string>)
    requires multiset(a) == multiset(b)
    ensures Sort(a) == Sort(b)
  {
    SortIsRight(a);
    SortIsRight(b);
    SortedUnique(Sort(a), Sort(b));
  }

  // -------------------------------------------------------------------- sets

  lemma {:induction false} HasLeast(texts: set<string>) returns (least: string)
    requires texts != {}
    ensures least in texts && forall t | t in texts :: Upto(least, t)
    decreases |texts|
  {
    var some :| some in texts;
    var rest := texts - {some};
    assert texts == rest + {some};
    if rest == {} {
      least := some;
      Reflexive(some);
    } else {
      var other := HasLeast(rest);
      Total(some, other);
      Reflexive(some);
      least := if Upto(some, other) then some else other;
      forall t | t in texts ensures Upto(least, t) {
        if t != some {
          assert t in rest;
          Transitive(least, other, t);
        }
      }
    }
  }

  lemma LeastUnique(texts: set<string>, a: string, b: string)
    requires a in texts && (forall t | t in texts :: Upto(a, t))
    requires b in texts && (forall t | t in texts :: Upto(b, t))
    ensures a == b
  {
    Antisymmetric(a, b);
  }

  lemma LeastExists(texts: set<string>)
    requires texts != {}
    ensures exists least :: least in texts && forall t | t in texts :: Upto(least, t)
    ensures forall a, b | a in texts && (forall t | t in texts :: Upto(a, t))
                          && b in texts && (forall t | t in texts :: Upto(b, t)) :: a == b
  {
    var _ := HasLeast(texts);
    forall a, b | a in texts && (forall t | t in texts :: Upto(a, t)) && b in texts && (forall t | t in texts :: Upto(b, t))
      ensures a == b
    {
      LeastUnique(texts, a, b);
    }
  }

  function Least(texts: set<string>): (least: string)
    requires texts != {}
    ensures least in texts && forall t | t in texts :: Upto(least, t)
  {
    LeastExists(texts);
    var least :| least in texts && forall t | t in texts :: Upto(least, t);
    least
  }

  /** The members of a set in order, once each. */
  function Ascending(texts: set<string>): (sorted: seq<string>)
    ensures forall t :: t in sorted <==> t in texts
    ensures |sorted| == |texts|
  {
    if texts == {} then []
    else
      var least := Least(texts);
      [least] + Ascending(texts - {least})
  }

  lemma {:induction false} AscendingSorted(texts: set<string>)
    ensures Sorted(Ascending(texts))
    ensures forall i, j | 0 <= i < j < |texts| :: Ascending(texts)[i] != Ascending(texts)[j]
  {
    if texts != {} {
      AscendingSorted(texts - {Least(texts)});
    }
  }
}
