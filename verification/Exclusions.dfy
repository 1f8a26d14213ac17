/** Exclusion lists: the canonical order the API gives them, and what disjointness means for a
    list and for the set of ranges the server holds. */
module Exclusions {
  import opened Addresses

  /** The sort key (start, end), ascending. */
  predicate Before(a: Range, b: Range) {
    a.start < b.start || (a.start == b.start && a.end <= b.end)
  }

  ghost predicate Sorted(xs: seq<Range>) {
    forall i, j :: 0 <= i < j < |xs| ==> Before(xs[i], xs[j])
  }

  ghost predicate AllWellFormed(xs: seq<Range>) {
    forall i :: 0 <= i < |xs| ==> xs[i].WellFormed()
  }

  /** No two entries of the list share an address. */
  ghost predicate DisjointEntries(xs: seq<Range>) {
    forall i, j :: 0 <= i < j < |xs| ==> !Overlap(xs[i], xs[j])
  }

  /** The canonical form: every entry ends before the next begins. */
  ghost predicate Ascending(xs: seq<Range>) {
    forall i, j :: 0 <= i < j < |xs| ==> xs[i].end < xs[j].start
  }

  ghost predicate NeighboursApart(xs: seq<Range>) {
    forall i :: 0 <= i < |xs| - 1 ==> xs[i].end < xs[i + 1].start
  }

  function ToSet(xs: seq<Range>): set<Range> {
    set e | e in xs
  }

  function Insert(e: Range, xs: seq<Range>): seq<Range> {
    if xs == [] then [e]
    else if Before(e, xs[0]) then [e] + xs
    else [xs[0]] + Insert(e, xs[1..])
  }

  /** Python's `sorted` with the key (start, end). */
  function Sort(xs: seq<Range>): seq<Range> {
    if xs == [] then [] else Insert(xs[0], Sort(xs[1..]))
  }

  lemma {:induction false} InsertKeepsElements(e: Range, xs: seq<Range>)
    ensures multiset(Insert(e, xs)) == multiset(xs) + multiset{e}
  {
    if xs != [] && !Before(e, xs[0]) {
      InsertKeepsElements(e, xs[1..]);
      assert xs == [xs[0]] + xs[1..];
    }
  }

  lemma {:induction false} InsertKeepsOrder(e: Range, xs: seq<Range>)
    requires Sorted(xs)
    ensures Sorted(Insert(e, xs))
  {
    if xs != [] && !Before(e, xs[0]) {
      InsertKeepsOrder(e, xs[1..]);
      InsertKeepsElements(e, xs[1..]);
      var rest := Insert(e, xs[1..]);
      forall j | 0 <= j < |rest|
        ensures Before(xs[0], rest[j])
      {
        assert rest[j] in multiset(rest);
        assert rest[j] == e || rest[j] in xs[1..];
      }
    }
  }

  lemma {:induction false} SortIsSortedPermutation(xs: seq<Range>)
    ensures Sorted(Sort(xs))
    ensures multiset(Sort(xs)) == multiset(xs)
  {
    if xs != [] {
      SortIsSortedPermutation(xs[1..]);
      InsertKeepsOrder(xs[0], Sort(xs[1..]));
      InsertKeepsElements(xs[0], Sort(xs[1..]));
      assert xs == [xs[0]] + xs[1..];
    }
  }

  /** Sorting leaves no choice: sorted lists with the same elements are equal. */
  lemma {:induction false} SortedPermutationsAgree(xs: seq<Range>, ys: seq<Range>)
    requires Sorted(xs) && Sorted(ys) && multiset(xs) == multiset(ys)
    ensures xs == ys
  {
    if xs == [] || ys == [] {
      assert |xs| == |multiset(xs)| && |ys| == |multiset(ys)|;
    } else {
      HeadIsLeast(xs, ys[0]);
      HeadIsLeast(ys, xs[0]);
      assert multiset(xs[1..]) == multiset(ys[1..]) by {
        TailElements(xs);
        TailElements(ys);
      }
      SortedPermutationsAgree(xs[1..], ys[1..]);
    }
  }

  lemma HeadIsLeast(xs: seq<Range>, e: Range)
    requires Sorted(xs) && e in multiset(xs)
    ensures xs != [] && Before(xs[0], e)
  {
    var i :| 0 <= i < |xs| && xs[i] == e;
  }

  lemma TailElements(xs: seq<Range>)
    requires xs != []
    ensures multiset(xs[1..]) == multiset(xs) - multiset{xs[0]}
  {
    assert xs == [xs[0]] + xs[1..];
  }

  lemma SortIgnoresOrder(xs: seq<Range>, ys: seq<Range>)
    requires multiset(xs) == multiset(ys)
    ensures Sort(xs) == Sort(ys)
  {
    SortIsSortedPermutation(xs);
    SortIsSortedPermutation(ys);
    SortedPermutationsAgree(Sort(xs), Sort(ys));
  }

  lemma SortOfSorted(xs: seq<Range>)
    requires Sorted(xs)
    ensures Sort(xs) == xs
  {
    SortIsSortedPermutation(xs);
    SortedPermutationsAgree(Sort(xs), xs);
  }

  /* ---- Neighbours are enough ---- */

  /** On a sorted list of well-formed ranges, checking each entry against the next one decides
      whether any two entries overlap. */
  lemma NeighboursDecideDisjointness(xs: seq<Range>)
    requires Sorted(xs) && AllWellFormed(xs)
    ensures NeighboursApart(xs) <==> DisjointEntries(xs)
    ensures NeighboursApart(xs) <==> Ascending(xs)
  {
    if NeighboursApart(xs) {
      forall i, j | 0 <= i < j < |xs|
        ensures xs[i].end < xs[j].start
      {
        NeighboursChain(xs, i, j);
      }
    }
    if DisjointEntries(xs) {
      forall i | 0 <= i < |xs| - 1
        ensures xs[i].end < xs[i + 1].start
      {
        assert Before(xs[i], xs[i + 1]) && !Overlap(xs[i], xs[i + 1]);
        assert xs[i].WellFormed() && xs[i + 1].WellFormed();
      }
    }
  }

  lemma {:induction false} NeighboursChain(xs: seq<Range>, i: nat, j: nat)
    requires AllWellFormed(xs) && NeighboursApart(xs) && i < j < |xs|
    ensures xs[i].end < xs[j].start
    decreases j
  {
    assert xs[j - 1].end < xs[j - 1 + 1].start;
    if i < j - 1 {
      NeighboursChain(xs, i, j - 1);
      assert xs[j - 1].WellFormed();
    }
  }

  /* ---- Lists and sets ---- */

  lemma {:induction false} RepeatedEntry(xs: seq<Range>, e: Range)
    requires multiset(xs)[e] >= 2
    ensures exists i, j :: 0 <= i < j < |xs| && xs[i] == e && xs[j] == e
  {
    assert xs == [xs[0]] + xs[1..];
    if xs[0] == e {
      assert multiset(xs[1..])[e] >= 1;
      assert e in xs[1..];
      var j :| 0 <= j < |xs[1..]| && xs[1..][j] == e;
      assert xs[0] == e && xs[j + 1] == e;
    } else {
      RepeatedEntry(xs[1..], e);
      var i, j :| 0 <= i < j < |xs[1..]| && xs[1..][i] == e && xs[1..][j] == e;
      assert xs[i + 1] == e && xs[j + 1] == e;
    }
  }

  lemma TwoEqualEntries(xs: seq<Range>, i: nat, j: nat)
    requires i < j < |xs| && xs[i] == xs[j]
    ensures multiset(xs)[xs[i]] >= 2
  {
    assert xs == xs[..j] + xs[j..];
    assert xs[i] in xs[..j] && xs[j] in xs[j..];
    assert multiset(xs) == multiset(xs[..j]) + multiset(xs[j..]);
  }

  /** Disjointness is a property of the entries, not of their order. */
  lemma DisjointnessIgnoresOrder(xs: seq<Range>, ys: seq<Range>)
    requires multiset(xs) == multiset(ys)
    requires AllWellFormed(xs) && DisjointEntries(xs)
    ensures AllWellFormed(ys) && DisjointEntries(ys)
  {
    forall i | 0 <= i < |ys|
      ensures ys[i].WellFormed()
    {
      assert ys[i] in multiset(xs);
    }
    forall i, j | 0 <= i < j < |ys|
      ensures !Overlap(ys[i], ys[j])
    {
      assert ys[i] in multiset(xs) && ys[j] in multiset(xs);
      if ys[i] == ys[j] {
        TwoEqualEntries(ys, i, j);
        RepeatedEntry(xs, ys[i]);
      } else {
        var a :| 0 <= a < |xs| && xs[a] == ys[i];
        var b :| 0 <= b < |xs| && xs[b] == ys[j];
        assert a < b || b < a;
      }
    }
  }

  /** Sorting a list of disjoint well-formed ranges gives the canonical form. */
  lemma SortIsCanonical(xs: seq<Range>)
    requires AllWellFormed(xs) && DisjointEntries(xs)
    ensures Ascending(Sort(xs)) && AllWellFormed(Sort(xs))
    ensures ToSet(Sort(xs)) == ToSet(xs)
  {
    SortIsSortedPermutation(xs);
    DisjointnessIgnoresOrder(xs, Sort(xs));
    NeighboursDecideDisjointness(Sort(xs));
    SameElementsSameSet(Sort(xs), xs);
  }

  lemma SameElementsSameSet(xs: seq<Range>, ys: seq<Range>)
    requires multiset(xs) == multiset(ys)
    ensures ToSet(xs) == ToSet(ys)
  {
    forall e
      ensures e in xs <==> e in ys
    {
      assert e in xs <==> e in multiset(xs);
      assert e in ys <==> e in multiset(ys);
    }
  }

  lemma AscendingIsDisjoint(xs: seq<Range>)
    requires AllWellFormed(xs) && Ascending(xs)
    ensures Sorted(xs) && DisjointEntries(xs) && PairwiseDisjoint(ToSet(xs))
    ensures forall e :: e in ToSet(xs) ==> e.WellFormed()
    ensures Sort(xs) == xs
  {
    forall a, b | a in ToSet(xs) && b in ToSet(xs) && a != b
      ensures !Overlap(a, b)
    {
      var i :| 0 <= i < |xs| && xs[i] == a;
      var j :| 0 <= j < |xs| && xs[j] == b;
      assert i < j || j < i;
    }
    SortOfSorted(xs);
  }

  /** The sorted list of a set of ranges. */
  ghost function Enumerate(s: set<Range>): (xs: seq<Range>)
    ensures multiset(xs) == multiset(s)
    ensures Sorted(xs)
  {
    if s == {} then []
    else
      var e :| e in s;
      var rest := Enumerate(s - {e});
      InsertKeepsElements(e, rest);
      InsertKeepsOrder(e, rest);
      assert multiset(s) == multiset(s - {e}) + multiset{e};
      Insert(e, rest)
  }

  lemma EnumerateKeepsElements(s: set<Range>)
    ensures ToSet(Enumerate(s)) == s
  {
    forall e
      ensures e in Enumerate(s) <==> e in s
    {
      assert e in Enumerate(s) <==> e in multiset(Enumerate(s));
    }
  }

  /** A list without repetition is one way of listing its set. */
  lemma {:induction false} DistinctListsItsSet(xs: seq<Range>)
    requires forall i, j :: 0 <= i < j < |xs| ==> xs[i] != xs[j]
    ensures multiset(xs) == multiset(ToSet(xs))
  {
    if xs != [] {
      var rest := xs[1..];
      DistinctListsItsSet(rest);
      assert xs == [xs[0]] + rest;
      assert xs[0] !in rest;
      assert ToSet(xs) == {xs[0]} + ToSet(rest);
    }
  }

  /** Whatever order the ranges of a set are listed in, sorting the list gives its enumeration. */
  lemma SortIsEnumerate(xs: seq<Range>)
    requires forall i, j :: 0 <= i < j < |xs| ==> xs[i] != xs[j]
    ensures Sort(xs) == Enumerate(ToSet(xs))
  {
    SortIsSortedPermutation(xs);
    DistinctListsItsSet(xs);
    SortedPermutationsAgree(Sort(xs), Enumerate(ToSet(xs)));
  }

  /** A canonical list is the enumeration of its own set. */
  lemma CanonicalListIsEnumeration(xs: seq<Range>)
    requires AllWellFormed(xs) && Ascending(xs)
    ensures Enumerate(ToSet(xs)) == xs
  {
    AscendingIsDisjoint(xs);
    forall i, j | 0 <= i < j < |xs|
      ensures xs[i] != xs[j]
    {
      assert xs[i].WellFormed();
    }
    SortIsEnumerate(xs);
  }

  /** Enumerating a disjoint set of well-formed ranges gives a canonical list. */
  lemma EnumerationIsCanonical(s: set<Range>)
    requires PairwiseDisjoint(s) && forall e :: e in s ==> e.WellFormed()
    ensures AllWellFormed(Enumerate(s)) && Ascending(Enumerate(s)) && DisjointEntries(Enumerate(s))
    ensures ToSet(Enumerate(s)) == s
  {
    var xs := Enumerate(s);
    EnumerateKeepsElements(s);
    forall i | 0 <= i < |xs|
      ensures xs[i].WellFormed()
    {
      assert xs[i] in ToSet(xs);
    }
    forall i, j | 0 <= i < j < |xs|
      ensures !Overlap(xs[i], xs[j])
    {
      assert xs[i] in ToSet(xs) && xs[j] in ToSet(xs);
      if xs[i] == xs[j] {
        TwoEqualEntries(xs, i, j);
      }
    }
    NeighboursDecideDisjointness(xs);
  }
}
