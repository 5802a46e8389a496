/**
 * The two orders the search endpoint sorts its facets by: code-point order,
 * standing in for the default `sort()` order, for countries, and the
 * configured-rank comparator for
 * statuses (ranked statuses by rank, then unranked ones alphabetically).
 */
module FacetOrder {
  import opened JsStrings

  /** `order.indexOf(x)`: the first position of `x`, or -1. */
  function IndexOf(order: seq<string>, x: string): (r: int)
    ensures -1 <= r < |order|
    ensures r == -1 <==> x !in order
    ensures r >= 0 ==> order[r] == x && forall j :: 0 <= j < r ==> order[j] != x
  {
    if order == [] then -1
    else if order[0] == x then 0
    else
      var k := IndexOf(order[1..], x);
      if k == -1 then -1 else k + 1
  }

  /** `a.localeCompare(b)`, modelled by code-point order. */
  function LocaleCompare(a: string, b: string): (r: int)
    ensures r == 0 <==> a == b
    ensures r < 0 <==> StrLess(a, b)
  {
    StrLessIrreflexive(a);
    StrLessTotal(a, b);
    StrLessAsymmetric(a, b);
    if a == b then 0 else if StrLess(a, b) then -1 else 1
  }

  /** The status comparator handed to `sort` by the search endpoint. */
  function CompareStatuses(order: seq<string>, a: string, b: string): int {
    var indexA := IndexOf(order, a);
    var indexB := IndexOf(order, b);
    if indexA != -1 && indexB != -1 then indexA - indexB
    else if indexA != -1 then -1
    else if indexB != -1 then 1
    else LocaleCompare(a, b)
  }

  /** The two orders the facets are sorted by. */
  datatype Ordering = CodePoints | StatusRank(order: seq<string>)

  /** `a` sorts strictly before `b`. */
  predicate Precedes(o: Ordering, a: string, b: string) {
    match o
    case CodePoints => StrLess(a, b)
    case StatusRank(order) => CompareStatuses(order, a, b) < 0
  }

  /**
   * What the status comparator means: two ranked statuses compare by rank,
   * a ranked one precedes an unranked one, two unranked ones compare by
   * string order; with no configured order this is plain string order.
   */
  lemma StatusRankMeaning(order: seq<string>, a: string, b: string)
    ensures a in order && b in order ==>
      (Precedes(StatusRank(order), a, b) <==> IndexOf(order, a) < IndexOf(order, b))
    ensures a in order && b !in order ==> Precedes(StatusRank(order), a, b) && !Precedes(StatusRank(order), b, a)
    ensures a !in order && b !in order ==> (Precedes(StatusRank(order), a, b) <==> StrLess(a, b))
    ensures order == [] ==> (Precedes(StatusRank(order), a, b) <==> Precedes(CodePoints, a, b))
  {
  }

  lemma PrecedesIrreflexive(o: Ordering, a: string)
    ensures !Precedes(o, a, a)
  {
    StrLessIrreflexive(a);
  }

  /** Distinct strings are always ordered one way or the other, never both. */
  lemma {:induction false} PrecedesTotal(o: Ordering, a: string, b: string)
    requires a != b
    ensures Precedes(o, a, b) != Precedes(o, b, a)
  {
    StrLessTotal(a, b);
    StrLessAsymmetric(a, b);
    if o.StatusRank? {
      var ia, ib := IndexOf(o.order, a), IndexOf(o.order, b);
      if ia != -1 && ib != -1 {
        assert ia != ib;
      }
    }
  }

  lemma {:induction false} PrecedesTransitive(o: Ordering, a: string, b: string, c: string)
    requires Precedes(o, a, b) && Precedes(o, b, c)
    ensures Precedes(o, a, c)
  {
    match o
    case CodePoints =>
      StrLessTransitive(a, b, c);
    case StatusRank(order) =>
      var ia, ib, ic := IndexOf(order, a), IndexOf(order, b), IndexOf(order, c);
      if ia == -1 && ib == -1 && ic == -1 {
        StrLessTransitive(a, b, c);
      }
  }

  /** `s` is sorted strictly ascending by `o`. */
  predicate StrictlySorted(o: Ordering, s: seq<string>) {
    forall i, j :: 0 <= i < j < |s| ==> Precedes(o, s[i], s[j])
  }

  predicate Distinct(s: seq<string>) {
    forall i, j :: 0 <= i < j < |s| ==> s[i] != s[j]
  }

  /** Putting an element that precedes all of a sorted sequence in front keeps it sorted. */
  lemma SortedCons(o: Ordering, a: string, r: seq<string>)
    requires StrictlySorted(o, r)
    requires forall y :: y in r ==> Precedes(o, a, y)
    ensures StrictlySorted(o, [a] + r)
  {
    forall i, j | 0 <= i < j < |[a] + r| ensures Precedes(o, ([a] + r)[i], ([a] + r)[j]) {
      if i == 0 {
        assert ([a] + r)[j] == r[j - 1];
      } else {
        assert ([a] + r)[i] == r[i - 1] && ([a] + r)[j] == r[j - 1];
      }
    }
  }

  /** Insert a new element into a strictly sorted sequence. */
  function Insert(o: Ordering, x: string, s: seq<string>): (r: seq<string>)
    requires StrictlySorted(o, s) && x !in s
    ensures StrictlySorted(o, r)
    ensures |r| == |s| + 1
    ensures forall y :: y in r <==> y == x || y in s
  {
    if s == [] then [x]
    else if Precedes(o, x, s[0]) then
      forall y | y in s ensures Precedes(o, x, y) {
        if y != s[0] { PrecedesTransitive(o, x, s[0], y); }
      }
      SortedCons(o, x, s);
      [x] + s
    else
      PrecedesTotal(o, x, s[0]);
      assert StrictlySorted(o, s[1..]);
      var rest := Insert(o, x, s[1..]);
      assert forall y :: y in rest ==> Precedes(o, s[0], y);
      SortedCons(o, s[0], rest);
      [s[0]] + rest
  }

  /** `Array.from(set).sort(cmp)` for a duplicate-free input. */
  function Sort(o: Ordering, s: seq<string>): (r: seq<string>)
    requires Distinct(s)
    ensures StrictlySorted(o, r)
    ensures |r| == |s|
    ensures forall y :: y in r <==> y in s
  {
    if s == [] then []
    else
      assert Distinct(s[1..]);
      assert s[0] !in s[1..];
      Insert(o, s[0], Sort(o, s[1..]))
  }

  lemma {:induction false} StrictlySortedIsDistinct(o: Ordering, s: seq<string>)
    requires StrictlySorted(o, s)
    ensures Distinct(s)
  {
    forall i, j | 0 <= i < j < |s| ensures s[i] != s[j] {
      PrecedesIrreflexive(o, s[i]);
    }
  }

  lemma HeadIsMember(r: seq<string>)
    ensures r != [] ==> r[0] in r
  {
  }

  lemma FirstIsLeast(o: Ordering, r: seq<string>, y: string)
    requires StrictlySorted(o, r) && y in r && y != r[0]
    ensures Precedes(o, r[0], y)
  {
  }

  /** The sorted result depends only on which values there are, not on the order they were found in. */
  lemma {:induction false} SortedIsUnique(o: Ordering, r1: seq<string>, r2: seq<string>)
    requires StrictlySorted(o, r1) && StrictlySorted(o, r2)
    requires forall y :: y in r1 <==> y in r2
    ensures r1 == r2
    decreases |r1|
  {
    if r1 != [] && r2 != [] {
      if r1[0] != r2[0] {
        FirstIsLeast(o, r1, r2[0]);
        FirstIsLeast(o, r2, r1[0]);
        PrecedesTotal(o, r1[0], r2[0]);
        assert false;
      } else {
        StrictlySortedIsDistinct(o, r1);
        StrictlySortedIsDistinct(o, r2);
        forall y ensures y in r1[1..] <==> y in r2[1..] {
          if y in r1[1..] {
            assert y != r1[0];
            assert y in r2;
          }
          if y in r2[1..] {
            assert y != r2[0];
            assert y in r1;
          }
        }
        SortedIsUnique(o, r1[1..], r2[1..]);
      }
    } else if r1 != [] || r2 != [] {
      HeadIsMember(r1);
      HeadIsMember(r2);
      assert false;
    }
  }
}
