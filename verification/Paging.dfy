/**
 * Paged queries: every page is cut from its own evaluation of a query whose order leaves ties open.
 * When do the pages of different evaluations fit together?
 */
module Paging {
  import opened Basics

  const PAGE_SIZE := 25

  /** An answer of the whole query: all of `xs`, larger keys first, ties in any order. */
  ghost predicate IsListing<T(!new)>(order: seq<T>, xs: set<T>, key: T -> int) {
    && Enumerates(order, xs)
    && forall i, j :: 0 <= i < j < |order| ==> key(order[i]) >= key(order[j])
  }

  function Bounded(i: nat, n: nat): nat { if i < n then i else n }

  /** What LIMIT and OFFSET leave of an answer. */
  function Page<T>(order: seq<T>, p: nat): seq<T> {
    order[Bounded(p * PAGE_SIZE, |order|)..Bounded((p + 1) * PAGE_SIZE, |order|)]
  }

  function PageCount(n: nat): nat { (n + PAGE_SIZE - 1) / PAGE_SIZE }

  // ---------------------------------------------------------------- one evaluation

  function FirstPages<T>(order: seq<T>, n: nat): seq<T> {
    if n == 0 then [] else FirstPages(order, n - 1) + Page(order, n - 1)
  }

  lemma {:induction false} FirstPagesArePrefix<T>(order: seq<T>, n: nat)
    ensures FirstPages(order, n) == order[..Bounded(n * PAGE_SIZE, |order|)]
  {
    if n == 0 {
    } else {
      FirstPagesArePrefix(order, n - 1);
    }
  }

  lemma PagesNeeded(n: nat, p: nat)
    ensures p < PageCount(n) <==> p * PAGE_SIZE < n
    ensures n <= PageCount(n) * PAGE_SIZE
  {
    var q := PageCount(n);
    assert n + PAGE_SIZE - 1 == PAGE_SIZE * q + (n + PAGE_SIZE - 1) % PAGE_SIZE;
  }

  /** The pages up to the page count make up one answer, and that many are needed. */
  lemma PagesMakeUpListing<T>(order: seq<T>, p: nat)
    ensures FirstPages(order, PageCount(|order|)) == order
    ensures Page(order, p) != [] <==> p < PageCount(|order|)
  {
    FirstPagesArePrefix(order, PageCount(|order|));
    PagesNeeded(|order|, p);
  }

  // ---------------------------------------------------------------- two evaluations

  lemma PrefixSize<T(!new)>(order: seq<T>, xs: set<T>, n: nat)
    requires Enumerates(order, xs) && n <= |order|
    ensures |Elements(order[..n])| == n
  {
    NoDupSize(order[..n]);
  }

  lemma SameLength<T(!new)>(o: seq<T>, o': seq<T>, xs: set<T>)
    requires Enumerates(o, xs) && Enumerates(o', xs)
    ensures |o| == |o'| == |xs|
  {
    NoDupSize(o);
    NoDupSize(o');
  }

  /** If all of a prefix of one answer have larger keys than the rest of the other, it is in the other's prefix. */
  lemma LargerKeysComeFirst<T(!new)>(o: seq<T>, o': seq<T>, xs: set<T>, key: T -> int, m: nat, n: nat)
    requires IsListing(o, xs, key) && IsListing(o', xs, key) && 0 < m <= |o| && n < |o'|
    requires key(o[m - 1]) > key(o'[n])
    ensures m <= n && Elements(o[..m]) <= Elements(o'[..n])
  {
    forall x | x in o[..m] ensures x in o'[..n] {
      var i :| 0 <= i < m && o[i] == x;
      assert key(x) >= key(o[m - 1]);
      assert x in Elements(o');
      var j :| 0 <= j < |o'| && o'[j] == x;
      assert j < n;
      assert o'[..n][j] == x;
    }
    PrefixSize(o, xs, m);
    PrefixSize(o', xs, n);
    SubsetSize(Elements(o[..m]), Elements(o'[..n]));
  }

  /** The keys come in the same order in every answer, whatever happens to ties. */
  lemma KeysAgree<T(!new)>(o: seq<T>, o': seq<T>, xs: set<T>, key: T -> int, i: nat)
    requires IsListing(o, xs, key) && IsListing(o', xs, key) && i < |o|
    ensures i < |o'| && key(o[i]) == key(o'[i])
  {
    SameLength(o, o', xs);
    if key(o[i]) > key(o'[i]) {
      LargerKeysComeFirst(o, o', xs, key, i + 1, i);
    }
    if key(o'[i]) > key(o[i]) {
      LargerKeysComeFirst(o', o, xs, key, i + 1, i);
    }
  }

  ghost predicate TieAt<T(!new)>(order: seq<T>, key: T -> int, b: nat) {
    0 < b < |order| && key(order[b - 1]) == key(order[b])
  }

  /** Without a tie across the boundary all answers have the same elements before it. */
  lemma PrefixesAgree<T(!new)>(o: seq<T>, o': seq<T>, xs: set<T>, key: T -> int, b: nat)
    requires IsListing(o, xs, key) && IsListing(o', xs, key) && b <= |o| && !TieAt(o, key, b)
    ensures b <= |o'| && Elements(o[..b]) == Elements(o'[..b])
  {
    SameLength(o, o', xs);
    if b == |o| {
      assert o[..b] == o && o'[..b] == o';
    } else if b > 0 {
      KeysAgree(o, o', xs, key, b);
      LargerKeysComeFirst(o, o', xs, key, b, b);
      PrefixSize(o, xs, b);
      PrefixSize(o', xs, b);
      SubsetSize(Elements(o[..b]), Elements(o'[..b]));
    }
  }

  lemma PageIsDifference<T(!new)>(order: seq<T>, xs: set<T>, p: nat)
    requires Enumerates(order, xs)
    ensures Elements(Page(order, p))
            == Elements(order[..Bounded((p + 1) * PAGE_SIZE, |order|)])
               - Elements(order[..Bounded(p * PAGE_SIZE, |order|)])
  {
    var a, b := Bounded(p * PAGE_SIZE, |order|), Bounded((p + 1) * PAGE_SIZE, |order|);
    assert order[..b] == order[..a] + order[a..b];
    assert forall i, j :: 0 <= i < a <= j < b ==> order[i] != order[j];
  }

  ghost predicate NoTieAtBoundaries<T(!new)>(order: seq<T>, key: T -> int) {
    forall p: nat {:trigger TieAt(order, key, p * PAGE_SIZE)} :: !TieAt(order, key, p * PAGE_SIZE)
  }

  ghost predicate SamePages<T>(o: seq<T>, o': seq<T>) {
    forall p: nat :: Elements(Page(o, p)) == Elements(Page(o', p))
  }

  lemma NoTieMeansSamePages<T(!new)>(o: seq<T>, o': seq<T>, xs: set<T>, key: T -> int)
    requires IsListing(o, xs, key) && IsListing(o', xs, key) && NoTieAtBoundaries(o, key)
    ensures SamePages(o, o')
  {
    SameLength(o, o', xs);
    forall p: nat ensures Elements(Page(o, p)) == Elements(Page(o', p)) {
      var n, q := |o|, p + 1;
      assert !TieAt(o, key, p * PAGE_SIZE) && !TieAt(o, key, q * PAGE_SIZE);
      PrefixesAgree(o, o', xs, key, Bounded(p * PAGE_SIZE, n));
      PrefixesAgree(o, o', xs, key, Bounded(q * PAGE_SIZE, n));
      PageIsDifference(o, xs, p);
      PageIsDifference(o', xs, p);
    }
  }

  function Swapped<T>(order: seq<T>, b: nat): seq<T>
    requires 0 < b < |order|
  {
    order[b - 1 := order[b]][b := order[b - 1]]
  }

  lemma SwappedIsListing<T(!new)>(order: seq<T>, xs: set<T>, key: T -> int, b: nat)
    requires IsListing(order, xs, key) && TieAt(order, key, b)
    ensures IsListing(Swapped(order, b), xs, key)
  {
    var s := Swapped(order, b);
    assert forall i :: 0 <= i < |s| ==> key(s[i]) == key(order[i]);
    assert s[b] == order[b - 1] && s[b - 1] == order[b];
    forall x | x in order ensures x in s {
      var i :| 0 <= i < |order| && order[i] == x;
      assert s[if i == b then b - 1 else if i == b - 1 then b else i] == x;
    }
  }

  /**
   * A tie across a boundary is enough to spoil paging: with another evaluation for the second page, one
   * element is shown on both pages and another one on neither.
   */
  lemma TieShowsTwice<T(!new)>(order: seq<T>, xs: set<T>, key: T -> int, p: nat)
    requires p > 0 && IsListing(order, xs, key) && TieAt(order, key, p * PAGE_SIZE)
    ensures var other := Swapped(order, p * PAGE_SIZE);
            var twice, never := order[p * PAGE_SIZE - 1], order[p * PAGE_SIZE];
            && IsListing(other, xs, key)
            && twice in Page(order, p - 1) && twice in Page(other, p)
            && never !in Page(order, p - 1) && never !in Page(other, p)
  {
    var b := p * PAGE_SIZE;
    var other := Swapped(order, b);
    SwappedIsListing(order, xs, key, b);
    assert p - 1 + 1 == p && (p - 1) * PAGE_SIZE == b - PAGE_SIZE;
    assert Page(order, p - 1) == order[b - PAGE_SIZE..b];
    assert Page(order, p - 1)[PAGE_SIZE - 1] == order[b - 1];
    assert Page(other, p)[0] == other[b];
    assert other[b - 1] == order[b];
  }

  lemma TieSpoilsPages<T(!new)>(order: seq<T>, xs: set<T>, key: T -> int, p: nat)
    requires p > 0 && IsListing(order, xs, key) && TieAt(order, key, p * PAGE_SIZE)
    ensures !SamePages(order, Swapped(order, p * PAGE_SIZE))
  {
    var other := Swapped(order, p * PAGE_SIZE);
    TieShowsTwice(order, xs, key, p);
    PagesOfOneListingAreDisjoint(order, xs, p);
    assert Elements(Page(order, p)) != Elements(Page(other, p)) by {
      assert order[p * PAGE_SIZE - 1] in Elements(Page(other, p));
    }
  }

  lemma AllTied<T(!new)>(order: seq<T>, key: T -> int, m: int)
    requires NoDup(order) && |order| > PAGE_SIZE && forall x :: x in Elements(order) ==> key(x) == m
    ensures IsListing(order, Elements(order), key) && TieAt(order, key, PAGE_SIZE)
  {
    assert forall i :: 0 <= i < |order| ==> order[i] in Elements(order);
  }

  /** The first boundary. */
  lemma FirstTie<T(!new)>(order: seq<T>, xs: set<T>, key: T -> int) returns (other: seq<T>)
    requires IsListing(order, xs, key) && TieAt(order, key, PAGE_SIZE)
    ensures IsListing(other, xs, key) && !SamePages(order, other)
    ensures order[PAGE_SIZE - 1] in Page(order, 0) && order[PAGE_SIZE - 1] in Page(other, 1)
    ensures order[PAGE_SIZE] !in Page(order, 0) && order[PAGE_SIZE] !in Page(other, 1)
  {
    other := Swapped(order, 1 * PAGE_SIZE);
    TieShowsTwice(order, xs, key, 1);
    TieSpoilsPages(order, xs, key, 1);
  }

  /** Pages of any two evaluations fit together if and only if no tie lies across a page boundary. */
  lemma PagesFitIffNoTie<T(!new)>(order: seq<T>, xs: set<T>, key: T -> int)
    requires IsListing(order, xs, key)
    ensures NoTieAtBoundaries(order, key) <==> forall other :: IsListing(other, xs, key) ==> SamePages(order, other)
  {
    if NoTieAtBoundaries(order, key) {
      forall other | IsListing(other, xs, key) ensures SamePages(order, other) {
        NoTieMeansSamePages(order, other, xs, key);
      }
    } else {
      var p: nat :| TieAt(order, key, p * PAGE_SIZE);
      assert p > 0;
      TieShowsTwice(order, xs, key, p);
      TieSpoilsPages(order, xs, key, p);
    }
  }

  lemma PagesOfOneListingAreDisjoint<T(!new)>(order: seq<T>, xs: set<T>, p: nat)
    requires Enumerates(order, xs) && p > 0
    ensures Elements(Page(order, p - 1)) !! Elements(Page(order, p))
  {
    PageIsDifference(order, xs, p);
    assert p - 1 + 1 == p;
    var b := Bounded(p * PAGE_SIZE, |order|);
    assert forall x :: x in Page(order, p - 1) ==> x in order[..b];
  }
}
