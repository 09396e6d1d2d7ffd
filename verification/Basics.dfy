/** Sequences, orders and machine integers that the other modules share. */
module Basics {

  newtype byte = x: int | 0 <= x < 256
  type Bytes = seq<byte>

  datatype Option<+T> = None | Some(value: T)

  // ---------------------------------------------------------------- byte order

  /** `Vec::reverse`: txids and block hashes are stored in display order. */
  function Reversed<T>(s: seq<T>): (r: seq<T>)
    ensures |r| == |s|
    ensures forall i :: 0 <= i < |s| ==> r[i] == s[|s| - 1 - i]
  {
    if s == [] then [] else Reversed(s[1..]) + [s[0]]
  }

  lemma ReversedTwice<T>(s: seq<T>)
    ensures Reversed(Reversed(s)) == s
  {
    var r := Reversed(Reversed(s));
    assert forall i :: 0 <= i < |s| ==> r[i] == s[i];
  }

  lemma ReversedInjective<T>(s: seq<T>, t: seq<T>)
    requires Reversed(s) == Reversed(t)
    ensures s == t
  {
    ReversedTwice(s);
    ReversedTwice(t);
  }

  function ReversedAll<T>(xs: seq<seq<T>>): (r: seq<seq<T>>)
    ensures |r| == |xs| && forall i :: 0 <= i < |r| ==> r[i] == Reversed(xs[i])
  {
    seq(|xs|, i requires 0 <= i < |xs| => Reversed(xs[i]))
  }

  predicate IsByte(x: int) { 0 <= x < 256 }

  function OneByte(x: int): Bytes
    requires IsByte(x)
  {
    [x as byte]
  }

  // ---------------------------------------------------------------- casts

  /** An output index as Bitcoin carries it, a `u32`. */
  type U32 = x: int | 0 <= x < 0x1_0000_0000 witness 0

  /** `x as i32` for an unsigned `x`: keep 32 bits, read them as two's complement. */
  function AsI32(x: nat): (r: int)
    ensures -0x8000_0000 <= r < 0x8000_0000
  {
    var w := x % 0x1_0000_0000;
    if w < 0x8000_0000 then w else w - 0x1_0000_0000
  }

  /** `x as u32` for an `i32`. */
  function AsU32(x: int): U32 {
    x % 0x1_0000_0000
  }

  lemma CastRoundTrip(x: U32)
    ensures AsU32(AsI32(x)) == x
  {
  }

  // ---------------------------------------------------------------- sequences as sets

  ghost predicate NoDup<T>(s: seq<T>) {
    forall i, j :: 0 <= i < j < |s| ==> s[i] != s[j]
  }

  function Elements<T>(s: seq<T>): set<T> {
    set x | x in s
  }

  ghost predicate Enumerates<T>(s: seq<T>, xs: set<T>) {
    NoDup(s) && Elements(s) == xs
  }

  lemma NoDupSize<T>(s: seq<T>)
    requires NoDup(s)
    ensures |Elements(s)| == |s|
  {
    if s == [] {
    } else {
      var front := s[..|s| - 1];
      NoDupSize(front);
      assert s == front + [s[|s| - 1]];
      assert Elements(s) == Elements(front) + {s[|s| - 1]};
    }
  }

  lemma ElementsSize<T>(s: seq<T>)
    ensures |Elements(s)| <= |s|
  {
    if s != [] {
      var front := s[..|s| - 1];
      ElementsSize(front);
      assert s == front + [s[|s| - 1]];
      assert Elements(s) == Elements(front) + {s[|s| - 1]};
    }
  }

  lemma FullSizeMeansNoDup<T>(s: seq<T>)
    ensures |Elements(s)| == |s| <==> NoDup(s)
  {
    if NoDup(s) {
      NoDupSize(s);
    } else {
      var i, j :| 0 <= i < j < |s| && s[i] == s[j];
      var rest := s[..i] + s[i + 1..];
      assert rest[j - 1] == s[i];
      assert forall k :: 0 <= k < |s| && k != i ==> s[k] == rest[if k < i then k else k - 1];
      assert Elements(s) == Elements(rest);
      ElementsSize(rest);
    }
  }

  lemma SubsetSize<T>(a: set<T>, b: set<T>)
    requires a <= b
    ensures |a| <= |b|
    ensures |a| == |b| ==> a == b
  {
    assert b == a + (b - a);
    if |a| == |b| {
      assert |b - a| == 0;
    }
  }

  lemma SomeElement<T>(xs: set<T>) returns (x: T)
    requires xs != {}
    ensures x in xs
  {
    x :| x in xs;
  }

  lemma {:induction false} SameSize<A, B>(xs: set<A>, ys: set<B>, f: A -> B)
    requires ys == set x | x in xs :: f(x)
    requires forall x, y :: x in xs && y in xs && f(x) == f(y) ==> x == y
    ensures |xs| == |ys|
    decreases |xs|
  {
    if xs == {} {
    } else {
      var x := SomeElement(xs);
      SameSize(xs - {x}, ys - {f(x)}, f);
    }
  }

  function OneBytes(n: nat): (r: seq<Bytes>)
    requires n <= 256
    ensures |r| == n && NoDup(r) && forall i :: 0 <= i < n ==> r[i] == OneByte(i)
  {
    var r := seq(n, i requires 0 <= i < n => OneByte(i));
    assert forall i :: 0 <= i < n ==> r[i][0] as int == i;
    r
  }

  /** Iterating a hash set: every element once, in an order nobody may rely on. */
  method Iterate<T(==)>(xs: set<T>) returns (order: seq<T>)
    ensures Enumerates(order, xs)
  {
    order := [];
    var rest := xs;
    while rest != {}
      invariant rest <= xs && Elements(order) == xs - rest && NoDup(order)
      decreases |rest|
    {
      var x :| x in rest;
      assert Elements(order + [x]) == Elements(order) + {x};
      order := order + [x];
      rest := rest - {x};
    }
  }

  // ---------------------------------------------------------------- sort and dedup

  ghost predicate StrictTotalOrder<K(!new)>(lt: (K, K) -> bool) {
    && (forall a :: !lt(a, a))
    && (forall a, b :: a == b || lt(a, b) || lt(b, a))
    && (forall a, b, c :: lt(a, b) && lt(b, c) ==> lt(a, c))
  }

  ghost predicate StrictlySorted<T, K>(s: seq<T>, key: T -> K, lt: (K, K) -> bool) {
    forall i, j :: 0 <= i < j < |s| ==> lt(key(s[i]), key(s[j]))
  }

  function InsertBy<T, K(==)>(x: T, s: seq<T>, key: T -> K, lt: (K, K) -> bool): seq<T> {
    if s == [] || lt(key(x), key(s[0])) then [x] + s
    else if key(x) == key(s[0]) then s
    else [s[0]] + InsertBy(x, s[1..], key, lt)
  }

  /** `sort_by_key` followed by `dedup_by_key`. */
  function SortDedupBy<T, K(==)>(s: seq<T>, key: T -> K, lt: (K, K) -> bool): seq<T> {
    if s == [] then [] else InsertBy(s[0], SortDedupBy(s[1..], key, lt), key, lt)
  }

  ghost predicate HasKey<T, K>(s: seq<T>, k: K, key: T -> K) {
    exists i :: 0 <= i < |s| && key(s[i]) == k
  }

  lemma {:induction false} InsertByElements<T, K>(x: T, s: seq<T>, key: T -> K, lt: (K, K) -> bool)
    ensures forall y :: y in InsertBy(x, s, key, lt) ==> y == x || y in s
    ensures forall y :: y in s ==> y in InsertBy(x, s, key, lt)
    ensures HasKey(InsertBy(x, s, key, lt), key(x), key)
  {
    var r := InsertBy(x, s, key, lt);
    if s == [] || lt(key(x), key(s[0])) {
      assert r == [x] + s && r[0] == x;
    } else if key(x) != key(s[0]) {
      InsertByElements(x, s[1..], key, lt);
      var tail := InsertBy(x, s[1..], key, lt);
      var i :| 0 <= i < |tail| && key(tail[i]) == key(x);
      assert r[i + 1] == tail[i];
      assert forall y :: y in s <==> y == s[0] || y in s[1..];
    }
  }

  lemma {:induction false} InsertByKeepsOrder<T, K(!new)>(x: T, s: seq<T>, key: T -> K, lt: (K, K) -> bool)
    requires StrictTotalOrder(lt) && StrictlySorted(s, key, lt)
    ensures StrictlySorted(InsertBy(x, s, key, lt), key, lt)
  {
    if s != [] && !lt(key(x), key(s[0])) && key(x) != key(s[0]) {
      InsertByKeepsOrder(x, s[1..], key, lt);
      var tail := InsertBy(x, s[1..], key, lt);
      InsertByElements(x, s[1..], key, lt);
      assert forall y :: y in tail ==> lt(key(s[0]), key(y));
    }
  }

  /** Sorting with dedup keeps one element per key and loses no key. */
  lemma {:induction false} SortDedupByCorrect<T, K(!new)>(s: seq<T>, key: T -> K, lt: (K, K) -> bool)
    requires StrictTotalOrder(lt)
    ensures StrictlySorted(SortDedupBy(s, key, lt), key, lt)
  {
    if s == [] {
    } else {
      SortDedupByCorrect(s[1..], key, lt);
      InsertByKeepsOrder(s[0], SortDedupBy(s[1..], key, lt), key, lt);
    }
  }

  lemma {:induction false} SortDedupByKeys<T, K>(s: seq<T>, key: T -> K, lt: (K, K) -> bool)
    ensures forall y :: y in SortDedupBy(s, key, lt) ==> y in s
    ensures forall x :: x in s ==> HasKey(SortDedupBy(s, key, lt), key(x), key)
  {
    if s == [] {
    } else {
      var tail := SortDedupBy(s[1..], key, lt);
      SortDedupByKeys(s[1..], key, lt);
      InsertByElements(s[0], tail, key, lt);
      var r := SortDedupBy(s, key, lt);
      forall x | x in s ensures HasKey(r, key(x), key) {
        if x != s[0] {
          var i :| 0 <= i < |tail| && key(tail[i]) == key(x);
          assert tail[i] in r;
        }
      }
    }
  }

  /** When equal keys mean equal elements, the result has exactly the input's elements, each once. */
  lemma SortDedupByElements<T, K(!new)>(s: seq<T>, key: T -> K, lt: (K, K) -> bool)
    requires StrictTotalOrder(lt)
    requires forall x, y :: x in s && y in s && key(x) == key(y) ==> x == y
    ensures StrictlySorted(SortDedupBy(s, key, lt), key, lt)
    ensures NoDup(SortDedupBy(s, key, lt))
    ensures Elements(SortDedupBy(s, key, lt)) == Elements(s)
  {
    SortDedupByCorrect(s, key, lt);
    SortDedupByKeys(s, key, lt);
    var r := SortDedupBy(s, key, lt);
    forall x | x in s ensures x in r {
      var i :| 0 <= i < |r| && key(r[i]) == key(x);
      assert r[i] in s;
    }
  }

  lemma EmptyElements<T>(s: seq<T>)
    ensures Elements(s) == {} <==> s == []
  {
    if s != [] {
      assert s[0] in Elements(s);
    }
  }

  /** Strictly sorted sequences are determined by their elements. */
  lemma {:induction false} StrictlySortedUnique<T, K(!new)>(s: seq<T>, t: seq<T>, key: T -> K, lt: (K, K) -> bool)
    requires StrictTotalOrder(lt)
    requires StrictlySorted(s, key, lt) && StrictlySorted(t, key, lt)
    requires Elements(s) == Elements(t)
    ensures s == t
  {
    EmptyElements(s);
    EmptyElements(t);
    if s == [] {
    } else {
      assert s[0] in Elements(t);
      assert t[0] in Elements(s);
      var i :| 0 <= i < |t| && t[i] == s[0];
      var j :| 0 <= j < |s| && s[j] == t[0];
      assert s[0] == t[0];
      assert Elements(s[1..]) == Elements(s) - {s[0]} by { SortedTail(s, key, lt); }
      assert Elements(t[1..]) == Elements(t) - {t[0]} by { SortedTail(t, key, lt); }
      StrictlySortedUnique(s[1..], t[1..], key, lt);
      assert s == [s[0]] + s[1..] && t == [t[0]] + t[1..];
    }
  }

  lemma SortedTail<T, K(!new)>(s: seq<T>, key: T -> K, lt: (K, K) -> bool)
    requires StrictTotalOrder(lt) && StrictlySorted(s, key, lt) && s != []
    ensures Elements(s[1..]) == Elements(s) - {s[0]}
  {
    assert s == [s[0]] + s[1..];
    assert forall y :: y in s[1..] ==> lt(key(s[0]), key(y));
  }

  /** `sort` on integers, which keeps repeats. */
  function Sort(s: seq<int>): seq<int> {
    if s == [] then [] else InsertInt(s[0], Sort(s[1..]))
  }

  function InsertInt(x: int, s: seq<int>): seq<int> {
    if s == [] || x <= s[0] then [x] + s else [s[0]] + InsertInt(x, s[1..])
  }

  lemma {:induction false} InsertIntElements(x: int, s: seq<int>)
    ensures Elements(InsertInt(x, s)) == Elements(s) + {x}
  {
    if s != [] && x > s[0] {
      InsertIntElements(x, s[1..]);
      assert s == [s[0]] + s[1..];
      assert Elements(s) == Elements(s[1..]) + {s[0]};
      var tail := InsertInt(x, s[1..]);
      assert Elements([s[0]] + tail) == Elements(tail) + {s[0]};
    }
  }

  lemma {:induction false} SortElements(s: seq<int>)
    ensures Elements(Sort(s)) == Elements(s)
  {
    if s == [] {
    } else {
      SortElements(s[1..]);
      InsertIntElements(s[0], Sort(s[1..]));
      assert s == [s[0]] + s[1..];
      assert Elements(s) == Elements(s[1..]) + {s[0]};
    }
  }

  lemma {:induction false} InsertIntStrict(x: int, s: seq<int>)
    requires StrictlySorted(s, Same, IntLess) && x !in s
    ensures StrictlySorted(InsertInt(x, s), Same, IntLess)
  {
    if s != [] && x > s[0] {
      InsertIntStrict(x, s[1..]);
      InsertIntElements(x, s[1..]);
      var tail := InsertInt(x, s[1..]);
      forall j | 0 <= j < |tail| ensures s[0] < tail[j] {
        assert tail[j] in Elements(tail);
        assert forall y :: y in s[1..] ==> IntLess(Same(s[0]), Same(y));
      }
    }
  }

  /** Without repeats the result is strictly increasing. */
  lemma {:induction false} SortStrict(s: seq<int>)
    requires NoDup(s)
    ensures StrictlySorted(Sort(s), Same, IntLess)
  {
    if s == [] {
    } else {
      SortStrict(s[1..]);
      SortElements(s[1..]);
      assert s[0] !in Elements(Sort(s[1..]));
      InsertIntStrict(s[0], Sort(s[1..]));
    }
  }

  lemma IntOrder()
    ensures StrictTotalOrder(IntLess)
  {
  }

  // ---------------------------------------------------------------- orders in use

  function Same<T>(x: T): T { x }

  predicate IntLess(a: int, b: int) { a < b }

  predicate ByteLess(a: byte, b: byte) { a < b }

  predicate CharLess(a: char, b: char) { a < b }

  /** Dictionary order, as `Ord` compares byte arrays and strings. */
  predicate LexLess<T(==)>(a: seq<T>, b: seq<T>, lt: (T, T) -> bool) {
    b != [] && (a == [] || lt(a[0], b[0]) || (a[0] == b[0] && LexLess(a[1..], b[1..], lt)))
  }

  predicate BytesLess(a: Bytes, b: Bytes) { LexLess(a, b, ByteLess) }

  predicate StringLess(a: string, b: string) { LexLess(a, b, CharLess) }

  lemma {:induction false} LexLessTotal<T(!new)>(a: seq<T>, b: seq<T>, lt: (T, T) -> bool)
    requires StrictTotalOrder(lt)
    ensures !LexLess(a, a, lt)
    ensures a == b || LexLess(a, b, lt) || LexLess(b, a, lt)
  {
    if a == [] {
    } else {
      if b != [] {
        LexLessTotal(a[1..], b[1..], lt);
        assert a == [a[0]] + a[1..] && b == [b[0]] + b[1..];
      } else {
        LexLessTotal(a[1..], b, lt);
      }
    }
  }

  lemma {:induction false} LexLessTransitive<T(!new)>(a: seq<T>, b: seq<T>, c: seq<T>, lt: (T, T) -> bool)
    requires StrictTotalOrder(lt)
    requires LexLess(a, b, lt) && LexLess(b, c, lt)
    ensures LexLess(a, c, lt)
  {
    if a != [] && a[0] == b[0] && b[0] == c[0] {
      LexLessTransitive(a[1..], b[1..], c[1..], lt);
    }
  }

  lemma BytesOrder()
    ensures StrictTotalOrder(BytesLess)
  {
    forall a: Bytes, b: Bytes
      ensures !BytesLess(a, a) && (a == b || BytesLess(a, b) || BytesLess(b, a))
    {
      LexLessTotal(a, b, ByteLess);
    }
    forall a: Bytes, b: Bytes, c: Bytes | BytesLess(a, b) && BytesLess(b, c)
      ensures BytesLess(a, c)
    {
      LexLessTransitive(a, b, c, ByteLess);
    }
  }

  lemma StringOrder()
    ensures StrictTotalOrder(StringLess)
  {
    forall a: string, b: string
      ensures !StringLess(a, a) && (a == b || StringLess(a, b) || StringLess(b, a))
    {
      LexLessTotal(a, b, CharLess);
    }
    forall a: string, b: string, c: string | StringLess(a, b) && StringLess(b, c)
      ensures StringLess(a, c)
    {
      LexLessTransitive(a, b, c, CharLess);
    }
  }

  // ---------------------------------------------------------------- stable sorting

  function InsertStable<T>(x: T, s: seq<T>, key: T -> int): seq<T> {
    if s == [] || key(x) <= key(s[0]) then [x] + s else [s[0]] + InsertStable(x, s[1..], key)
  }

  /** `sort_by_key`. */
  function SortStable<T>(s: seq<T>, key: T -> int): seq<T> {
    if s == [] then [] else InsertStable(s[0], SortStable(s[1..], key), key)
  }

  ghost predicate Ascending<T>(s: seq<T>, key: T -> int) {
    forall i, j :: 0 <= i < j < |s| ==> key(s[i]) <= key(s[j])
  }

  lemma {:induction false} InsertStableElements<T>(x: T, s: seq<T>, key: T -> int)
    ensures Elements(InsertStable(x, s, key)) == Elements(s) + {x}
  {
    if s != [] && key(x) > key(s[0]) {
      InsertStableElements(x, s[1..], key);
      assert s == [s[0]] + s[1..];
      assert Elements([s[0]] + InsertStable(x, s[1..], key)) == {s[0]} + Elements(InsertStable(x, s[1..], key));
    }
  }

  lemma {:induction false} InsertStableOrders<T>(x: T, s: seq<T>, key: T -> int)
    requires Ascending(s, key) && NoDup(s) && x !in s
    ensures Ascending(InsertStable(x, s, key), key) && NoDup(InsertStable(x, s, key))
  {
    if s != [] && key(x) > key(s[0]) {
      InsertStableOrders(x, s[1..], key);
      InsertStableElements(x, s[1..], key);
      var tail := InsertStable(x, s[1..], key);
      forall y | y in tail ensures y != s[0] && key(s[0]) <= key(y) {
        assert y in Elements(tail);
      }
    }
  }

  lemma {:induction false} SortStableCorrect<T>(s: seq<T>, key: T -> int)
    requires NoDup(s)
    ensures Ascending(SortStable(s, key), key) && Enumerates(SortStable(s, key), Elements(s))
  {
    if s == [] {
    } else {
      var tail := SortStable(s[1..], key);
      SortStableCorrect(s[1..], key);
      assert s == [s[0]] + s[1..];
      assert s[0] !in Elements(tail);
      InsertStableOrders(s[0], tail, key);
      InsertStableElements(s[0], tail, key);
    }
  }
}
