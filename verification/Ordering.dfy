/** Go's sort.Slice, sort.Search and container/heap, for any strict weak order. */
module Ordering {

  /** What sort.Slice and container/heap ask of a Less function: it is
      asymmetric, and "not before" is transitive. */
  ghost predicate StrictWeak<T(!new)>(less: (T, T) -> bool)
  {
    && (forall a, b :: Asymmetric(less, a, b))
    && (forall a, b, c :: Between(less, a, b, c))
  }

  ghost predicate Asymmetric<T>(less: (T, T) -> bool, a: T, b: T)
  {
    less(a, b) ==> !less(b, a)
  }

  ghost predicate Between<T>(less: (T, T) -> bool, a: T, b: T, c: T)
  {
    less(a, c) ==> less(a, b) || less(b, c)
  }

  lemma NotBeforeTransitive<T(!new)>(less: (T, T) -> bool, a: T, b: T, c: T)
    requires StrictWeak(less) && !less(a, b) && !less(b, c)
    ensures !less(a, c)
  {
    assert Between(less, a, b, c);
  }

  lemma BeforeIsAsymmetric<T(!new)>(less: (T, T) -> bool, a: T, b: T)
    requires StrictWeak(less)
    ensures !less(a, a) && (less(a, b) ==> !less(b, a))
  {
    assert Asymmetric(less, a, a) && Asymmetric(less, a, b);
  }

  // ---------- sort.Slice ----------

  ghost predicate SortedBy<T>(s: seq<T>, less: (T, T) -> bool)
  {
    forall i, j :: 0 <= i < j < |s| ==> !less(s[j], s[i])
  }

  function Insert<T>(x: T, s: seq<T>, less: (T, T) -> bool): (r: seq<T>)
  {
    if s == [] || less(x, s[0]) then [x] + s else [s[0]] + Insert(x, s[1..], less)
  }

  function SortSlice<T>(s: seq<T>, less: (T, T) -> bool): (r: seq<T>)
  {
    if s == [] then [] else Insert(s[0], SortSlice(s[1..], less), less)
  }

  lemma {:induction false} InsertIsPermutation<T>(x: T, s: seq<T>, less: (T, T) -> bool)
    ensures multiset(Insert(x, s, less)) == multiset{x} + multiset(s)
  {
    if s != [] && !less(x, s[0]) {
      InsertIsPermutation(x, s[1..], less);
      assert s == [s[0]] + s[1..];
    }
  }

  lemma {:induction false} SortIsPermutation<T>(s: seq<T>, less: (T, T) -> bool)
    ensures multiset(SortSlice(s, less)) == multiset(s)
  {
    if s != [] {
      SortIsPermutation(s[1..], less);
      InsertIsPermutation(s[0], SortSlice(s[1..], less), less);
      assert s == [s[0]] + s[1..];
    }
  }

  lemma {:induction false} InsertKeepsSorted<T(!new)>(x: T, s: seq<T>, less: (T, T) -> bool)
    requires StrictWeak(less) && SortedBy(s, less)
    ensures SortedBy(Insert(x, s, less), less)
  {
    if s == [] {
    } else if less(x, s[0]) {
      BeforeIsAsymmetric(less, x, s[0]);
      forall y | y in s ensures !less(y, x) {
        var k :| 0 <= k < |s| && s[k] == y;
        if k > 0 { NotBeforeTransitive(less, y, s[0], x); }
      }
      SortedCons(x, s, less);
    } else {
      var t := s[1..];
      InsertKeepsSorted(x, t, less);
      InsertMembers(x, t, less);
      forall y | y in Insert(x, t, less) ensures !less(y, s[0]) {
        if y != x { var k :| 0 <= k < |t| && t[k] == y; assert s[k + 1] == y; }
      }
      SortedCons(s[0], Insert(x, t, less), less);
    }
  }

  lemma SortedCons<T>(x: T, s: seq<T>, less: (T, T) -> bool)
    requires SortedBy(s, less) && forall y :: y in s ==> !less(y, x)
    ensures SortedBy([x] + s, less)
  {
    var r := [x] + s;
    forall i, j | 0 <= i < j < |r| ensures !less(r[j], r[i]) { assert r[j] == s[j - 1] && s[j - 1] in s; }
  }

  lemma {:induction false} InsertMembers<T>(x: T, s: seq<T>, less: (T, T) -> bool)
    ensures forall y :: y in Insert(x, s, less) <==> y == x || y in s
  {
    if s != [] && !less(x, s[0]) {
      InsertMembers(x, s[1..], less);
      assert s == [s[0]] + s[1..];
    }
  }

  lemma {:induction false} SortSorts<T(!new)>(s: seq<T>, less: (T, T) -> bool)
    requires StrictWeak(less)
    ensures SortedBy(SortSlice(s, less), less)
  {
    if s != [] {
      SortSorts(s[1..], less);
      InsertKeepsSorted(s[0], SortSlice(s[1..], less), less);
    }
  }

  lemma SortKeepsMembers<T>(s: seq<T>, less: (T, T) -> bool)
    ensures |SortSlice(s, less)| == |s|
    ensures forall x :: x in SortSlice(s, less) <==> x in s
  {
    SortIsPermutation(s, less);
    var r := SortSlice(s, less);
    assert |multiset(r)| == |r| && |multiset(s)| == |s|;
    forall x ensures x in r <==> x in s { assert x in multiset(r) <==> x in multiset(s); }
  }

  ghost predicate Distinct<T(!new)>(s: seq<T>)
  {
    forall i, j :: 0 <= i < j < |s| ==> s[i] != s[j]
  }

  lemma {:induction false} InsertKeepsDistinct<T(!new)>(x: T, s: seq<T>, less: (T, T) -> bool)
    requires Distinct(s) && x !in s
    ensures Distinct(Insert(x, s, less))
  {
    if s != [] && !less(x, s[0]) {
      var t := Insert(x, s[1..], less);
      InsertKeepsDistinct(x, s[1..], less);
      InsertMembers(x, s[1..], less);
      forall i | 0 <= i < |t| ensures t[i] != s[0] { assert t[i] in t; }
    }
  }

  lemma {:induction false} SortKeepsDistinct<T(!new)>(s: seq<T>, less: (T, T) -> bool)
    requires Distinct(s)
    ensures Distinct(SortSlice(s, less))
  {
    if s != [] {
      SortKeepsDistinct(s[1..], less);
      SortKeepsMembers(s[1..], less);
      InsertKeepsDistinct(s[0], SortSlice(s[1..], less), less);
    }
  }

  /** A list already in strictly increasing order is left alone. */
  lemma {:induction false} SortOfSorted<T(!new)>(s: seq<T>, less: (T, T) -> bool)
    requires StrictWeak(less)
    requires forall i, j :: 0 <= i < j < |s| ==> less(s[i], s[j])
    ensures SortSlice(s, less) == s
  {
    if |s| >= 1 {
      SortOfSorted(s[1..], less);
      assert s == [s[0]] + s[1..];
      if |s| > 1 { assert less(s[0], s[1]) && s[1..][0] == s[1]; }
    }
  }

  // ---------- container/heap ----------

  function Parent(i: nat): (p: nat)
    requires i > 0
  {
    (i - 1) / 2
  }

  /** Element i does not come before its parent. */
  ghost predicate BelowParent<T>(h: seq<T>, i: nat, less: (T, T) -> bool)
    requires 0 < i < |h|
  {
    !less(h[i], h[Parent(i)])
  }

  ghost predicate HeapOrdered<T>(h: seq<T>, less: (T, T) -> bool)
  {
    forall i: nat :: 0 < i < |h| ==> BelowParent(h, i, less)
  }

  /** Heap order on h[lo..]. */
  ghost predicate HeapFrom<T>(h: seq<T>, lo: nat, less: (T, T) -> bool)
  {
    forall i: nat :: 0 < i < |h| && Parent(i) >= lo ==> BelowParent(h, i, less)
  }

  /** The children of `hole` are not before its parent, when that lies at or above lo. */
  ghost predicate Grandchildren<T>(h: seq<T>, lo: nat, hole: nat, less: (T, T) -> bool)
    requires hole < |h|
  {
    hole > 0 && Parent(hole) >= lo ==>
      forall i: nat :: 0 < i < |h| && Parent(i) == hole ==> !less(h[i], h[Parent(hole)])
  }

  /** Heap order everywhere except between `hole` and its parent. */
  ghost predicate UpHole<T>(h: seq<T>, hole: nat, less: (T, T) -> bool)
  {
    && hole < |h|
    && (forall i: nat :: 0 < i < |h| && i != hole ==> BelowParent(h, i, less))
    && Grandchildren(h, 0, hole, less)
  }

  /** Heap order on h[lo..] everywhere except between `hole` and its children. */
  ghost predicate DownHole<T>(h: seq<T>, lo: nat, hole: nat, less: (T, T) -> bool)
  {
    && hole < |h|
    && (forall i: nat :: 0 < i < |h| && Parent(i) != hole && Parent(i) >= lo ==> BelowParent(h, i, less))
    && Grandchildren(h, lo, hole, less)
  }

  lemma {:induction false} HeapRootIsLeast<T(!new)>(h: seq<T>, less: (T, T) -> bool, i: nat)
    requires StrictWeak(less) && HeapOrdered(h, less) && i < |h|
    ensures !less(h[i], h[0])
  {
    if i > 0 {
      HeapRootIsLeast(h, less, Parent(i));
      assert BelowParent(h, i, less);
      NotBeforeTransitive(less, h[i], h[Parent(i)], h[0]);
    } else {
      BeforeIsAsymmetric(less, h[0], h[0]);
    }
  }

  function Swap<T>(h: seq<T>, i: nat, j: nat): (r: seq<T>)
    requires i < |h| && j < |h|
    ensures multiset(r) == multiset(h) && |r| == |h|
  {
    h[i := h[j]][j := h[i]]
  }

  lemma UpStep<T(!new)>(h: seq<T>, j: nat, less: (T, T) -> bool)
    requires StrictWeak(less) && UpHole(h, j, less) && j > 0 && less(h[j], h[Parent(j)])
    ensures UpHole(Swap(h, Parent(j), j), Parent(j), less)
  {
    var i := Parent(j);
    var r := Swap(h, i, j);
    BeforeIsAsymmetric(less, h[j], h[i]);
    forall k: nat | 0 < k < |r| && k != i ensures BelowParent(r, k, less) {
      if k != j {
        assert BelowParent(h, k, less);
        if Parent(k) == i { NotBeforeTransitive(less, h[k], h[i], h[j]); }
      }
    }
    if i > 0 {
      assert BelowParent(h, i, less);
      forall k: nat | 0 < k < |r| && Parent(k) == i ensures !less(r[k], r[Parent(i)]) {
        if k != j {
          assert BelowParent(h, k, less);
          NotBeforeTransitive(less, h[k], h[i], h[Parent(i)]);
        }
      }
    }
  }

  lemma DownStep<T(!new)>(h: seq<T>, lo: nat, i: nat, j: nat, less: (T, T) -> bool)
    requires StrictWeak(less) && lo <= i && DownHole(h, lo, i, less)
    requires i < j < |h| && Parent(j) == i && less(h[j], h[i])
    requires forall k: nat :: 0 < k < |h| && Parent(k) == i ==> !less(h[k], h[j])
    ensures DownHole(Swap(h, i, j), lo, j, less)
  {
    var r := Swap(h, i, j);
    BeforeIsAsymmetric(less, h[j], h[i]);
    forall k: nat | 0 < k < |r| && Parent(k) != j && Parent(k) >= lo ensures BelowParent(r, k, less) {
      if Parent(k) != i { assert BelowParent(h, k, less); }
    }
    forall k: nat | 0 < k < |r| && Parent(k) == j ensures !less(r[k], r[Parent(j)]) {
      assert BelowParent(h, k, less);
    }
  }

  method Up<T(!new)>(h0: seq<T>, j0: nat, less: (T, T) -> bool) returns (h: seq<T>)
    requires StrictWeak(less) && UpHole(h0, j0, less)
    ensures HeapOrdered(h, less) && multiset(h) == multiset(h0)
  {
    h := h0;
    var j: nat := j0;
    while j > 0 && less(h[j], h[Parent(j)])
      invariant UpHole(h, j, less) && multiset(h) == multiset(h0)
    {
      UpStep(h, j, less);
      h := Swap(h, Parent(j), j);
      j := Parent(j);
    }
    forall k: nat | 0 < k < |h| ensures BelowParent(h, k, less) { }
  }

  method Down<T(!new)>(h0: seq<T>, i0: nat, less: (T, T) -> bool) returns (h: seq<T>)
    requires StrictWeak(less) && DownHole(h0, i0, i0, less)
    ensures multiset(h) == multiset(h0) && |h| == |h0|
    ensures HeapFrom(h, i0, less)
  {
    hide DownHole, HeapFrom, StrictWeak;
    h := h0;
    var i: nat := i0;
    HoleInside(h, i0, i, less);
    while true
      invariant i0 <= i < |h| == |h0|
      invariant DownHole(h, i0, i, less) && multiset(h) == multiset(h0)
      decreases |h| - i
    {
      var j: nat := 2 * i + 1;
      if j >= |h| {
        NoChildren(h, i0, i, less);
        break;
      }
      if j + 1 < |h| && less(h[j + 1], h[j]) { j := j + 1; }
      LeastChild(h, i, j, less);
      if !less(h[j], h[i]) {
        HoleIsFilled(h, i0, i, j, less);
        break;
      }
      DownStep(h, i0, i, j, less);
      HoleInside(Swap(h, i, j), i0, j, less);
      h := Swap(h, i, j);
      i := j;
    }
  }

  lemma HoleInside<T>(h: seq<T>, lo: nat, i: nat, less: (T, T) -> bool)
    requires DownHole(h, lo, i, less)
    ensures i < |h|
  {
  }

  lemma NoChildren<T(!new)>(h: seq<T>, lo: nat, i: nat, less: (T, T) -> bool)
    requires DownHole(h, lo, i, less) && 2 * i + 1 >= |h|
    ensures HeapFrom(h, lo, less)
  {
  }

  lemma LeastChild<T(!new)>(h: seq<T>, i: nat, j: nat, less: (T, T) -> bool)
    requires StrictWeak(less) && j < |h| && (j == 2 * i + 1 || j == 2 * i + 2)
    requires j == 2 * i + 1 && j + 1 < |h| ==> !less(h[j + 1], h[j])
    requires j == 2 * i + 2 ==> less(h[j], h[j - 1])
    ensures i < j && Parent(j) == i && forall k: nat :: 0 < k < |h| && Parent(k) == i ==> !less(h[k], h[j])
  {
    forall k: nat | 0 < k < |h| && Parent(k) == i ensures !less(h[k], h[j]) {
      assert k == 2 * i + 1 || k == 2 * i + 2;
      BeforeIsAsymmetric(less, h[j], h[k]);
    }
  }

  lemma HoleIsFilled<T(!new)>(h: seq<T>, lo: nat, i: nat, j: nat, less: (T, T) -> bool)
    requires StrictWeak(less) && DownHole(h, lo, i, less) && j < |h| && !less(h[j], h[i])
    requires forall k: nat :: 0 < k < |h| && Parent(k) == i ==> !less(h[k], h[j])
    ensures HeapFrom(h, lo, less)
  {
    forall k: nat | 0 < k < |h| && Parent(k) == i
      ensures BelowParent(h, k, less)
    {
      NotBeforeTransitive(less, h[k], h[j], h[i]);
    }
  }

  method HeapInit<T(!new)>(h0: seq<T>, less: (T, T) -> bool) returns (h: seq<T>)
    requires StrictWeak(less)
    ensures HeapOrdered(h, less) && multiset(h) == multiset(h0)
  {
    h := h0;
    var i: nat := |h| / 2;
    while i > 0
      invariant i <= |h| == |h0| && multiset(h) == multiset(h0)
      invariant HeapFrom(h, i, less)
    {
      i := i - 1;
      h := Down(h, i, less);
    }
    forall k: nat | 0 < k < |h| ensures BelowParent(h, k, less) { assert Parent(k) >= 0; }
  }

  method HeapPush<T(!new)>(h0: seq<T>, x: T, less: (T, T) -> bool) returns (h: seq<T>)
    requires StrictWeak(less) && HeapOrdered(h0, less)
    ensures HeapOrdered(h, less) && multiset(h) == multiset(h0) + multiset{x}
  {
    h := h0 + [x];
    forall k: nat | 0 < k < |h0| ensures BelowParent(h, k, less) { assert BelowParent(h0, k, less); }
    h := Up(h, |h0|, less);
  }

  method HeapPop<T(!new)>(h0: seq<T>, less: (T, T) -> bool) returns (x: T, h: seq<T>)
    requires StrictWeak(less) && HeapOrdered(h0, less) && h0 != []
    ensures HeapOrdered(h, less) && multiset(h0) == multiset(h) + multiset{x}
    ensures x == h0[0] && forall y :: y in h0 ==> !less(y, x)
    ensures |h| == |h0| - 1
  {
    var n := |h0| - 1;
    x := h0[0];
    var swapped := Swap(h0, 0, n);
    assert swapped == swapped[..n] + [x];
    h := swapped[..n];
    if n > 0 {
      forall k: nat | 0 < k < n && Parent(k) != 0 ensures BelowParent(h, k, less) { assert BelowParent(h0, k, less); }
      h := Down(h, 0, less);
      forall k: nat | 0 < k < |h| ensures BelowParent(h, k, less) { assert Parent(k) >= 0; }
    }
    forall y | y in h0 ensures !less(y, x) {
      var i :| 0 <= i < |h0| && h0[i] == y;
      HeapRootIsLeast(h0, less, i);
    }
  }

  // ---------- sort.Search ----------

  /** The loop of sort.Search on [lo, hi): the least index whose value is true,
      when `at` is false up to some index and true from there on. */
  function Search(lo: nat, hi: nat, at: nat -> bool): (i: nat)
    requires lo <= hi
    ensures lo <= i <= hi
    decreases hi - lo
  {
    if lo == hi then lo
    else
      var h := lo + (hi - lo) / 2;
      if at(h) then Search(lo, h, at) else Search(h + 1, hi, at)
  }

  lemma {:induction false} SearchFinds(lo: nat, hi: nat, at: nat -> bool)
    requires lo <= hi
    requires forall i, j :: lo <= i <= j < hi && at(i) ==> at(j)
    ensures forall i :: lo <= i < Search(lo, hi, at) ==> !at(i)
    ensures forall i :: Search(lo, hi, at) <= i < hi ==> at(i)
    decreases hi - lo
  {
    if lo < hi {
      var h := lo + (hi - lo) / 2;
      if at(h) { SearchFinds(lo, h, at); } else { SearchFinds(h + 1, hi, at); }
    }
  }

  // ---------- one order ----------

  /** Two sorted lists of the same different elements are the same list, when the order tells them apart. */
  lemma {:induction false} SortedUnique<T(!new)>(a: seq<T>, b: seq<T>, less: (T, T) -> bool)
    requires SortedBy(a, less) && SortedBy(b, less) && Distinct(a) && Distinct(b) && forall x :: x in a <==> x in b
    requires forall x, y :: x in a && y in a && x != y ==> less(x, y) || less(y, x)
    ensures a == b
  {
    if a == [] {
      SomeMember(b);
    } else {
      assert a[0] in b;
      assert b[0] in a;
      SameHead(a, b, less);
      RestMembers(a);
      RestMembers(b);
      SortedUnique(a[1..], b[1..], less);
      assert a == [a[0]] + a[1..] && b == [b[0]] + b[1..];
    }
  }

  lemma SomeMember<T>(s: seq<T>)
    ensures s == [] || exists x :: x in s
  {
    if s != [] { assert s[0] in s; }
  }

  lemma SameHead<T(!new)>(a: seq<T>, b: seq<T>, less: (T, T) -> bool)
    requires SortedBy(a, less) && SortedBy(b, less) && a != [] && b != [] && a[0] in b && b[0] in a
    requires forall x, y :: x in a && y in a && x != y ==> less(x, y) || less(y, x)
    ensures a[0] == b[0]
  {
    var i :| 0 <= i < |a| && a[i] == b[0];
    var j :| 0 <= j < |b| && b[j] == a[0];
    assert a[0] in a;
    assert i > 0 ==> !less(a[i], a[0]);
    assert j > 0 ==> !less(b[j], b[0]);
  }

  lemma RestMembers<T(!new)>(s: seq<T>)
    requires s != [] && Distinct(s)
    ensures Distinct(s[1..]) && forall x :: x in s[1..] <==> x in s && x != s[0]
  {
    assert s == [s[0]] + s[1..];
  }
}
