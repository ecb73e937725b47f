/** Ordering by an integer key. The storage orders search results by a
    field (`sort({ lastUpdated: -1 })`), modelled by the pure `SortBy`;
    the hotels page sorts a fresh array in place with a comparator
    (`result.sort((a, b) => a.pricePerNight - b.pricePerNight)`),
    modelled by `SortInPlace`. A descending order is an ascending one on
    the negated key. */
module Sorting {

  /** `s` is in non-decreasing order of `key`: each element's key is at
      most the next one's. */
  predicate Ascending<T>(s: seq<T>, key: T -> int)
  {
    forall i :: 0 < i < |s| ==> key(s[i - 1]) <= key(s[i])
  }

  /** In an ascending sequence every earlier key is at most every later
      one. */
  lemma {:induction false} AscendingPairs<T>(s: seq<T>, key: T -> int, i: int, j: int)
    requires Ascending(s, key) && 0 <= i <= j < |s|
    ensures key(s[i]) <= key(s[j])
    decreases j - i
  {
    if i < j {
      AscendingPairs(s, key, i, j - 1);
    }
  }

  /** A contiguous part of an ascending sequence is ascending. */
  lemma AscendingSlice<T>(s: seq<T>, key: T -> int, from: int, to: int)
    requires Ascending(s, key) && 0 <= from <= to <= |s|
    ensures Ascending(s[from..to], key)
  {
    var w := s[from..to];
    forall i | 0 < i < |w|
      ensures key(w[i - 1]) <= key(w[i])
    {
      assert w[i - 1] == s[from + i - 1] && w[i] == s[from + i];
    }
  }

  /** Inserts `x` into the ordered `s` after every element whose key is
      not greater. */
  function Insert<T>(x: T, s: seq<T>, key: T -> int): (r: seq<T>)
    requires Ascending(s, key)
    ensures Ascending(r, key)
    ensures multiset(r) == multiset(s) + multiset{x}
    ensures r[0] == x || (s != [] && r[0] == s[0])
  {
    if s == [] then [x]
    else if key(x) < key(s[0]) then [x] + s
    else
      assert s == [s[0]] + s[1..];
      [s[0]] + Insert(x, s[1..], key)
  }

  /** Insertion sort: the same elements, in non-decreasing key order. */
  function SortBy<T>(s: seq<T>, key: T -> int): (r: seq<T>)
    ensures Ascending(r, key)
    ensures multiset(r) == multiset(s)
  {
    if s == [] then []
    else
      assert s == [s[0]] + s[1..];
      Insert(s[0], SortBy(s[1..], key), key)
  }

  /** Sorts `a` in place: each element in turn is moved left past the
      greater ones before it. Afterwards `a` holds the same elements in
      non-decreasing key order. */
  method SortInPlace<T>(a: array<T>, key: T -> int)
    modifies a
    ensures Ascending(a[..], key)
    ensures multiset(a[..]) == multiset(old(a[..]))
  {
    var i := 0;
    while i < a.Length
      invariant 0 <= i <= a.Length
      invariant forall k :: 0 < k < i ==> key(a[k - 1]) <= key(a[k])
      invariant multiset(a[..]) == multiset(old(a[..]))
    {
      MoveLeft(a, key, i);
      i := i + 1;
    }
  }

  /** One step of `SortInPlace`: with `a[..i]` ordered, moves `a[i]` left
      past the greater elements, so that `a[..i + 1]` is ordered. */
  method MoveLeft<T>(a: array<T>, key: T -> int, i: int)
    requires 0 <= i < a.Length
    requires forall k :: 0 < k < i ==> key(a[k - 1]) <= key(a[k])
    modifies a
    ensures forall k :: 0 < k <= i ==> key(a[k - 1]) <= key(a[k])
    ensures multiset(a[..]) == multiset(old(a[..]))
  {
    var j := i;
    while j > 0 && key(a[j - 1]) > key(a[j])
      invariant 0 <= j <= i
      invariant multiset(a[..]) == multiset(old(a[..]))
      invariant forall k :: 0 < k <= i && k != j ==> key(a[k - 1]) <= key(a[k])
      invariant 0 < j < i ==> key(a[j - 1]) <= key(a[j + 1])
    {
      Swap(a, j - 1, j);
      j := j - 1;
    }
  }

  /** Exchanges two elements of `a`. */
  method Swap<T>(a: array<T>, i: int, j: int)
    requires 0 <= i < a.Length && 0 <= j < a.Length
    modifies a
    ensures a[..] == old(a[..])[i := old(a[j])][j := old(a[i])]
    ensures multiset(a[..]) == multiset(old(a[..]))
  {
    a[i], a[j] := a[j], a[i];
  }

  /** Ascending on the negated key is non-increasing on the key. */
  lemma DescendingByNegation<T>(s: seq<T>, key: T -> int, negated: T -> int, i: int, j: int)
    requires forall x :: negated(x) == -key(x)
    requires Ascending(s, negated) && 0 <= i <= j < |s|
    ensures key(s[i]) >= key(s[j])
  {
    AscendingPairs(s, negated, i, j);
  }
}
