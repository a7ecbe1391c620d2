/**
 * In-place sorting under a three-level comparator. Every comparator of the game
 * (items, quests, achievements) compares up to three integer keys in turn and
 * returns the first nonzero difference, so each is the lexicographic order on
 * a `SortKey`; the lemmas beside each comparator prove that correspondence.
 */
module Sorting {

  datatype SortKey = SortKey(first: int, second: int, third: int)

  /** Lexicographic order: `a` may come before `b`. */
  predicate KeyLe(a: SortKey, b: SortKey) {
    a.first < b.first || (a.first == b.first && (a.second < b.second || (a.second == b.second && a.third <= b.third)))
  }

  /** Every element is ordered no later than every element after it. */
  ghost predicate SortedBy<T>(s: seq<T>, key: T -> SortKey) {
    forall i, j :: 0 <= i < j < |s| ==> KeyLe(key(s[i]), key(s[j]))
  }

  /** Position of an element of `a[lo..]` whose key is least. */
  method IndexOfLeast<T>(a: array<T>, lo: nat, key: T -> SortKey) returns (m: nat)
    requires lo < a.Length
    ensures lo <= m < a.Length
    ensures forall k :: lo <= k < a.Length ==> KeyLe(key(a[m]), key(a[k]))
  {
    m := lo;
    var i := lo + 1;
    while i < a.Length
      invariant lo <= m < i <= a.Length
      invariant forall k :: lo <= k < i ==> KeyLe(key(a[m]), key(a[k]))
    {
      if !KeyLe(key(a[m]), key(a[i])) {
        m := i;
      }
      i := i + 1;
    }
  }

  /** Exchanges `a[i]` and `a[j]`, leaving every other element where it was. */
  method Swap<T>(a: array<T>, i: nat, j: nat)
    requires i < a.Length && j < a.Length
    modifies a
    ensures a[i] == old(a[j]) && a[j] == old(a[i])
    ensures forall k :: 0 <= k < a.Length && k != i && k != j ==> a[k] == old(a[k])
    ensures multiset(a[..]) == multiset(old(a[..]))
  {
    a[i], a[j] := a[j], a[i];
  }

  /**
   * Sorts `a` in place by `key`: the result is ordered and is a permutation of the
   * input. (Selection sort; the order it gives equal keys is not specified.)
   */
  method SortByKey<T>(a: array<T>, key: T -> SortKey)
    modifies a
    ensures SortedBy(a[..], key)
    ensures multiset(a[..]) == multiset(old(a[..]))
  {
    var i := 0;
    while i < a.Length
      invariant 0 <= i <= a.Length
      invariant forall p, q :: 0 <= p < q < i ==> KeyLe(key(a[p]), key(a[q]))
      invariant forall p, q :: 0 <= p < i <= q < a.Length ==> KeyLe(key(a[p]), key(a[q]))
      invariant multiset(a[..]) == multiset(old(a[..]))
    {
      var m := IndexOfLeast(a, i, key);
      Swap(a, i, m);
      i := i + 1;
    }
  }
}
