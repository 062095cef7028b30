/**
 * Orderings and an insertion sort on sequences, standing in for the
 * `std::ranges::sort` calls of the session list and the mouse hit-test,
 * and `std::string`'s `operator<`.
 */
module Sorting {

  /** `le` is total and transitive: the "not after" relation of a strict weak order. */
  ghost predicate TotalPreorder<T(!new)>(le: (T, T) -> bool) {
    && (forall a, b :: le(a, b) || le(b, a))
    && (forall a, b, c :: le(a, b) && le(b, c) ==> le(a, c))
  }

  ghost predicate SortedBy<T>(s: seq<T>, le: (T, T) -> bool) {
    forall i, j :: 0 <= i < j < |s| ==> le(s[i], s[j])
  }

  /**
   * `std::sort` with a comparator `less`: the result is a permutation of the
   * input in which no element is less than an earlier one. Called with
   * `le(a, b) == !less(b, a)`.
   */
  method InsertionSort<T(!new)>(s: seq<T>, le: (T, T) -> bool) returns (r: seq<T>)
    requires TotalPreorder(le)
    ensures multiset(r) == multiset(s)
    ensures SortedBy(r, le)
  {
    r := [];
    var i := 0;
    while i < |s|
      invariant 0 <= i <= |s|
      invariant multiset(r) == multiset(s[..i])
      invariant SortedBy(r, le)
    {
      var x := s[i];
      var j := |r|;
      while j > 0 && !le(r[j - 1], x)
        invariant 0 <= j <= |r|
        invariant forall k :: j <= k < |r| ==> le(x, r[k])
      {
        j := j - 1;
      }
      InsertKeepsSorted(r, j, x, le);
      InsertAddsOne(r, j, x);
      r := r[..j] + [x] + r[j..];
      assert s[..i + 1] == s[..i] + [x];
      i := i + 1;
    }
    assert s[..i] == s;
  }

  lemma InsertAddsOne<T>(r: seq<T>, j: nat, x: T)
    requires j <= |r|
    ensures multiset(r[..j] + [x] + r[j..]) == multiset(r) + multiset{x}
  {
    assert r == r[..j] + r[j..];
  }

  lemma InsertKeepsSorted<T(!new)>(r: seq<T>, j: nat, x: T, le: (T, T) -> bool)
    requires TotalPreorder(le) && SortedBy(r, le) && j <= |r|
    requires j > 0 ==> le(r[j - 1], x)
    requires forall k :: j <= k < |r| ==> le(x, r[k])
    ensures SortedBy(r[..j] + [x] + r[j..], le)
  {
    var t := r[..j] + [x] + r[j..];
    forall a, b | 0 <= a < b < |t| ensures le(t[a], t[b]) {
      if b < j {
        assert t[a] == r[a] && t[b] == r[b];
      } else if b == j {
        assert t[a] == r[a];
        assert le(r[a], r[j - 1]) || a == j - 1;
      } else if a == j {
        assert t[b] == r[b - 1];
      } else if a < j {
        assert t[a] == r[a] && t[b] == r[b - 1];
      } else {
        assert t[a] == r[a - 1] && t[b] == r[b - 1];
      }
    }
  }

  /** `std::string`'s `operator<`: lexicographic order, a proper prefix first. */
  predicate LexLess(a: string, b: string) {
    if a == [] then b != []
    else if b == [] then false
    else if a[0] != b[0] then a[0] < b[0]
    else LexLess(a[1..], b[1..])
  }

  /** Exactly one of a < b, a == b, b < a. */
  lemma {:induction false} LexTrichotomy(a: string, b: string)
    ensures LexLess(a, b) || a == b || LexLess(b, a)
    ensures !(LexLess(a, b) && LexLess(b, a))
    ensures !LexLess(a, a)
  {
    if a != [] && b != [] && a[0] == b[0] {
      LexTrichotomy(a[1..], b[1..]);
      if a[1..] == b[1..] {
        assert a == [a[0]] + a[1..] && b == [b[0]] + b[1..];
      }
    }
    if a != [] {
      LexTrichotomy(a[1..], a[1..]);
    }
  }

  lemma {:induction false} LexTransitive(a: string, b: string, c: string)
    requires LexLess(a, b) && LexLess(b, c)
    ensures LexLess(a, c)
  {
    if a != [] && a[0] == b[0] && b[0] == c[0] {
      LexTransitive(a[1..], b[1..], c[1..]);
    }
  }

  /** Ordering by a string key with `<` (or `>` when reversed) is a total preorder. */
  lemma KeyOrderIsTotalPreorder<T(!new)>(key: T -> string, reverse: bool, le: (T, T) -> bool)
    requires forall a, b :: le(a, b) == if reverse then !LexLess(key(a), key(b)) else !LexLess(key(b), key(a))
    ensures TotalPreorder(le)
  {
    forall a, b ensures le(a, b) || le(b, a) {
      LexTrichotomy(key(a), key(b));
    }
    forall a, b, c | le(a, b) && le(b, c) ensures le(a, c) {
      LexTrichotomy(key(a), key(b));
      LexTrichotomy(key(b), key(c));
      LexTrichotomy(key(a), key(c));
      if reverse {
        if LexLess(key(a), key(c)) {
          if key(a) != key(b) { LexTransitive(key(b), key(a), key(c)); }
        }
      } else {
        if LexLess(key(c), key(a)) {
          if key(a) != key(b) { LexTransitive(key(c), key(a), key(b)); }
        }
      }
    }
  }
}
