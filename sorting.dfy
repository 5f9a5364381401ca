/**
 * The `ORDER BY` of the store's list queries: a stable insertion sort under a
 * total preorder, proved to return a sorted permutation of its input. SQL leaves
 * the order of ties open; the model picks insertion order for them, and the
 * store's contracts promise only "sorted" and "same rows".
 */
module Sorting {

  /** `le` is total and transitive: a valid `ORDER BY` key comparison. */
  ghost predicate TotalPreorder<T(!new)>(le: (T, T) -> bool)
  {
    && (forall a, b :: le(a, b) || le(b, a))
    && (forall a, b, c :: le(a, b) && le(b, c) ==> le(a, c))
  }

  predicate SortedBy<T>(s: seq<T>, le: (T, T) -> bool)
  {
    forall i, j :: 0 <= i < j < |s| ==> le(s[i], s[j])
  }

  /** Places `x` before the first element it sorts before or beside. */
  function InsertSorted<T>(x: T, s: seq<T>, le: (T, T) -> bool): seq<T>
  {
    if s == [] then [x]
    else if le(x, s[0]) then [x] + s
    else [s[0]] + InsertSorted(x, s[1..], le)
  }

  function InsertionSort<T>(s: seq<T>, le: (T, T) -> bool): seq<T>
  {
    if s == [] then [] else InsertSorted(s[0], InsertionSort(s[1..], le), le)
  }

  lemma {:induction false} InsertSortedMultiset<T>(x: T, s: seq<T>, le: (T, T) -> bool)
    ensures multiset(InsertSorted(x, s, le)) == multiset(s) + multiset{x}
  {
    if s != [] && !le(x, s[0]) {
      InsertSortedMultiset(x, s[1..], le);
      assert s == [s[0]] + s[1..];
    }
  }

  /** A sorted sequence stays sorted when an element below all of it is put in front. */
  lemma SortedCons<T>(x: T, s: seq<T>, le: (T, T) -> bool)
    requires SortedBy(s, le)
    requires forall y :: y in s ==> le(x, y)
    ensures SortedBy([x] + s, le)
  {
    var r := [x] + s;
    forall i, j | 0 <= i < j < |r| ensures le(r[i], r[j]) {
      if i == 0 {
        assert r[j] == s[j - 1];
      } else {
        assert r[i] == s[i - 1] && r[j] == s[j - 1];
      }
    }
  }

  lemma {:induction false} InsertSortedSorted<T(!new)>(x: T, s: seq<T>, le: (T, T) -> bool)
    requires TotalPreorder(le) && SortedBy(s, le)
    ensures SortedBy(InsertSorted(x, s, le), le)
  {
    if s == [] {
    } else if le(x, s[0]) {
      forall y | y in s ensures le(x, y) {
        var k :| 0 <= k < |s| && s[k] == y;
        if k > 0 {
          assert le(s[0], s[k]);
        }
      }
      SortedCons(x, s, le);
    } else {
      var rest := InsertSorted(x, s[1..], le);
      InsertSortedSorted(x, s[1..], le);
      InsertSortedMultiset(x, s[1..], le);
      assert le(s[0], x);
      forall y | y in rest ensures le(s[0], y) {
        assert y in multiset(rest);
        if y != x {
          assert y in s[1..];
          var k :| 0 <= k < |s[1..]| && s[1..][k] == y;
          assert s[k + 1] == y;
        }
      }
      SortedCons(s[0], rest, le);
    }
  }

  /** The sort returns the same rows, sorted. */
  lemma {:induction false} InsertionSortCorrect<T(!new)>(s: seq<T>, le: (T, T) -> bool)
    requires TotalPreorder(le)
    ensures multiset(InsertionSort(s, le)) == multiset(s)
    ensures SortedBy(InsertionSort(s, le), le)
  {
    if s != [] {
      InsertionSortCorrect(s[1..], le);
      InsertSortedMultiset(s[0], InsertionSort(s[1..], le), le);
      InsertSortedSorted(s[0], InsertionSort(s[1..], le), le);
      assert s == [s[0]] + s[1..];
    }
  }

  /** Text comparison under SQLite's default BINARY collation: code point by code point. */
  predicate TextLe(a: string, b: string)
  {
    a == [] || (b != [] && (a[0] < b[0] || (a[0] == b[0] && TextLe(a[1..], b[1..]))))
  }

  lemma {:induction false} TextLeTotal(a: string, b: string)
    ensures TextLe(a, b) || TextLe(b, a)
  {
    if a != [] && b != [] && a[0] == b[0] {
      TextLeTotal(a[1..], b[1..]);
    }
  }

  lemma {:induction false} TextLeTrans(a: string, b: string, c: string)
    requires TextLe(a, b) && TextLe(b, c)
    ensures TextLe(a, c)
  {
    if a != [] && b != [] && c != [] && a[0] == b[0] && b[0] == c[0] {
      TextLeTrans(a[1..], b[1..], c[1..]);
    }
  }

  lemma {:induction false} TextLeAntisym(a: string, b: string)
    requires TextLe(a, b) && TextLe(b, a)
    ensures a == b
  {
    if a != [] && b != [] {
      TextLeAntisym(a[1..], b[1..]);
    }
  }

  /** `ORDER BY k1, k2` on two text keys: by the first, ties broken by the second. */
  predicate TextPairLe(a1: string, a2: string, b1: string, b2: string)
  {
    (TextLe(a1, b1) && a1 != b1) || (a1 == b1 && TextLe(a2, b2))
  }

  lemma TextPairLeTotal(a1: string, a2: string, b1: string, b2: string)
    ensures TextPairLe(a1, a2, b1, b2) || TextPairLe(b1, b2, a1, a2)
  {
    TextLeTotal(a1, b1);
    TextLeTotal(a2, b2);
  }

  lemma TextPairLeTrans(a1: string, a2: string, b1: string, b2: string, c1: string, c2: string)
    requires TextPairLe(a1, a2, b1, b2) && TextPairLe(b1, b2, c1, c2)
    ensures TextPairLe(a1, a2, c1, c2)
  {
    if a1 != b1 && b1 != c1 {
      TextLeTrans(a1, b1, c1);
      if a1 == c1 {
        TextLeAntisym(a1, b1);
      }
    } else if a1 == b1 && b1 == c1 {
      TextLeTrans(a2, b2, c2);
    }
  }
}
