/**
 * Python's sorted() on a list of strings. Strings compare lexicographically by
 * code point, a prefix before any longer string, which is a total order, so
 * every sort gives the same result: the one sorted permutation of the list.
 */
module StringSort {

  /** a <= b in Python's string order. */
  predicate StrLe(a: string, b: string) {
    a == [] || (b != [] && (a[0] < b[0] || (a[0] == b[0] && StrLe(a[1..], b[1..]))))
  }

  lemma {:induction false} StrLeTotal(a: string, b: string)
    ensures StrLe(a, b) || StrLe(b, a)
  {
    if a != [] && b != [] && a[0] == b[0] {
      StrLeTotal(a[1..], b[1..]);
    }
  }

  lemma {:induction false} StrLeReflexive(a: string)
    ensures StrLe(a, a)
  {
    if a != [] {
      StrLeReflexive(a[1..]);
    }
  }

  lemma {:induction false} StrLeAntisymmetric(a: string, b: string)
    requires StrLe(a, b) && StrLe(b, a)
    ensures a == b
  {
    if a != [] && b != [] {
      StrLeAntisymmetric(a[1..], b[1..]);
      assert a == [a[0]] + a[1..] && b == [b[0]] + b[1..];
    }
  }

  lemma {:induction false} StrLeTransitive(a: string, b: string, c: string)
    requires StrLe(a, b) && StrLe(b, c)
    ensures StrLe(a, c)
  {
    if a != [] && b != [] && c != [] && a[0] == b[0] && b[0] == c[0] {
      StrLeTransitive(a[1..], b[1..], c[1..]);
    }
  }

  /** Every string is at most every later one. */
  predicate Sorted(xs: seq<string>) {
    forall i, j :: 0 <= i < j < |xs| ==> StrLe(xs[i], xs[j])
  }

  /** x put before the first element of the sorted list xs that it does not exceed. */
  function Insert(x: string, xs: seq<string>): (r: seq<string>)
    ensures |r| == |xs| + 1
  {
    if xs == [] || StrLe(x, xs[0]) then [x] + xs else [xs[0]] + Insert(x, xs[1..])
  }

  lemma {:induction false} InsertPermutation(x: string, xs: seq<string>)
    ensures multiset(Insert(x, xs)) == multiset(xs) + multiset{x}
  {
    if !(xs == [] || StrLe(x, xs[0])) {
      InsertPermutation(x, xs[1..]);
      assert xs == [xs[0]] + xs[1..];
    }
  }

  lemma {:induction false} InsertSorted(x: string, xs: seq<string>)
    requires Sorted(xs)
    ensures Sorted(Insert(x, xs))
  {
    if xs != [] && !StrLe(x, xs[0]) {
      InsertSorted(x, xs[1..]);
      InsertAfterFirst(x, xs);
    } else if xs != [] {
      InsertFirst(x, xs);
    }
  }

  /** x goes after the first element, and the rest of the insertion is sorted. */
  lemma InsertAfterFirst(x: string, xs: seq<string>)
    requires Sorted(xs) && xs != [] && !StrLe(x, xs[0]) && Sorted(Insert(x, xs[1..]))
    ensures Sorted(Insert(x, xs))
  {
    StrLeTotal(x, xs[0]);
    assert forall k :: 0 <= k < |xs[1..]| ==> StrLe(xs[0], xs[1..][k]) by {
      forall k | 0 <= k < |xs[1..]| ensures StrLe(xs[0], xs[1..][k]) {
        assert xs[1..][k] == xs[k + 1];
      }
    }
    InsertBound(xs[0], x, xs[1..]);
    var r := Insert(x, xs);
    var tail := Insert(x, xs[1..]);
    forall i, j | 0 <= i < j < |r| ensures StrLe(r[i], r[j]) {
      assert r[j] == tail[j - 1];
      if i > 0 {
        assert r[i] == tail[i - 1];
      }
    }
  }

  /** A lower bound of x and of every element of xs bounds every element of the insertion. */
  lemma {:induction false} InsertBound(y: string, x: string, xs: seq<string>)
    requires StrLe(y, x) && forall k :: 0 <= k < |xs| ==> StrLe(y, xs[k])
    ensures forall k :: 0 <= k < |Insert(x, xs)| ==> StrLe(y, Insert(x, xs)[k])
  {
    if !(xs == [] || StrLe(x, xs[0])) {
      var tail := Insert(x, xs[1..]);
      assert forall k :: 0 <= k < |xs[1..]| ==> StrLe(y, xs[1..][k]) by {
        forall k | 0 <= k < |xs[1..]| ensures StrLe(y, xs[1..][k]) {
          assert xs[1..][k] == xs[k + 1];
        }
      }
      InsertBound(y, x, xs[1..]);
      var r := Insert(x, xs);
      forall k | 1 <= k < |r| ensures StrLe(y, r[k]) {
        assert r[k] == tail[k - 1];
      }
    }
  }

  /** x goes first, ahead of a first element it does not exceed. */
  lemma InsertFirst(x: string, xs: seq<string>)
    requires Sorted(xs) && xs != [] && StrLe(x, xs[0])
    ensures Sorted(Insert(x, xs))
  {
    var r := Insert(x, xs);
    forall i, j | 0 <= i < j < |r| ensures StrLe(r[i], r[j]) {
      if i == 0 && j > 1 {
        StrLeTransitive(x, xs[0], xs[j - 1]);
      }
    }
  }

  /** sorted(xs) for a list of strings, by insertion. */
  function SortStrings(xs: seq<string>): (r: seq<string>)
    ensures |r| == |xs|
  {
    if xs == [] then [] else Insert(xs[0], SortStrings(xs[1..]))
  }

  /** The result is in order and holds the same strings, as often as xs does. */
  lemma {:induction false} SortStringsSorted(xs: seq<string>)
    ensures Sorted(SortStrings(xs)) && multiset(SortStrings(xs)) == multiset(xs)
  {
    if xs != [] {
      SortStringsSorted(xs[1..]);
      InsertSorted(xs[0], SortStrings(xs[1..]));
      InsertPermutation(xs[0], SortStrings(xs[1..]));
      assert xs == [xs[0]] + xs[1..];
    }
  }

  /** Two sorted lists holding the same strings are equal, so any sort of xs gives SortStrings(xs). */
  lemma {:induction false} SortedUnique(a: seq<string>, b: seq<string>)
    requires Sorted(a) && Sorted(b) && multiset(a) == multiset(b)
    ensures a == b
    decreases |a|
  {
    if a != [] {
      SameFirst(a, b);
      SortedTail(a);
      SortedTail(b);
      assert a == [a[0]] + a[1..] && b == [b[0]] + b[1..];
      assert multiset(a[1..]) == multiset(a) - multiset{a[0]};
      assert multiset(b[1..]) == multiset(b) - multiset{b[0]};
      SortedUnique(a[1..], b[1..]);
    }
  }

  /** Sorted lists holding the same strings start with the same one. */
  lemma SameFirst(a: seq<string>, b: seq<string>)
    requires Sorted(a) && Sorted(b) && multiset(a) == multiset(b) && a != []
    ensures b != [] && a[0] == b[0]
  {
    assert a[0] in multiset(b);
    assert b[0] in multiset(a);
    var i :| 0 <= i < |a| && a[i] == b[0];
    var j :| 0 <= j < |b| && b[j] == a[0];
    StrLeReflexive(a[0]);
    StrLeReflexive(b[0]);
    assert StrLe(a[0], a[i]);
    assert StrLe(b[0], b[j]);
    StrLeAntisymmetric(a[0], b[0]);
  }

  lemma SortedTail(a: seq<string>)
    requires Sorted(a) && a != []
    ensures Sorted(a[1..])
  {
    forall i, j | 0 <= i < j < |a[1..]| ensures StrLe(a[1..][i], a[1..][j]) {
      assert a[1..][i] == a[i + 1] && a[1..][j] == a[j + 1];
    }
  }

  /** Any sorted rearrangement of xs is what sorted(xs) returns. */
  lemma SortIsSorted(xs: seq<string>, ys: seq<string>)
    requires Sorted(ys) && multiset(ys) == multiset(xs)
    ensures ys == SortStrings(xs)
  {
    SortStringsSorted(xs);
    SortedUnique(ys, SortStrings(xs));
  }
}
