/**
 * `Array.prototype.sort` with a comparator, as an insertion sort over a
 * "may precede" relation `le`: `le(a, b)` holds when the comparator does not
 * put `b` strictly before `a`. The result is always a permutation of the
 * input; it is sorted whenever `le` is a total preorder on the elements
 * being sorted, which is exactly when the comparator is consistent on them.
 */
module Sorting {

  /** `le` is total and transitive on the elements of `s`. */
  ghost predicate TotalPreorderOn<T>(s: seq<T>, le: (T, T) -> bool) {
    (forall a, b :: a in s && b in s ==> le(a, b) || le(b, a))
    && (forall a, b, c :: a in s && b in s && c in s && le(a, b) && le(b, c) ==> le(a, c))
  }

  /** Every element may precede every later one. */
  predicate SortedBy<T>(s: seq<T>, le: (T, T) -> bool) {
    forall i, j :: 0 <= i < j < |s| ==> le(s[i], s[j])
  }

  /** `x` may precede every element of `s`. */
  predicate Below<T>(x: T, s: seq<T>, le: (T, T) -> bool) {
    forall i :: 0 <= i < |s| ==> le(x, s[i])
  }

  /** Inserts `x` in front of the first element it may precede. */
  function Insert<T>(x: T, s: seq<T>, le: (T, T) -> bool): (r: seq<T>)
    ensures multiset(r) == multiset(s) + multiset{x}
    ensures |r| == |s| + 1
  {
    if s == [] then [x]
    else if le(x, s[0]) then [x] + s
    else
      var r := [s[0]] + Insert(x, s[1..], le);
      assert s == [s[0]] + s[1..];
      r
  }

  /** An element that may precede `x` and everything in `s` may precede everything in `Insert(x, s)`. */
  lemma {:induction false} InsertBelow<T>(y: T, x: T, s: seq<T>, le: (T, T) -> bool)
    requires le(y, x) && Below(y, s, le)
    ensures Below(y, Insert(x, s, le), le)
  {
    if s != [] && !le(x, s[0]) {
      InsertBelow(y, x, s[1..], le);
    }
  }

  lemma {:induction false} InsertSorted<T>(x: T, s: seq<T>, le: (T, T) -> bool)
    requires TotalPreorderOn([x] + s, le) && SortedBy(s, le)
    ensures SortedBy(Insert(x, s, le), le)
  {
    if s == [] {
    } else if le(x, s[0]) {
      var r := [x] + s;
      forall i, j | 0 <= i < j < |r| ensures le(r[i], r[j]) {
        if i == 0 && j > 1 {
          assert le(s[0], s[j - 1]);
          assert s[0] in r && s[j - 1] in r;
        }
      }
    } else {
      var t := s[1..];
      assert forall y :: y in [x] + t ==> y in [x] + s;
      InsertSorted(x, t, le);
      assert x in [x] + s && s[0] in [x] + s;
      assert le(s[0], x);
      assert Below(s[0], t, le);
      InsertBelow(s[0], x, t, le);
    }
  }

  /** A total preorder on a sequence is one on any sequence drawn from it. */
  lemma PreorderWithin<T>(s: seq<T>, t: seq<T>, le: (T, T) -> bool)
    requires TotalPreorderOn(s, le)
    requires forall y :: y in t ==> y in s
    ensures TotalPreorderOn(t, le)
  {
  }

  /** Inserting the head into the sorted tail sorts the whole sequence. */
  lemma SortStep<T>(s: seq<T>, rest: seq<T>, le: (T, T) -> bool)
    requires s != [] && multiset(rest) == multiset(s[1..])
    requires TotalPreorderOn(s[1..], le) ==> SortedBy(rest, le)
    ensures multiset(Insert(s[0], rest, le)) == multiset(s)
    ensures TotalPreorderOn(s, le) ==> SortedBy(Insert(s[0], rest, le), le)
  {
    assert s == [s[0]] + s[1..];
    if TotalPreorderOn(s, le) {
      PreorderWithin(s, s[1..], le);
      forall y | y in [s[0]] + rest ensures y in s {
        if y != s[0] {
          assert y in multiset(rest);
        }
      }
      PreorderWithin(s, [s[0]] + rest, le);
      InsertSorted(s[0], rest, le);
    }
  }

  /**
   * The comparator sort: a permutation of `s`, sorted whenever `le` is a
   * total preorder on the elements of `s`, as `Array.prototype.sort`
   * promises for a consistent comparator.
   */
  function Sort<T>(s: seq<T>, le: (T, T) -> bool): (r: seq<T>)
    ensures multiset(r) == multiset(s)
    ensures |r| == |s|
    ensures TotalPreorderOn(s, le) ==> SortedBy(r, le)
  {
    if s == [] then []
    else
      var rest := Sort(s[1..], le);
      SortStep(s, rest, le);
      Insert(s[0], rest, le)
  }

  /** A sequence that is already sorted comes back unchanged. */
  lemma {:induction false} SortSorted<T>(s: seq<T>, le: (T, T) -> bool)
    requires SortedBy(s, le)
    ensures Sort(s, le) == s
  {
    if s != [] {
      SortSorted(s[1..], le);
      assert SortedBy(s[1..], le);
    }
  }
}
