/** Stable sorting by an integer key, largest first. Python's
    `list.sort(key=..., reverse=True)` and JavaScript's
    `Array.prototype.sort((a, b) => key(b) - key(a))` are both stable: items
    with equal keys keep their relative order. The model is insertion of each
    element, in input order, after every element whose key is at least its
    own. */
module Sorting {
  import opened Seqs

  ghost predicate SortedDesc<T>(s: seq<T>, key: T -> int) {
    forall i, j :: 0 <= i < j < |s| ==> key(s[i]) >= key(s[j])
  }

  /** Inserts `x` before the first element whose key is smaller than its own. */
  function InsertDesc<T>(t: seq<T>, x: T, key: T -> int): (r: seq<T>)
    ensures |r| == |t| + 1
  {
    if t == [] then [x]
    else if key(t[0]) < key(x) then [x] + t
    else [t[0]] + InsertDesc(t[1..], x, key)
  }

  function SortDesc<T>(s: seq<T>, key: T -> int): (r: seq<T>)
    ensures |r| == |s|
  {
    if s == [] then [] else InsertDesc(SortDesc(s[..|s| - 1], key), s[|s| - 1], key)
  }

  lemma {:induction false} InsertDescPermutes<T>(t: seq<T>, x: T, key: T -> int)
    ensures multiset(InsertDesc(t, x, key)) == multiset(t) + multiset{x}
  {
    if t != [] && key(t[0]) >= key(x) {
      InsertDescPermutes(t[1..], x, key);
      assert t == [t[0]] + t[1..];
    }
  }

  lemma {:induction false} InsertDescSorted<T>(t: seq<T>, x: T, key: T -> int)
    requires SortedDesc(t, key)
    ensures SortedDesc(InsertDesc(t, x, key), key)
  {
    if t != [] && key(t[0]) >= key(x) {
      var rest := InsertDesc(t[1..], x, key);
      InsertDescSorted(t[1..], x, key);
      InsertDescPermutes(t[1..], x, key);
      forall i | 0 <= i < |rest| ensures key(t[0]) >= key(rest[i]) {
        assert rest[i] in multiset(rest);
        assert rest[i] == x || rest[i] in t[1..];
      }
    }
  }

  /** The output is a rearrangement of the input. */
  lemma {:induction false} SortDescPermutes<T>(s: seq<T>, key: T -> int)
    ensures multiset(SortDesc(s, key)) == multiset(s)
  {
    if s != [] {
      var init, last := s[..|s| - 1], s[|s| - 1];
      SortDescPermutes(init, key);
      InsertDescPermutes(SortDesc(init, key), last, key);
      assert s == init + [last];
    }
  }

  /** The output is ordered by key, largest first. */
  lemma {:induction false} SortDescSorted<T>(s: seq<T>, key: T -> int)
    ensures SortedDesc(SortDesc(s, key), key)
  {
    if s != [] {
      SortDescSorted(s[..|s| - 1], key);
      InsertDescSorted(SortDesc(s[..|s| - 1], key), s[|s| - 1], key);
    }
  }

  /** The elements of `s` whose key is `k`, in order. */
  function WithKey<T>(s: seq<T>, key: T -> int, k: int): seq<T> {
    Keep(s, KeyIs(key, k))
  }

  function KeyIs<T>(key: T -> int, k: int): T -> bool {
    x => key(x) == k
  }

  lemma {:induction false} WithKeyNone<T>(s: seq<T>, key: T -> int, k: int)
    requires forall i :: 0 <= i < |s| ==> key(s[i]) < k
    ensures WithKey(s, key, k) == []
  {
    if s != [] {
      WithKeyNone(s[1..], key, k);
    }
  }

  lemma {:induction false} InsertDescStable<T>(t: seq<T>, x: T, key: T -> int, k: int)
    requires SortedDesc(t, key)
    ensures WithKey(InsertDesc(t, x, key), key, k)
         == WithKey(t, key, k) + (if key(x) == k then [x] else [])
  {
    if t == [] {
      assert InsertDesc(t, x, key) == [x];
      KeepCons(x, [], KeyIs(key, k));
    } else if key(t[0]) < key(x) {
      assert InsertDesc(t, x, key) == [x] + t;
      KeepCons(x, t, KeyIs(key, k));
      if key(x) == k {
        assert forall i :: 0 <= i < |t| ==> key(t[i]) < k;
        WithKeyNone(t, key, k);
      }
    } else {
      assert SortedDesc(t[1..], key);
      InsertDescStable(t[1..], x, key, k);
      assert InsertDesc(t, x, key) == [t[0]] + InsertDesc(t[1..], x, key);
      KeepCons(t[0], InsertDesc(t[1..], x, key), KeyIs(key, k));
      assert t == [t[0]] + t[1..];
      KeepCons(t[0], t[1..], KeyIs(key, k));
    }
  }

  lemma WithKeySnoc<T>(s: seq<T>, x: T, key: T -> int, k: int)
    ensures WithKey(s + [x], key, k) == WithKey(s, key, k) + (if key(x) == k then [x] else [])
  {
    KeepAppend(s, [x], KeyIs(key, k));
    KeepCons(x, [], KeyIs(key, k));
    assert [x] + [] == [x];
  }

  /** Stability: among the elements with any one key, sorting keeps the
      input order. */
  lemma {:induction false} SortDescStable<T>(s: seq<T>, key: T -> int, k: int)
    ensures WithKey(SortDesc(s, key), key, k) == WithKey(s, key, k)
  {
    if s != [] {
      var init, last := s[..|s| - 1], s[|s| - 1];
      var sorted := SortDesc(init, key);
      SortDescStable(init, key, k);
      SortDescSorted(init, key);
      InsertDescStable(sorted, last, key, k);
      assert SortDesc(s, key) == InsertDesc(sorted, last, key);
      WithKeySnoc(init, last, key, k);
      assert s == init + [last];
    }
  }

  /** Sorting a list with one element more: the element is added, the
      result is ordered, and among equal keys it comes last. */
  lemma SortDescAppend<T>(s: seq<T>, x: T, key: T -> int)
    ensures var r := SortDesc(s + [x], key);
            multiset(r) == multiset(s) + multiset{x} && SortedDesc(r, key)
            && WithKey(r, key, key(x)) == WithKey(s, key, key(x)) + [x]
  {
    var k := key(x);
    SortDescPermutes(s + [x], key);
    SortDescSorted(s + [x], key);
    SortDescStable(s + [x], key, k);
    KeepAppend(s, [x], KeyIs(key, k));
    KeepCons(x, [], KeyIs(key, k));
  }

  /** Inserting an element whose key is at most every other key appends it. */
  lemma {:induction false} InsertDescSmallest<T>(t: seq<T>, x: T, key: T -> int)
    requires forall i :: 0 <= i < |t| ==> key(t[i]) >= key(x)
    ensures InsertDesc(t, x, key) == t + [x]
  {
    if t != [] {
      InsertDescSmallest(t[1..], x, key);
      assert t == [t[0]] + t[1..];
    }
  }

  /** A list already in order is left as it is. */
  lemma {:induction false} SortDescOfSorted<T>(s: seq<T>, key: T -> int)
    requires SortedDesc(s, key)
    ensures SortDesc(s, key) == s
  {
    if s != [] {
      var init, last := s[..|s| - 1], s[|s| - 1];
      assert SortedDesc(init, key);
      SortDescOfSorted(init, key);
      assert forall i :: 0 <= i < |init| ==> key(init[i]) >= key(last);
      InsertDescSmallest(init, last, key);
      assert SortDesc(s, key) == InsertDesc(SortDesc(init, key), last, key);
      assert s == init + [last];
    }
  }
}
