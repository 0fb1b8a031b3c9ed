/** Descending sort by an integer score, used by the AI to rank its
    candidates. The model sorts stably (earlier candidates first among
    equal scores); the source's `sort` promises no particular tie order. */
module Ranking {

  predicate SortedDesc<T>(s: seq<T>, key: T -> int)
  {
    forall i, j :: 0 <= i < j < |s| ==> key(s[i]) >= key(s[j])
  }

  function MapSeq<T, U>(s: seq<T>, f: T -> U): (r: seq<U>)
    ensures |r| == |s|
    ensures forall i :: 0 <= i < |s| ==> r[i] == f(s[i])
  {
    seq(|s|, i requires 0 <= i < |s| => f(s[i]))
  }

  /** The index of the first element scoring no more than `x`, or `|s|`
      when every element outscores it. */
  function InsertionPoint<T>(x: T, s: seq<T>, key: T -> int): (k: nat)
    ensures k <= |s|
    ensures forall j :: 0 <= j < k ==> key(s[j]) > key(x)
    ensures k < |s| ==> key(s[k]) <= key(x)
    decreases |s|
  {
    if |s| == 0 || key(s[0]) <= key(x) then 0 else 1 + InsertionPoint(x, s[1..], key)
  }

  /** Inserts `x` before the first element scoring no more than it. */
  function Insert<T>(x: T, s: seq<T>, key: T -> int): (r: seq<T>)
    requires SortedDesc(s, key)
    ensures SortedDesc(r, key)
    ensures multiset(r) == multiset(s) + multiset{x}
    ensures |r| == |s| + 1
  {
    var k := InsertionPoint(x, s, key);
    var a, b := s[..k], s[k..];
    assert a + b == s;
    assert forall j :: 0 <= j < |a| ==> a[j] == s[j];
    assert |b| > 0 ==> b[0] == s[k];
    SplicePreservesSorted(a, x, b, key);
    SpliceMultiset(a, x, b);
    a + [x] + b
  }

  /** Placing between two sorted halves an element that scores no more
      than any of the first and no less than any of the second keeps the
      whole sorted. */
  lemma SplicePreservesSorted<T>(a: seq<T>, x: T, b: seq<T>, key: T -> int)
    requires SortedDesc(a + b, key)
    requires forall j :: 0 <= j < |a| ==> key(a[j]) > key(x)
    requires |b| > 0 ==> key(b[0]) <= key(x)
    ensures SortedDesc(a + [x] + b, key)
  {
    var s, r := a + b, a + [x] + b;
    forall i, j | 0 <= i < j < |r| ensures key(r[i]) >= key(r[j]) {
      if j < |a| {
        assert r[i] == s[i] && r[j] == s[j];
      } else if j == |a| {
        assert r[i] == a[i] && r[j] == x;
      } else if i < |a| {
        assert r[i] == s[i] && r[j] == s[j - 1];
      } else if i == |a| {
        assert r[i] == x && r[j] == s[j - 1] && b[0] == s[|a|];
        assert key(s[|a|]) >= key(s[j - 1]) || j - 1 == |a|;
      } else {
        assert r[i] == s[i - 1] && r[j] == s[j - 1];
      }
    }
  }

  lemma SpliceMultiset<T>(a: seq<T>, x: T, b: seq<T>)
    ensures multiset(a + [x] + b) == multiset(a + b) + multiset{x}
  {
  }

  function Sort<T>(s: seq<T>, key: T -> int): (r: seq<T>)
    ensures SortedDesc(r, key)
    ensures multiset(r) == multiset(s)
    ensures |r| == |s|
    decreases |s|
  {
    if |s| == 0 then []
    else
      assert s == [s[0]] + s[1..];
      Insert(s[0], Sort(s[1..], key), key)
  }

  lemma MapCons<T, U>(a: T, b: seq<T>, f: T -> U)
    ensures MapSeq([a] + b, f) == [f(a)] + MapSeq(b, f)
  {
  }

  /** Mapping commutes with insertion, counted with multiplicity. */
  lemma MapInsert<T, U>(x: T, s: seq<T>, key: T -> int, f: T -> U)
    requires SortedDesc(s, key)
    ensures multiset(MapSeq(Insert(x, s, key), f)) == multiset(MapSeq(s, f)) + multiset{f(x)}
  {
    var k := InsertionPoint(x, s, key);
    InsertIsSplice(x, s, key);
    SplitJoin(s, k);
    MapSplice(s[..k], x, s[k..], f);
  }

  lemma InsertIsSplice<T>(x: T, s: seq<T>, key: T -> int)
    requires SortedDesc(s, key)
    ensures var k := InsertionPoint(x, s, key);
            Insert(x, s, key) == s[..k] + [x] + s[k..]
  {
  }

  lemma SplitJoin<T>(s: seq<T>, k: nat)
    requires k <= |s|
    ensures s[..k] + s[k..] == s
  {
  }

  lemma MapSplice<T, U>(a: seq<T>, x: T, b: seq<T>, f: T -> U)
    ensures multiset(MapSeq(a + [x] + b, f)) == multiset(MapSeq(a + b, f)) + multiset{f(x)}
  {
    MapAppend(a + [x], b, f);
    MapAppend(a, [x], f);
    MapAppend(a, b, f);
    assert MapSeq([x], f) == [f(x)];
    SpliceMultiset(MapSeq(a, f), f(x), MapSeq(b, f));
  }

  /** Sorting permutes the elements, so any projection of them is
      permuted too. */
  lemma {:induction false} MapSort<T, U>(s: seq<T>, key: T -> int, f: T -> U)
    ensures multiset(MapSeq(Sort(s, key), f)) == multiset(MapSeq(s, f))
    decreases |s|
  {
    if |s| > 0 {
      var t := Sort(s[1..], key);
      assert Sort(s, key) == Insert(s[0], t, key);
      MapSort(s[1..], key, f);
      MapInsert(s[0], t, key, f);
      assert s == [s[0]] + s[1..];
      MapCons(s[0], s[1..], f);
      var ms := MapSeq(s[1..], f);
      assert multiset([f(s[0])] + ms) == multiset{f(s[0])} + multiset(ms);
    }
  }

  /** No element occurs twice. */
  predicate Distinct<T(==)>(s: seq<T>)
  {
    forall i, j :: 0 <= i < j < |s| ==> s[i] != s[j]
  }

  lemma {:induction false} DistinctIffSingleOccurrences<T>(s: seq<T>)
    ensures Distinct(s) <==> forall x :: multiset(s)[x] <= 1
    decreases |s|
  {
    if |s| > 0 {
      var init, last := s[..|s| - 1], s[|s| - 1];
      DistinctIffSingleOccurrences(init);
      assert s == init + [last];
      if Distinct(s) {
        assert last !in init;
        forall x ensures multiset(s)[x] <= 1 {
          assert multiset(s)[x] == multiset(init)[x] + (if x == last then 1 else 0);
        }
      }
      if forall x :: multiset(s)[x] <= 1 {
        forall x ensures multiset(init)[x] <= 1 {
          assert multiset(s)[x] == multiset(init)[x] + (if x == last then 1 else 0);
        }
        forall i, j | 0 <= i < j < |s| ensures s[i] != s[j] {
          if j < |s| - 1 {
            assert s[i] == init[i] && s[j] == init[j];
          } else {
            assert s[i] in init;
            assert multiset(s)[last] == multiset(init)[last] + 1;
          }
        }
      }
    }
  }

  lemma MapAppend<T, U>(a: seq<T>, b: seq<T>, f: T -> U)
    ensures MapSeq(a + b, f) == MapSeq(a, f) + MapSeq(b, f)
  {
  }

  /** Sorting neither adds nor drops an element. */
  lemma SortKeepsMembers<T>(s: seq<T>, key: T -> int)
    ensures forall x :: x in Sort(s, key) <==> x in s
  {
    var r := Sort(s, key);
    assert forall x :: x in r <==> x in multiset(r);
    assert forall x :: x in s <==> x in multiset(s);
  }

  /** A value some element projects to is still projected to after
      sorting. */
  lemma ProjectionSurvivesSort<T, U>(s: seq<T>, key: T -> int, f: T -> U, u: U)
    requires exists m :: 0 <= m < |s| && f(s[m]) == u
    ensures exists j :: 0 <= j < |Sort(s, key)| && f(Sort(s, key)[j]) == u
  {
    var m :| 0 <= m < |s| && f(s[m]) == u;
    SortKeepsMembers(s, key);
    assert s[m] in Sort(s, key);
    var r := Sort(s, key);
    var j :| 0 <= j < |r| && r[j] == s[m];
  }

  /** In a sorted sequence whose keys are a score of a projection, a value
      projected from the first `n` elements scores at least as much as one
      projected only from the rest. */
  lemma TopOutranks<T, U>(s: seq<T>, key: T -> int, f: T -> U, score: U -> int, n: nat, t: U, u: U)
    requires SortedDesc(s, key)
    requires forall x :: x in s ==> key(x) == score(f(x))
    requires n <= |s|
    requires t in MapSeq(s[..n], f) && u in MapSeq(s, f) && u !in MapSeq(s[..n], f)
    ensures score(u) <= score(t)
  {
    var top, m := MapSeq(s[..n], f), MapSeq(s, f);
    var i :| 0 <= i < |top| && top[i] == t;
    var j :| 0 <= j < |m| && m[j] == u;
    assert s[i] in s && s[j] in s;
    assert key(s[i]) >= key(s[j]);
  }

  /** Two distinct sequences with no element in common concatenate to a
      distinct sequence. */
  lemma DistinctConcat<T>(a: seq<T>, b: seq<T>)
    requires Distinct(a) && Distinct(b)
    requires forall i, j :: 0 <= i < |a| && 0 <= j < |b| ==> a[i] != b[j]
    ensures Distinct(a + b)
  {
    var c := a + b;
    forall i, j | 0 <= i < j < |c| ensures c[i] != c[j] {
      if j < |a| {
        assert c[i] == a[i] && c[j] == a[j];
      } else if i >= |a| {
        assert c[i] == b[i - |a|] && c[j] == b[j - |a|];
      } else {
        assert c[i] == a[i] && c[j] == b[j - |a|];
      }
    }
  }

  /** Sorting keeps a projection free of duplicates. */
  lemma DistinctAfterSort<T, U>(s: seq<T>, key: T -> int, f: T -> U)
    requires Distinct(MapSeq(s, f))
    ensures Distinct(MapSeq(Sort(s, key), f))
  {
    MapSort(s, key, f);
    DistinctIffSingleOccurrences(MapSeq(s, f));
    DistinctIffSingleOccurrences(MapSeq(Sort(s, key), f));
  }

  /** A prefix of a projection free of duplicates is free of them too. */
  lemma DistinctMapPrefix<T, U>(s: seq<T>, n: nat, f: T -> U)
    requires n <= |s| && Distinct(MapSeq(s, f))
    ensures Distinct(MapSeq(s[..n], f))
  {
    var m, r := MapSeq(s, f), MapSeq(s[..n], f);
    assert forall i :: 0 <= i < |r| ==> r[i] == m[i];
  }

  /** A prefix keeps at most the occurrences of the whole. */
  lemma PrefixMultiset<T>(s: seq<T>, n: nat)
    requires n <= |s|
    ensures multiset(s[..n]) <= multiset(s)
  {
    assert s == s[..n] + s[n..];
  }
}
