/** Small helpers shared by every module of the model. */
module Common {

  /** Swift's optional: `nil` or a wrapped value. */
  datatype Option<+T> = None | Some(value: T)

  /** The outcome of a Swift `mutating func ... -> Bool`: whether the
      operation reported success, and the value after the mutation. */
  datatype Attempt<+T> = Attempt(succeeded: bool, state: T)

  function Min(a: int, b: int): (m: int)
    ensures m <= a && m <= b
    ensures m == a || m == b
  {
    if a <= b then a else b
  }

  function Max(a: int, b: int): (m: int)
    ensures m >= a && m >= b
    ensures m == a || m == b
  {
    if a >= b then a else b
  }

  /** Removes element `i` of `s`, keeping the order of the rest
      (Swift's `Array.remove(at:)`). */
  function RemoveAt<T>(s: seq<T>, i: nat): (r: seq<T>)
    requires i < |s|
    ensures |r| == |s| - 1
    ensures forall k :: 0 <= k < i ==> r[k] == s[k]
    ensures forall k :: i <= k < |r| ==> r[k] == s[k + 1]
  {
    s[..i] + s[i + 1..]
  }

  /** The positions of `s` whose element passes `keep`, in increasing
      order: what an order-preserving `filter` reads, repeats included. */
  function Positions<T>(s: seq<T>, keep: T -> bool): (idx: seq<nat>)
    ensures forall i :: 0 <= i < |idx| ==> idx[i] < |s| && keep(s[idx[i]])
    ensures forall k :: 0 <= k < |s| && keep(s[k]) ==> k in idx
    decreases |s|
  {
    if |s| == 0 then []
    else
      var n := |s| - 1;
      var prev := Positions(s[..n], keep);
      assert forall i :: 0 <= i < |prev| ==> s[..n][prev[i]] == s[prev[i]];
      prev + (if keep(s[n]) then [n] else [])
  }

  /** The positions come in increasing order, so a selection read at them
      keeps the order of `s`. */
  lemma {:induction false} PositionsIncreasing<T>(s: seq<T>, keep: T -> bool)
    ensures forall i, j :: 0 <= i < j < |Positions(s, keep)| ==> Positions(s, keep)[i] < Positions(s, keep)[j]
    decreases |s|
  {
    if |s| > 0 {
      var n := |s| - 1;
      var prev := Positions(s[..n], keep);
      PositionsIncreasing(s[..n], keep);
      var idx := Positions(s, keep);
      assert idx == prev + (if keep(s[n]) then [n] else []);
      forall i, j | 0 <= i < j < |idx| ensures idx[i] < idx[j] {
        assert idx[i] == prev[i] && prev[i] < |s[..n]|;
        if j < |prev| {
          assert idx[j] == prev[j] && prev[i] < prev[j];
        } else {
          assert idx[j] == n;
        }
      }
    }
  }

  /** `r` is what `s` keeps at the positions `idx`, in that order. */
  predicate ReadsAt<T(==)>(s: seq<T>, idx: seq<nat>, r: seq<T>)
  {
    |r| == |idx| && forall i :: 0 <= i < |r| ==> idx[i] < |s| && r[i] == s[idx[i]]
  }

  /** Filtering one more element: a selection of the prefix stays a
      selection once the last element is kept or dropped. */
  lemma {:induction false} ReadsAtSnoc<T>(s: seq<T>, keep: T -> bool, prev: seq<T>)
    requires |s| > 0 && ReadsAt(s[..|s| - 1], Positions(s[..|s| - 1], keep), prev)
    ensures ReadsAt(s, Positions(s, keep), prev + (if keep(s[|s| - 1]) then [s[|s| - 1]] else []))
  {
    var n := |s| - 1;
    var pidx, idx := Positions(s[..n], keep), Positions(s, keep);
    var r := prev + (if keep(s[n]) then [s[n]] else []);
    assert idx == pidx + (if keep(s[n]) then [n] else []);
    forall i | 0 <= i < |r| ensures idx[i] < |s| && r[i] == s[idx[i]] {
      if i < |prev| {
        assert r[i] == prev[i] && idx[i] == pidx[i];
        assert s[..n][pidx[i]] == s[pidx[i]];
      } else {
        assert r[i] == s[n] && idx[i] == n;
      }
    }
  }

  /** Some element passes exactly when there is a first passing position,
      and nothing before that position passes. */
  lemma {:induction false} FirstPosition<T>(s: seq<T>, keep: T -> bool)
    ensures |Positions(s, keep)| > 0 <==> exists k :: 0 <= k < |s| && keep(s[k])
    ensures |Positions(s, keep)| > 0 ==> forall j :: 0 <= j < Positions(s, keep)[0] ==> !keep(s[j])
  {
    var idx := Positions(s, keep);
    PositionsIncreasing(s, keep);
    if exists k :: 0 <= k < |s| && keep(s[k]) {
      var k :| 0 <= k < |s| && keep(s[k]);
      assert k in idx;
    }
    if |idx| > 0 {
      forall j | 0 <= j < idx[0] ensures j !in idx {
        forall m | 0 <= m < |idx| ensures idx[m] != j {
          assert m == 0 || idx[0] < idx[m];
        }
      }
    }
  }

  /** Swift's `/` on `Int`: rounds toward zero (Dafny's `/` is Euclidean). */
  function TruncDiv(a: int, b: int): (q: int)
    requires b > 0
    ensures a >= 0 ==> q == a / b
    ensures a < 0 ==> q <= 0
  {
    if a >= 0 then a / b else -((-a) / b)
  }

  /** Sequence concatenation is associative. */
  lemma Associate<T>(a: seq<T>, b: seq<T>, c: seq<T>)
    ensures a + (b + c) == (a + b) + c
  {
  }
}
