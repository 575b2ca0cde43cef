/**
 * Sequence operations shared by the store and the pages: first-match
 * lookup (Array.prototype.findIndex), removal at an index (splice(i, 1)),
 * reversal and prefix (slice(0, n)).
 */
module Collections {
  import opened Types

  /** The index of the first occurrence of `x` in `s`, or None when `x` does not occur. */
  function FirstIndex<T(==)>(s: seq<T>, x: T): (r: Option<nat>)
    ensures r.None? <==> x !in s
    ensures r.Some? ==> r.value < |s| && s[r.value] == x && x !in s[..r.value]
  {
    if s == [] then None
    else if s[0] == x then Some(0)
    else match FirstIndex(s[1..], x)
      case None => None
      case Some(k) =>
        assert s[1..][..k] == s[1..k + 1];
        Some(k + 1)
  }

  /** `s` without its element at index `i`; the others keep their order. */
  function RemoveAt<T>(s: seq<T>, i: nat): (r: seq<T>)
    requires i < |s|
    ensures |r| == |s| - 1
    ensures forall k :: 0 <= k < i ==> r[k] == s[k]
    ensures forall k :: i <= k < |r| ==> r[k] == s[k + 1]
    ensures multiset(r) + multiset{s[i]} == multiset(s)
  {
    assert s == s[..i] + [s[i]] + s[i + 1..];
    s[..i] + s[i + 1..]
  }

  /** A prefix one element longer is the shorter prefix and that element. */
  lemma PrefixStep<T>(s: seq<T>, i: nat)
    requires i < |s|
    ensures s[..i + 1] == s[..i] + [s[i]]
  {
  }

  /** `s` in reverse order: newest first when `s` is oldest first. */
  function Reversed<T>(s: seq<T>): (r: seq<T>)
    ensures |r| == |s|
    ensures forall k :: 0 <= k < |s| ==> r[k] == s[|s| - 1 - k]
  {
    if s == [] then [] else Reversed(s[1..]) + [s[0]]
  }

  /** The first `n` elements of `s`, or all of it when it is shorter. */
  function Take<T>(s: seq<T>, n: nat): (r: seq<T>)
    ensures |r| == if |s| < n then |s| else n
    ensures r == s[..|r|]
  {
    if |s| <= n then s else s[..n]
  }

  /** A prefix holds no element more often than the whole sequence does. */
  lemma TakeSubMultiset<T>(s: seq<T>, n: nat)
    ensures multiset(Take(s, n)) <= multiset(s)
  {
    var t := Take(s, n);
    assert s == t + s[|t|..];
  }

  /** `s` is in non-increasing order of `rank`. */
  predicate SortedDesc<T>(s: seq<T>, rank: T -> int) {
    forall i, j :: 0 <= i < j < |s| ==> rank(s[i]) >= rank(s[j])
  }

  /** `x` placed in front of the first element whose rank does not exceed its own. */
  function InsertDesc<T(==)>(x: T, s: seq<T>, rank: T -> int): (r: seq<T>)
    requires SortedDesc(s, rank)
    ensures |r| == |s| + 1
    ensures multiset(r) == multiset(s) + multiset{x}
    ensures SortedDesc(r, rank)
  {
    if s == [] || rank(s[0]) <= rank(x) then [x] + s
    else
      var t := InsertDesc(x, s[1..], rank);
      InsertDescBelow(x, s, rank, t);
      assert s == [s[0]] + s[1..];
      [s[0]] + t
  }

  /** Inserting below the head keeps every element at or below the head's rank. */
  lemma InsertDescBelow<T>(x: T, s: seq<T>, rank: T -> int, t: seq<T>)
    requires SortedDesc(s, rank) && s != [] && rank(s[0]) > rank(x)
    requires multiset(t) == multiset(s[1..]) + multiset{x}
    ensures forall k :: 0 <= k < |t| ==> rank(t[k]) <= rank(s[0])
  {
    forall k | 0 <= k < |t| ensures rank(t[k]) <= rank(s[0]) {
      assert t[k] in multiset(t);
      if t[k] != x {
        assert t[k] in multiset(s[1..]);
        var m :| 0 <= m < |s[1..]| && s[1..][m] == t[k];
        assert s[1 + m] == t[k];
      }
    }
  }

  /**
   * A stable sort by `rank`, largest first (Array.prototype.sort with the
   * comparator `(a, b) => rank(b) - rank(a)`).
   */
  function SortDesc<T(==)>(s: seq<T>, rank: T -> int): (r: seq<T>)
    ensures |r| == |s|
    ensures multiset(r) == multiset(s)
    ensures SortedDesc(r, rank)
  {
    if s == [] then []
    else
      assert s == [s[0]] + s[1..];
      InsertDesc(s[0], SortDesc(s[1..], rank), rank)
  }

  /** The sum of `f` over `s`. */
  function SumBy<T>(s: seq<T>, f: T -> int): int {
    if s == [] then 0 else f(s[0]) + SumBy(s[1..], f)
  }

  lemma {:induction false} SumByAppend<T>(s: seq<T>, t: seq<T>, f: T -> int)
    ensures SumBy(s + t, f) == SumBy(s, f) + SumBy(t, f)
  {
    if s == [] {
      assert s + t == t;
    } else {
      assert (s + t)[0] == s[0];
      assert (s + t)[1..] == s[1..] + t;
      SumByAppend(s[1..], t, f);
    }
  }

  /** Replacing one element changes the sum by the difference of the two values. */
  lemma {:induction false} SumByUpdate<T>(s: seq<T>, i: nat, v: T, f: T -> int)
    requires i < |s|
    ensures SumBy(s[i := v], f) == SumBy(s, f) - f(s[i]) + f(v)
  {
    if i > 0 {
      assert s[i := v][1..] == s[1..][i - 1 := v];
      SumByUpdate(s[1..], i - 1, v, f);
    } else {
      assert s[i := v][1..] == s[1..];
    }
  }

  lemma {:induction false} SumByInsertDesc<T>(x: T, s: seq<T>, rank: T -> int, f: T -> int)
    requires SortedDesc(s, rank)
    ensures SumBy(InsertDesc(x, s, rank), f) == f(x) + SumBy(s, f)
  {
    if s == [] || rank(s[0]) <= rank(x) {
      assert ([x] + s)[1..] == s;
    } else {
      assert s == [s[0]] + s[1..];
      var t := InsertDesc(x, s[1..], rank);
      assert ([s[0]] + t)[1..] == t;
      SumByInsertDesc(x, s[1..], rank, f);
    }
  }

  /** Sorting does not change a sum. */
  lemma {:induction false} SumBySortDesc<T>(s: seq<T>, rank: T -> int, f: T -> int)
    ensures SumBy(SortDesc(s, rank), f) == SumBy(s, f)
  {
    if s != [] {
      SumBySortDesc(s[1..], rank, f);
      SumByInsertDesc(s[0], SortDesc(s[1..], rank), rank, f);
    }
  }
}
