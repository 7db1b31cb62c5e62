/**
 * Sequence helpers shared by the model: `Array.prototype.filter` (Where),
 * distinctness, and the stable descending sort that `Array.prototype.sort`
 * performs with a comparator of the form `(a, b) => key(b) - key(a)`.
 */
module Seqs {

  ghost predicate Distinct<T>(s: seq<T>) {
    forall i, j :: 0 <= i < j < |s| ==> s[i] != s[j]
  }

  /** Two duplicate-free sequences with nothing in common concatenate to a duplicate-free one. */
  lemma DistinctConcat<T>(a: seq<T>, b: seq<T>)
    requires Distinct(a) && Distinct(b)
    requires forall i, j :: 0 <= i < |a| && 0 <= j < |b| ==> a[i] != b[j]
    ensures Distinct(a + b)
  {
    var s := a + b;
    forall i, j | 0 <= i < j < |s| ensures s[i] != s[j] {
      if j < |a| {
        assert s[i] == a[i] && s[j] == a[j];
      } else if i < |a| {
        assert s[i] == a[i] && s[j] == b[j - |a|];
      } else {
        assert s[i] == b[i - |a|] && s[j] == b[j - |a|];
      }
    }
  }

  /** No two elements of `s` share a key. */
  ghost predicate DistinctBy<T, K>(s: seq<T>, f: T -> K) {
    forall i, j :: 0 <= i < j < |s| ==> f(s[i]) != f(s[j])
  }

  /** In a sequence of distinct elements each value occurs at most once. */
  lemma {:induction false} DistinctOccursOnce<T>(s: seq<T>, x: T)
    requires Distinct(s)
    ensures multiset(s)[x] <= 1
  {
    if s != [] {
      var init, last := s[..|s| - 1], s[|s| - 1];
      assert s == init + [last];
      assert Distinct(init) by {
        forall i, j | 0 <= i < j < |init| ensures init[i] != init[j] {
          assert init[i] == s[i] && init[j] == s[j];
        }
      }
      DistinctOccursOnce(init, x);
      if x == last {
        assert x !in init by {
          forall i | 0 <= i < |init| ensures init[i] != x {
            assert init[i] == s[i];
          }
        }
      }
    }
  }

  /** A value at two different positions occurs at least twice. */
  lemma TwiceOccursTwice<T>(s: seq<T>, i: nat, j: nat)
    requires i < j < |s| && s[i] == s[j]
    ensures multiset(s)[s[i]] >= 2
  {
    assert s == s[..j] + s[j..];
    assert s[i] in s[..j];
    assert s[j] in s[j..];
  }

  /** Reordering a sequence whose keys are distinct leaves them distinct. */
  lemma PermutationKeepsDistinctBy<T, K>(a: seq<T>, b: seq<T>, f: T -> K)
    requires multiset(a) == multiset(b)
    requires DistinctBy(a, f)
    ensures DistinctBy(b, f)
  {
    assert Distinct(a) by {
      forall i, j | 0 <= i < j < |a| ensures a[i] != a[j] {
        assert f(a[i]) != f(a[j]);
      }
    }
    forall i, j | 0 <= i < j < |b| ensures f(b[i]) != f(b[j]) {
      if f(b[i]) == f(b[j]) {
        assert b[i] in multiset(a) && b[j] in multiset(a);
        var p :| 0 <= p < |a| && a[p] == b[i];
        var q :| 0 <= q < |a| && a[q] == b[j];
        assert p == q;
        TwiceOccursTwice(b, i, j);
        DistinctOccursOnce(a, b[i]);
        assert false;
      }
    }
  }

  // ---------------------------------------------------------------------------
  // filter

  /** The elements of `s` satisfying `p`, in their original order. */
  function Where<T>(s: seq<T>, p: T -> bool): (r: seq<T>)
    ensures |r| <= |s|
  {
    if s == [] then [] else Where(s[..|s| - 1], p) + (if p(s[|s| - 1]) then [s[|s| - 1]] else [])
  }

  lemma {:induction false} WhereMember<T>(s: seq<T>, p: T -> bool, x: T)
    ensures x in Where(s, p) <==> x in s && p(x)
  {
    if s != [] {
      var init := s[..|s| - 1];
      WhereMember(init, p, x);
      assert s == init + [s[|s| - 1]];
    }
  }

  lemma {:induction false} WhereAppend<T>(a: seq<T>, b: seq<T>, p: T -> bool)
    ensures Where(a + b, p) == Where(a, p) + Where(b, p)
  {
    if b == [] {
      assert a + b == a;
    } else {
      var init := b[..|b| - 1];
      assert (a + b)[..|a + b| - 1] == a + init;
      WhereAppend(a, init, p);
    }
  }

  /** Every element satisfies exactly one of `p` and `q`: the two counts add up to `|s|`. */
  lemma {:induction false} WhereComplement<T>(s: seq<T>, p: T -> bool, q: T -> bool)
    requires forall x :: q(x) == !p(x)
    ensures |Where(s, p)| + |Where(s, q)| == |s|
  {
    if s != [] {
      WhereComplement(s[..|s| - 1], p, q);
    }
  }

  /** Filtering by a weaker predicate keeps at least as many elements. */
  lemma {:induction false} WhereWeaker<T>(s: seq<T>, p: T -> bool, q: T -> bool)
    requires forall x :: p(x) ==> q(x)
    ensures |Where(s, p)| <= |Where(s, q)|
  {
    if s != [] {
      WhereWeaker(s[..|s| - 1], p, q);
    }
  }

  /**
   * Three pairwise exclusive predicates never count more than `|s|` together,
   * and they count exactly `|s|` when, and only when, every element satisfies one.
   */
  lemma {:induction false} WhereExclusive3<T>(s: seq<T>, p: T -> bool, q: T -> bool, r: T -> bool)
    requires forall x :: !(p(x) && q(x)) && !(p(x) && r(x)) && !(q(x) && r(x))
    ensures |Where(s, p)| + |Where(s, q)| + |Where(s, r)| <= |s|
    ensures |Where(s, p)| + |Where(s, q)| + |Where(s, r)| == |s|
            <==> forall i :: 0 <= i < |s| ==> p(s[i]) || q(s[i]) || r(s[i])
  {
    if s != [] {
      var init := s[..|s| - 1];
      WhereExclusive3(init, p, q, r);
      var last := s[|s| - 1];
      if forall i :: 0 <= i < |s| ==> p(s[i]) || q(s[i]) || r(s[i]) {
        assert forall i :: 0 <= i < |init| ==> p(init[i]) || q(init[i]) || r(init[i]) by {
          forall i | 0 <= i < |init| ensures p(init[i]) || q(init[i]) || r(init[i]) {
            assert init[i] == s[i];
          }
        }
      } else {
        var k :| 0 <= k < |s| && !(p(s[k]) || q(s[k]) || r(s[k]));
        if k < |init| {
          assert init[k] == s[k];
        }
      }
    }
  }

  // ---------------------------------------------------------------------------
  // stable sort, descending by an integer key

  ghost predicate SortedDesc<T>(s: seq<T>, key: T -> int) {
    forall i, j :: 0 <= i < j < |s| ==> key(s[i]) >= key(s[j])
  }

  /** The elements of `s` whose key is `c`, in their order in `s`. */
  function WithKey<T>(s: seq<T>, key: T -> int, c: int): seq<T> {
    if s == [] then [] else (if key(s[0]) == c then [s[0]] else []) + WithKey(s[1..], key, c)
  }

  /** Inserts `x` after every element whose key is at least `key(x)`. */
  function InsertDesc<T>(x: T, s: seq<T>, key: T -> int): (r: seq<T>)
    ensures multiset(r) == multiset(s) + multiset{x}
    ensures |r| == |s| + 1
  {
    if s == [] then [x]
    else if key(x) > key(s[0]) then [x] + s
    else
      assert s == [s[0]] + s[1..];
      [s[0]] + InsertDesc(x, s[1..], key)
  }

  /** Insertion sort: each element goes after every earlier element with a key at least its own. */
  function SortDesc<T>(s: seq<T>, key: T -> int): (r: seq<T>)
    ensures multiset(r) == multiset(s)
    ensures |r| == |s|
  {
    if s == [] then []
    else
      assert s == s[..|s| - 1] + [s[|s| - 1]];
      InsertDesc(s[|s| - 1], SortDesc(s[..|s| - 1], key), key)
  }

  /** The tail of a sorted sequence is sorted, and bounded by the head's key. */
  lemma SortedDescTail<T>(s: seq<T>, key: T -> int)
    requires s != [] && SortedDesc(s, key)
    ensures SortedDesc(s[1..], key)
    ensures forall y :: y in s[1..] ==> key(y) <= key(s[0])
  {
    forall i, j | 0 <= i < j < |s[1..]| ensures key(s[1..][i]) >= key(s[1..][j]) {
      assert s[1..][i] == s[i + 1] && s[1..][j] == s[j + 1];
    }
    forall y | y in s[1..] ensures key(y) <= key(s[0]) {
      var k :| 0 <= k < |s[1..]| && s[1..][k] == y;
      assert s[k + 1] == y;
    }
  }

  /** Putting an element with a key at least every other key in front of a sorted sequence keeps it sorted. */
  lemma ConsSorted<T>(x: T, s: seq<T>, key: T -> int)
    requires SortedDesc(s, key)
    requires forall y :: y in s ==> key(y) <= key(x)
    ensures SortedDesc([x] + s, key)
  {
    var r := [x] + s;
    forall i, j | 0 <= i < j < |r| ensures key(r[i]) >= key(r[j]) {
      assert r[j] == s[j - 1];
      if i == 0 {
        assert r[j] in s;
      } else {
        assert r[i] == s[i - 1];
      }
    }
  }

  lemma {:induction false} InsertDescSorted<T>(x: T, s: seq<T>, key: T -> int)
    requires SortedDesc(s, key)
    ensures SortedDesc(InsertDesc(x, s, key), key)
  {
    if s == [] {
    } else if key(x) > key(s[0]) {
      forall y | y in s ensures key(y) <= key(x) {
        var k :| 0 <= k < |s| && s[k] == y;
        assert key(s[0]) >= key(s[k]);
      }
      ConsSorted(x, s, key);
    } else {
      SortedDescTail(s, key);
      var rest := InsertDesc(x, s[1..], key);
      InsertDescSorted(x, s[1..], key);
      forall y | y in rest ensures key(y) <= key(s[0]) {
        assert y in multiset(rest);
        if y != x {
          assert y in multiset(s[1..]);
        }
      }
      ConsSorted(s[0], rest, key);
    }
  }

  lemma {:induction false} SortDescSorted<T>(s: seq<T>, key: T -> int)
    ensures SortedDesc(SortDesc(s, key), key)
  {
    if s != [] {
      SortDescSorted(s[..|s| - 1], key);
      InsertDescSorted(s[|s| - 1], SortDesc(s[..|s| - 1], key), key);
    }
  }

  lemma {:induction false} WithKeyAppend<T>(a: seq<T>, b: seq<T>, key: T -> int, c: int)
    ensures WithKey(a + b, key, c) == WithKey(a, key, c) + WithKey(b, key, c)
  {
    if a == [] {
      assert a + b == b;
    } else {
      var ab := a + b;
      assert ab[0] == a[0] && ab[1..] == a[1..] + b;
      var head := if key(a[0]) == c then [a[0]] else [];
      WithKeyAppend(a[1..], b, key, c);
      calc {
        WithKey(ab, key, c);
        head + WithKey(a[1..] + b, key, c);
        head + (WithKey(a[1..], key, c) + WithKey(b, key, c));
        (head + WithKey(a[1..], key, c)) + WithKey(b, key, c);
      }
    }
  }

  lemma {:induction false} WithKeyNone<T>(s: seq<T>, key: T -> int, c: int)
    requires forall i :: 0 <= i < |s| ==> key(s[i]) != c
    ensures WithKey(s, key, c) == []
  {
    if s != [] {
      WithKeyNone(s[1..], key, c);
    }
  }

  lemma {:induction false} WithKeyAll<T>(s: seq<T>, key: T -> int, c: int)
    requires forall i :: 0 <= i < |s| ==> key(s[i]) == c
    ensures WithKey(s, key, c) == s
  {
    if s != [] {
      WithKeyAll(s[1..], key, c);
    }
  }

  /** Nothing in a sorted sequence has a key above its head's. */
  lemma SortedBelowHead<T>(s: seq<T>, key: T -> int, c: int)
    requires s != [] && SortedDesc(s, key) && c > key(s[0])
    ensures WithKey(s, key, c) == []
  {
    forall i | 0 <= i < |s| ensures key(s[i]) != c {
      assert key(s[0]) >= key(s[i]);
    }
    WithKeyNone(s, key, c);
  }

  lemma {:induction false} InsertDescStable<T>(x: T, s: seq<T>, key: T -> int, c: int)
    requires SortedDesc(s, key)
    ensures WithKey(InsertDesc(x, s, key), key, c)
            == WithKey(s, key, c) + (if key(x) == c then [x] else [])
  {
    if s == [] {
      assert WithKey([x], key, c) == (if key(x) == c then [x] else []) + WithKey([x][1..], key, c);
    } else if key(x) > key(s[0]) {
      assert InsertDesc(x, s, key) == [x] + s;
      InsertInFrontStable(x, s, key, c);
    } else {
      SortedDescTail(s, key);
      InsertDescStable(x, s[1..], key, c);
      assert InsertDesc(x, s, key) == [s[0]] + InsertDesc(x, s[1..], key);
      assert s == [s[0]] + s[1..];
      ConsKeepsWithKey(s[0], InsertDesc(x, s[1..], key), s[1..], key, c, if key(x) == c then [x] else []);
    }
  }

  /** Putting the same element in front of two sequences keeps a relation between their `WithKey` parts. */
  lemma ConsKeepsWithKey<T>(h: T, u: seq<T>, v: seq<T>, key: T -> int, c: int, tail: seq<T>)
    requires WithKey(u, key, c) == WithKey(v, key, c) + tail
    ensures WithKey([h] + u, key, c) == WithKey([h] + v, key, c) + tail
  {
    assert ([h] + u)[0] == h && ([h] + u)[1..] == u;
    assert ([h] + v)[0] == h && ([h] + v)[1..] == v;
  }

  lemma InsertInFrontStable<T>(x: T, s: seq<T>, key: T -> int, c: int)
    requires s != [] && SortedDesc(s, key) && key(x) > key(s[0])
    ensures WithKey([x] + s, key, c) == WithKey(s, key, c) + (if key(x) == c then [x] else [])
  {
    var r := [x] + s;
    assert r[0] == x && r[1..] == s;
    if key(x) == c {
      SortedBelowHead(s, key, c);
    }
  }

  /** The sort is stable: among elements with equal keys the input order is kept. */
  lemma {:induction false} SortDescStable<T>(s: seq<T>, key: T -> int, c: int)
    ensures WithKey(SortDesc(s, key), key, c) == WithKey(s, key, c)
  {
    if s != [] {
      var init, last := s[..|s| - 1], s[|s| - 1];
      assert s == init + [last];
      var sortedInit := SortDesc(init, key);
      assert SortDesc(s, key) == InsertDesc(last, sortedInit, key);
      var tail := if key(last) == c then [last] else [];
      SortDescStable(init, key, c);
      SortDescSorted(init, key);
      InsertDescStable(last, sortedInit, key, c);
      assert WithKey(SortDesc(s, key), key, c) == WithKey(init, key, c) + tail;
      WithKeyAppend(init, [last], key, c);
      assert WithKey([last], key, c) == tail by {
        assert [last][1..] == [];
      }
    }
  }

  /**
   * A sorted sequence whose keys take only the values `hi > lo` is its `hi`
   * block followed by its `lo` block.
   */
  lemma {:induction false} SortedTwoBlocks<T>(s: seq<T>, key: T -> int, hi: int, lo: int)
    requires hi > lo
    requires SortedDesc(s, key)
    requires forall i :: 0 <= i < |s| ==> key(s[i]) == hi || key(s[i]) == lo
    ensures s == WithKey(s, key, hi) + WithKey(s, key, lo)
  {
    if s == [] {
    } else if key(s[0]) == hi {
      SortedDescTail(s, key);
      TailKeysAmong(s, key, hi, lo);
      SortedTwoBlocks(s[1..], key, hi, lo);
      PrependHighBlock(s[0], s[1..], key, hi, lo);
      assert s == [s[0]] + s[1..];
    } else {
      LowHeadAllLow(s, key, hi, lo);
    }
  }

  /** A sorted sequence whose head already has the lower key `lo` has only `lo` keys. */
  lemma LowHeadAllLow<T>(s: seq<T>, key: T -> int, hi: int, lo: int)
    requires hi > lo
    requires SortedDesc(s, key)
    requires forall i :: 0 <= i < |s| ==> key(s[i]) == hi || key(s[i]) == lo
    requires s != [] && key(s[0]) == lo
    ensures s == WithKey(s, key, hi) + WithKey(s, key, lo)
  {
    assert forall i :: 0 <= i < |s| ==> key(s[i]) == lo by {
      forall i | 0 <= i < |s| ensures key(s[i]) == lo {
        if i > 0 {
          assert key(s[0]) >= key(s[i]);
        }
      }
    }
    WithKeyNone(s, key, hi);
    WithKeyAll(s, key, lo);
  }
  lemma TailKeysAmong<T>(s: seq<T>, key: T -> int, hi: int, lo: int)
    requires s != []
    requires forall i :: 0 <= i < |s| ==> key(s[i]) == hi || key(s[i]) == lo
    ensures forall i :: 0 <= i < |s[1..]| ==> key(s[1..][i]) == hi || key(s[1..][i]) == lo
  {
    forall i | 0 <= i < |s[1..]| ensures key(s[1..][i]) == hi || key(s[1..][i]) == lo {
      assert s[1..][i] == s[i + 1];
    }
  }

  /** An element with the higher key in front of a two-block sequence extends its first block. */
  lemma PrependHighBlock<T>(h: T, t: seq<T>, key: T -> int, hi: int, lo: int)
    requires hi > lo && key(h) == hi
    requires t == WithKey(t, key, hi) + WithKey(t, key, lo)
    ensures [h] + t == WithKey([h] + t, key, hi) + WithKey([h] + t, key, lo)
  {
    assert ([h] + t)[0] == h && ([h] + t)[1..] == t;
  }
  // ---------------------------------------------------------------------------
  // reordering

  /** Keys that are pairwise different make the elements pairwise different. */
  lemma DistinctByDistinct<T, K>(s: seq<T>, f: T -> K)
    requires DistinctBy(s, f)
    ensures Distinct(s)
  {
    forall i, j | 0 <= i < j < |s| ensures s[i] != s[j] {
      assert f(s[i]) != f(s[j]);
    }
  }

  /** Two duplicate-free sequences with the same members are reorderings of each other. */
  lemma DistinctSameMembers<T>(a: seq<T>, b: seq<T>)
    requires Distinct(a) && Distinct(b)
    requires forall x :: x in a <==> x in b
    ensures multiset(a) == multiset(b)
  {
    forall x ensures multiset(a)[x] == multiset(b)[x] {
      DistinctOccursOnce(a, x);
      DistinctOccursOnce(b, x);
      assert x in a <==> x in multiset(a);
      assert x in b <==> x in multiset(b);
    }
  }

  /**
   * The last element of `a` occurs in its reordering `b`; `b` around that
   * occurrence is a reordering of the rest of `a`.
   */
  lemma SplitAtLast<T>(a: seq<T>, b: seq<T>) returns (u: seq<T>, v: seq<T>)
    requires a != [] && multiset(a) == multiset(b)
    ensures b == u + [a[|a| - 1]] + v
    ensures multiset(a[..|a| - 1]) == multiset(u + v)
  {
    var init, x := a[..|a| - 1], a[|a| - 1];
    assert a == init + [x];
    assert x in multiset(b);
    var j :| 0 <= j < |b| && b[j] == x;
    u, v := b[..j], b[j + 1..];
    assert b == u + [x] + v;
    CancelOne(multiset(init), multiset(u), multiset(v), x);
    assert multiset(u + v) == multiset(u) + multiset(v);
  }

  lemma CancelOne<T>(m: multiset<T>, m1: multiset<T>, m2: multiset<T>, x: T)
    requires m + multiset{x} == m1 + multiset{x} + m2
    ensures m == m1 + m2
  {
    forall y ensures m[y] == (m1 + m2)[y] {
      assert (m + multiset{x})[y] == (m1 + multiset{x} + m2)[y];
    }
  }

  /** Filtering a reordering of `a` gives a reordering of the filtered `a`. */
  lemma {:induction false} WherePerm<T>(a: seq<T>, b: seq<T>, p: T -> bool)
    requires multiset(a) == multiset(b)
    ensures multiset(Where(a, p)) == multiset(Where(b, p))
    ensures |Where(a, p)| == |Where(b, p)|
    decreases |a|
  {
    if a == [] {
      assert |b| == |multiset(b)| == 0;
    } else {
      var init, x := a[..|a| - 1], a[|a| - 1];
      var u, v := SplitAtLast(a, b);
      WherePerm(init, u + v, p);
      WhereAppend(u, [x], p);
      WhereAppend(u + [x], v, p);
      WhereAppend(u, v, p);
      assert [x][..0] == [];
    }
    assert |Where(a, p)| == |multiset(Where(a, p))|;
    assert |Where(b, p)| == |multiset(Where(b, p))|;
  }

  /** The concatenation of `f(x)` over the elements `x` of `s`, in order. */
  function FlatMap<T, U>(s: seq<T>, f: T -> seq<U>): seq<U> {
    if s == [] then [] else FlatMap(s[..|s| - 1], f) + f(s[|s| - 1])
  }

  lemma {:induction false} FlatMapAppend<T, U>(a: seq<T>, b: seq<T>, f: T -> seq<U>)
    ensures FlatMap(a + b, f) == FlatMap(a, f) + FlatMap(b, f)
  {
    if b == [] {
      assert a + b == a;
    } else {
      var init := b[..|b| - 1];
      assert (a + b)[..|a + b| - 1] == a + init;
      FlatMapAppend(a, init, f);
    }
  }

  /** Reordering the input of a flat map reorders its output and changes nothing else. */
  lemma {:induction false} FlatMapPerm<T, U>(a: seq<T>, b: seq<T>, f: T -> seq<U>)
    requires multiset(a) == multiset(b)
    ensures multiset(FlatMap(a, f)) == multiset(FlatMap(b, f))
    decreases |a|
  {
    if a == [] {
      assert |b| == |multiset(b)| == 0;
    } else {
      var init, x := a[..|a| - 1], a[|a| - 1];
      var u, v := SplitAtLast(a, b);
      FlatMapPerm(init, u + v, f);
      FlatMapAppend(u, [x], f);
      FlatMapAppend(u + [x], v, f);
      FlatMapAppend(u, v, f);
      assert [x][..0] == [];
    }
  }
}
