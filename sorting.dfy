/**
 * `Array.prototype.sort` with a numeric comparator, as the source uses it
 * (seeds ascending, ranking totals descending, main points descending).
 * ECMAScript requires that sort to be stable, so it is modelled by a stable
 * insertion sort on a key, and its output is characterised exactly: the
 * element at input index i lands at `Rank(s, key, i)`, the number of
 * elements with a smaller key plus the number of equal keys before it.
 */
module Sorting {
  import opened Schema

  predicate SortedBy<T>(s: seq<T>, key: T -> int)
  {
    forall i, j :: 0 <= i < j < |s| ==> key(s[i]) <= key(s[j])
  }

  /** Places `x` after every element of the sorted `s` whose key is at most `key(x)`. */
  function Insert<T>(s: seq<T>, x: T, key: T -> int): (r: seq<T>)
    ensures |r| == |s| + 1
    ensures multiset(r) == multiset(s) + multiset{x}
  {
    if |s| == 0 then [x]
    else if key(s[|s| - 1]) <= key(x) then s + [x]
    else
      assert s == s[..|s| - 1] + [s[|s| - 1]];
      Insert(s[..|s| - 1], x, key) + [s[|s| - 1]]
  }

  lemma {:induction false} InsertSorted<T>(s: seq<T>, x: T, key: T -> int)
    requires SortedBy(s, key)
    ensures SortedBy(Insert(s, x, key), key)
  {
    if |s| > 0 && key(s[|s| - 1]) > key(x) {
      var init := s[..|s| - 1];
      var last := s[|s| - 1];
      var r' := Insert(init, x, key);
      InsertSorted(init, x, key);
      forall j | 0 <= j < |r'| ensures key(r'[j]) <= key(last) {
        assert r'[j] in multiset(r');
        assert r'[j] in init || r'[j] == x;
      }
      assert Insert(s, x, key) == r' + [last];
    }
  }

  /** Stable sort of `s` by ascending `key`. */
  function SortBy<T>(s: seq<T>, key: T -> int): (r: seq<T>)
    ensures |r| == |s|
    ensures multiset(r) == multiset(s)
    ensures SortedBy(r, key)
  {
    if |s| == 0 then []
    else
      assert s == s[..|s| - 1] + [s[|s| - 1]];
      InsertSorted(SortBy(s[..|s| - 1], key), s[|s| - 1], key);
      Insert(SortBy(s[..|s| - 1], key), s[|s| - 1], key)
  }

  function CountBelow<T>(s: seq<T>, key: T -> int, k: int): nat
  {
    if |s| == 0 then 0
    else CountBelow(s[..|s| - 1], key, k) + (if key(s[|s| - 1]) < k then 1 else 0)
  }

  function CountEqual<T>(s: seq<T>, key: T -> int, k: int): nat
  {
    if |s| == 0 then 0
    else CountEqual(s[..|s| - 1], key, k) + (if key(s[|s| - 1]) == k then 1 else 0)
  }

  function CountAtMost<T>(s: seq<T>, key: T -> int, k: int): nat
  {
    if |s| == 0 then 0
    else CountAtMost(s[..|s| - 1], key, k) + (if key(s[|s| - 1]) <= k then 1 else 0)
  }

  /** Where a stable ascending sort puts the element at index `i`. */
  function Rank<T>(s: seq<T>, key: T -> int, i: nat): nat
    requires i < |s|
  {
    CountBelow(s, key, key(s[i])) + CountEqual(s[..i], key, key(s[i]))
  }

  lemma {:induction false} AtMostSplits<T>(s: seq<T>, key: T -> int, k: int)
    ensures CountAtMost(s, key, k) == CountBelow(s, key, k) + CountEqual(s, key, k)
  {
    if |s| > 0 {
      AtMostSplits(s[..|s| - 1], key, k);
    }
  }

  lemma {:induction false} AtMostAll<T>(s: seq<T>, key: T -> int, k: int)
    requires forall j :: 0 <= j < |s| ==> key(s[j]) <= k
    ensures CountAtMost(s, key, k) == |s|
  {
    if |s| > 0 {
      AtMostAll(s[..|s| - 1], key, k);
    }
  }

  /** In a sorted sequence the elements with key at most `k` form a prefix. */
  lemma {:induction false} SortedPrefix<T>(s: seq<T>, key: T -> int, k: int)
    requires SortedBy(s, key)
    ensures CountAtMost(s, key, k) <= |s|
    ensures forall j :: 0 <= j < CountAtMost(s, key, k) ==> key(s[j]) <= k
    ensures forall j :: CountAtMost(s, key, k) <= j < |s| ==> key(s[j]) > k
  {
    if |s| > 0 {
      var u := s[..|s| - 1];
      SortedPrefix(u, key, k);
      if key(s[|s| - 1]) <= k {
        AtMostAll(s, key, k);
      }
    }
  }

  lemma {:induction false} InsertCounts<T>(s: seq<T>, x: T, key: T -> int, k: int)
    ensures CountBelow(Insert(s, x, key), key, k) == CountBelow(s, key, k) + (if key(x) < k then 1 else 0)
    ensures CountEqual(Insert(s, x, key), key, k) == CountEqual(s, key, k) + (if key(x) == k then 1 else 0)
    ensures CountAtMost(Insert(s, x, key), key, k) == CountAtMost(s, key, k) + (if key(x) <= k then 1 else 0)
  {
    var r := Insert(s, x, key);
    if |s| == 0 {
      assert r[..0] == [];
    } else if key(s[|s| - 1]) <= key(x) {
      assert r[..|r| - 1] == s;
    } else {
      var init := s[..|s| - 1];
      InsertCounts(init, x, key, k);
      assert r[..|r| - 1] == Insert(init, x, key);
    }
  }

  lemma {:induction false} SortCounts<T>(s: seq<T>, key: T -> int, k: int)
    ensures CountBelow(SortBy(s, key), key, k) == CountBelow(s, key, k)
    ensures CountEqual(SortBy(s, key), key, k) == CountEqual(s, key, k)
    ensures CountAtMost(SortBy(s, key), key, k) == CountAtMost(s, key, k)
  {
    if |s| > 0 {
      var init := s[..|s| - 1];
      SortCounts(init, key, k);
      InsertCounts(SortBy(init, key), s[|s| - 1], key, k);
    }
  }

  /** Inserting into a sorted sequence splits it after the elements with key at most `key(x)`. */
  lemma SpliceAppend<T>(init: seq<T>, last: T, x: T, q: nat)
    requires q <= |init|
    ensures init[..q] + [x] + init[q..] + [last] == (init + [last])[..q] + [x] + (init + [last])[q..]
  {
    assert (init + [last])[..q] == init[..q];
    assert (init + [last])[q..] == init[q..] + [last];
  }

  /** Inserting into a sorted sequence splits it after the elements with key at most `key(x)`. */
  lemma {:induction false} InsertAt<T>(s: seq<T>, x: T, key: T -> int)
    requires SortedBy(s, key)
    ensures CountAtMost(s, key, key(x)) <= |s|
    ensures var q := CountAtMost(s, key, key(x));
      Insert(s, x, key) == s[..q] + [x] + s[q..]
  {
    var q := CountAtMost(s, key, key(x));
    if |s| == 0 {
    } else if key(s[|s| - 1]) <= key(x) {
      forall j | 0 <= j < |s| ensures key(s[j]) <= key(x) {
        if j < |s| - 1 {
          assert key(s[j]) <= key(s[|s| - 1]);
        }
      }
      AtMostAll(s, key, key(x));
      assert s[..q] == s && s[q..] == [];
    } else {
      var init := s[..|s| - 1];
      var last := s[|s| - 1];
      assert s == init + [last];
      assert SortedBy(init, key);
      InsertAt(init, x, key);
      assert q == CountAtMost(init, key, key(x));
      assert Insert(s, x, key) == Insert(init, x, key) + [last];
      SpliceAppend(init, last, x, q);
    }
  }

  /** The stable sort of `p + [x]` puts `x` right after the elements of `p` with key at most `key(x)`. */
  lemma SortSplit<T>(s: seq<T>, key: T -> int)
    requires |s| > 0
    ensures var p := s[..|s| - 1];
      var x := s[|s| - 1];
      var t := SortBy(p, key);
      var q := CountAtMost(t, key, key(x));
      && q == CountBelow(p, key, key(x)) + CountEqual(p, key, key(x))
      && q <= |t|
      && SortBy(s, key) == t[..q] + [x] + t[q..]
  {
    var p := s[..|s| - 1];
    var x := s[|s| - 1];
    var t := SortBy(p, key);
    assert s == p + [x];
    InsertAt(t, x, key);
    SortCounts(p, key, key(x));
    AtMostSplits(p, key, key(x));
  }

  /** In a sorted sequence, index `j` lies in the prefix of keys at most `k` exactly when its key is at most `k`. */
  lemma PrefixMember<T>(t: seq<T>, key: T -> int, k: int, j: nat)
    requires SortedBy(t, key) && j < |t|
    ensures j < CountAtMost(t, key, k) <==> key(t[j]) <= k
  {
    SortedPrefix(t, key, k);
  }

  /** Dropping the last element lowers an earlier rank by one exactly when that element's key is smaller. */
  lemma RankDropLast<T>(s: seq<T>, key: T -> int, i: nat)
    requires i < |s| - 1
    ensures Rank(s, key, i) == Rank(s[..|s| - 1], key, i) + (if key(s[|s| - 1]) < key(s[i]) then 1 else 0)
  {
    var p := s[..|s| - 1];
    assert p[i] == s[i];
    assert s[..i] == p[..i];
  }

  /** The last element ranks after every smaller and every equal key before it. */
  lemma RankLast<T>(s: seq<T>, key: T -> int)
    requires |s| > 0
    ensures var p := s[..|s| - 1];
      var k := key(s[|s| - 1]);
      Rank(s, key, |s| - 1) == CountBelow(p, key, k) + CountEqual(p, key, k)
  {
    var p := s[..|s| - 1];
    var k := key(s[|s| - 1]);
    assert CountBelow(s, key, k) == CountBelow(p, key, k);
  }

  /** The last element lands at its rank. */
  lemma SortRankLast<T>(s: seq<T>, key: T -> int)
    requires |s| > 0
    ensures Rank(s, key, |s| - 1) < |s|
    ensures SortBy(s, key)[Rank(s, key, |s| - 1)] == s[|s| - 1]
  {
    var p := s[..|s| - 1];
    var x := s[|s| - 1];
    var t := SortBy(p, key);
    var q := CountAtMost(t, key, key(x));
    SortSplit(s, key);
    RankLast(s, key);
    SpliceAt(t, x, q, q);
  }

  /**
   * An earlier element lands at its rank in `u`, the sorted prefix `t` with
   * the last element spliced in, when it lands at its rank in `t`.
   */
  lemma RankStep<T>(s: seq<T>, key: T -> int, i: nat, t: seq<T>, u: seq<T>)
    requires i < |s| - 1 && |t| == |s| - 1 && SortedBy(t, key)
    requires Rank(s[..|s| - 1], key, i) < |t| && t[Rank(s[..|s| - 1], key, i)] == s[i]
    requires CountAtMost(t, key, key(s[|s| - 1])) <= |t|
    requires var q := CountAtMost(t, key, key(s[|s| - 1]));
      u == t[..q] + [s[|s| - 1]] + t[q..]
    ensures Rank(s, key, i) < |u|
    ensures u[Rank(s, key, i)] == s[i]
  {
    var x := s[|s| - 1];
    RankDropLast(s, key, i);
    var r' := Rank(s[..|s| - 1], key, i);
    PrefixMember(t, key, key(x), r');
    SpliceIndex(u, t, x, CountAtMost(t, key, key(x)), r', key);
  }

  /** An element of `t` moves up by one exactly when its key exceeds that of the spliced-in `x`. */
  lemma SpliceIndex<T>(u: seq<T>, t: seq<T>, x: T, q: nat, j: nat, key: T -> int)
    requires q <= |t| && j < |t| && u == t[..q] + [x] + t[q..]
    requires j < q <==> key(t[j]) <= key(x)
    ensures j + (if key(x) < key(t[j]) then 1 else 0) < |u|
    ensures u[j + (if key(x) < key(t[j]) then 1 else 0)] == t[j]
  {
    SpliceAt(t, x, q, j);
  }

  /** The output of the stable sort, index by index. */
  lemma {:induction false} SortRank<T>(s: seq<T>, key: T -> int, i: nat)
    requires i < |s|
    ensures Rank(s, key, i) < |s|
    ensures SortBy(s, key)[Rank(s, key, i)] == s[i]
  {
    if i == |s| - 1 {
      SortRankLast(s, key);
    } else {
      var p := s[..|s| - 1];
      SortRank(p, key, i);
      assert p[i] == s[i];
      SortSplit(s, key);
      RankStep(s, key, i, SortBy(p, key), SortBy(s, key));
    }
  }

  /** Where an element of `t` sits once `x` is spliced in at `q`. */
  lemma SpliceAt<T>(t: seq<T>, x: T, q: nat, j: nat)
    requires q <= |t| && j <= |t|
    ensures var u := t[..q] + [x] + t[q..];
      && |u| == |t| + 1
      && (j < q ==> u[j] == t[j])
      && (j == q ==> u[j] == x)
      && (q <= j < |t| ==> u[j + 1] == t[j])
  {
  }

  lemma {:induction false} InsertCountIf<T>(s: seq<T>, x: T, key: T -> int, hit: T -> bool)
    ensures CountIf(Insert(s, x, key), hit) == CountIf(s, hit) + (if hit(x) then 1 else 0)
  {
    var r := Insert(s, x, key);
    if |s| == 0 {
      assert r[..0] == [];
    } else if key(s[|s| - 1]) <= key(x) {
      assert r[..|r| - 1] == s;
    } else {
      var init := s[..|s| - 1];
      InsertCountIf(init, x, key, hit);
      assert r[..|r| - 1] == Insert(init, x, key);
    }
  }

  lemma {:induction false} SortCountIf<T>(s: seq<T>, key: T -> int, hit: T -> bool)
    ensures CountIf(SortBy(s, key), hit) == CountIf(s, hit)
  {
    if |s| > 0 {
      SortCountIf(s[..|s| - 1], key, hit);
      InsertCountIf(SortBy(s[..|s| - 1], key), s[|s| - 1], key, hit);
    }
  }

  lemma {:induction false} CountIfSingle<T>(s: seq<T>, hit: T -> bool, i: nat)
    requires i < |s|
    requires forall j :: 0 <= j < |s| ==> (hit(s[j]) <==> j == i)
    ensures CountIf(s, hit) == 1
  {
    var init := s[..|s| - 1];
    if i == |s| - 1 {
      assert CountIf(init, hit) == 0;
    } else {
      CountIfSingle(init, hit, i);
    }
  }

  lemma {:induction false} CountIfTwo<T>(s: seq<T>, hit: T -> bool, a: nat, b: nat)
    requires a < b < |s| && hit(s[a]) && hit(s[b])
    ensures CountIf(s, hit) >= 2
  {
    var init := s[..|s| - 1];
    if b == |s| - 1 {
      assert init[a] == s[a];
      assert CountIf(init, hit) >= 1;
    } else {
      assert init[a] == s[a] && init[b] == s[b];
      CountIfTwo(init, hit, a, b);
    }
  }

  /**
   * When exactly one element satisfies `is`, `findIndex` on the sorted copy
   * finds it at its rank.
   */
  lemma FindIndexAfterSort<T>(s: seq<T>, key: T -> int, hit: T -> bool, i: nat)
    requires i < |s|
    requires forall j :: 0 <= j < |s| ==> (hit(s[j]) <==> j == i)
    ensures FindIndex(SortBy(s, key), hit) == Some(Rank(s, key, i))
  {
    SortRank(s, key, i);
    CountIfSingle(s, hit, i);
    SortCountIf(s, key, hit);
    FindOnlyHit(SortBy(s, key), hit, Rank(s, key, i));
  }

  /** With a single hit, `findIndex` finds that one. */
  lemma FindOnlyHit<T>(t: seq<T>, hit: T -> bool, r: nat)
    requires r < |t| && hit(t[r]) && CountIf(t, hit) == 1
    ensures FindIndex(t, hit) == Some(r)
  {
    var f := FindIndex(t, hit);
    if f.Some? && f.value < r {
      CountIfTwo(t, hit, f.value, r);
    }
  }
}
