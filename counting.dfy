/** Counting dictionaries as the capture analysis builds them with
    `d[k] = d.get(k, 0) + 1`: an association list of (key, count) pairs whose
    order is the order in which keys were first inserted, as with a Python dict. */
module Counting {

  type Dict<K> = seq<(K, nat)>

  function Keys<K>(d: Dict<K>): (ks: seq<K>)
    ensures |ks| == |d| && forall i :: 0 <= i < |d| ==> ks[i] == d[i].0
  {
    if d == [] then [] else [d[0].0] + Keys(d[1..])
  }

  /** No key occurs twice. */
  ghost predicate DistinctKeys<K>(d: Dict<K>) {
    forall i, j :: 0 <= i < j < |d| ==> d[i].0 != d[j].0
  }

  /** The count recorded for k, or 0 when k has not been counted. */
  function Get<K(==)>(d: Dict<K>, k: K): nat {
    if d == [] then 0 else if d[0].0 == k then d[0].1 else Get(d[1..], k)
  }

  /** `d[k] = d.get(k, 0) + 1`: bump an existing entry in place, or append a new one. */
  function Bump<K(==)>(d: Dict<K>, k: K): Dict<K> {
    if d == [] then [(k, 1)]
    else if d[0].0 == k then [(k, d[0].1 + 1)] + d[1..]
    else [d[0]] + Bump(d[1..], k)
  }

  /** The sum of all counts. */
  function Total<K>(d: Dict<K>): nat {
    if d == [] then 0 else d[0].1 + Total(d[1..])
  }

  /** The dictionary built by bumping every key of `ks`, in order. */
  function Tally<K(==)>(ks: seq<K>): Dict<K> {
    if ks == [] then [] else Bump(Tally(ks[..|ks| - 1]), ks[|ks| - 1])
  }

  /** Tallying one more key bumps it. */
  lemma TallySnoc<K>(ks: seq<K>, x: K)
    ensures Tally(ks + [x]) == Bump(Tally(ks), x)
  {
    assert (ks + [x])[..|ks|] == ks;
  }

  lemma {:induction false} BumpGet<K>(d: Dict<K>, k: K, x: K)
    ensures Get(Bump(d, k), x) == Get(d, x) + (if x == k then 1 else 0)
  {
    if d != [] && d[0].0 != k {
      BumpGet(d[1..], k, x);
    }
  }

  lemma {:induction false} BumpTotal<K>(d: Dict<K>, k: K)
    ensures Total(Bump(d, k)) == Total(d) + 1
  {
    if d != [] && d[0].0 != k {
      BumpTotal(d[1..], k);
    }
  }

  /** A key already present keeps its place; a new key is appended at the end. */
  lemma {:induction false} BumpKeyOrder<K>(d: Dict<K>, k: K)
    ensures Keys(Bump(d, k)) == if k in Keys(d) then Keys(d) else Keys(d) + [k]
  {
    if d != [] && d[0].0 != k {
      BumpKeyOrder(d[1..], k);
      assert Keys(d) == [d[0].0] + Keys(d[1..]);
      assert Keys(Bump(d, k)) == [d[0].0] + Keys(Bump(d[1..], k));
    }
  }

  /** Bumping keeps the keys distinct. */
  lemma BumpKeys<K>(d: Dict<K>, k: K)
    requires DistinctKeys(d)
    ensures DistinctKeys(Bump(d, k))
    ensures Keys(Bump(d, k)) == if k in Keys(d) then Keys(d) else Keys(d) + [k]
  {
    BumpKeyOrder(d, k);
    var b := Bump(d, k);
    forall i, j | 0 <= i < j < |b|
      ensures b[i].0 != b[j].0
    {
      assert b[i].0 == Keys(b)[i] && b[j].0 == Keys(b)[j];
      if j == |d| {
        assert Keys(b)[i] == Keys(d)[i];
      } else {
        assert Keys(b)[i] == Keys(d)[i] && Keys(b)[j] == Keys(d)[j];
      }
    }
  }

  /** Every count is the number of occurrences of its key. */
  lemma {:induction false} TallyCounts<K>(ks: seq<K>, x: K)
    ensures Get(Tally(ks), x) == multiset(ks)[x]
  {
    if ks != [] {
      var init := ks[..|ks| - 1];
      assert ks == init + [ks[|ks| - 1]];
      TallyCounts(init, x);
      BumpGet(Tally(init), ks[|ks| - 1], x);
    }
  }

  /** The positions of ks that hold x. */
  function Positions<K(==)>(ks: seq<K>, x: K): set<nat> {
    set i | 0 <= i < |ks| && ks[i] == x
  }

  /** The number of occurrences of x is the number of positions holding x. */
  lemma {:induction false} OccurrencesAsPositions<K>(ks: seq<K>, x: K)
    ensures multiset(ks)[x] == |Positions(ks, x)|
  {
    if ks == [] {
      assert Positions(ks, x) == {};
    } else {
      var n := |ks| - 1;
      var init := ks[..n];
      assert ks == init + [ks[n]];
      OccurrencesAsPositions(init, x);
      assert forall i :: 0 <= i < n ==> init[i] == ks[i];
      assert Positions(ks, x) == Positions(init, x) + (if ks[n] == x then {n} else {});
    }
  }

  /** The counts add up to the number of keys tallied. */
  lemma {:induction false} TallyTotal<K>(ks: seq<K>)
    ensures Total(Tally(ks)) == |ks|
  {
    if ks != [] {
      TallyTotal(ks[..|ks| - 1]);
      BumpTotal(Tally(ks[..|ks| - 1]), ks[|ks| - 1]);
    }
  }

  /** The keys are exactly the distinct keys tallied, each once. */
  lemma {:induction false} TallyKeys<K>(ks: seq<K>)
    ensures DistinctKeys(Tally(ks))
    ensures forall x :: x in Keys(Tally(ks)) <==> x in ks
  {
    if ks != [] {
      var init := ks[..|ks| - 1];
      assert ks == init + [ks[|ks| - 1]];
      TallyKeys(init);
      BumpKeys(Tally(init), ks[|ks| - 1]);
    }
  }

  // ---- top-N by count -------------------------------------------------------

  ghost predicate NonIncreasing<K>(xs: Dict<K>) {
    forall i, k :: 0 <= i < k < |xs| ==> xs[i].1 >= xs[k].1
  }

  /** Insert x into a list sorted by non-increasing count, before the first entry
      whose count is not larger: so x, coming from earlier in the original order,
      precedes the entries it ties with. */
  function InsertByCount<K>(x: (K, nat), s: Dict<K>): Dict<K> {
    if s == [] then [x]
    else if s[0].1 <= x.1 then [x] + s
    else [s[0]] + InsertByCount(x, s[1..])
  }

  /** The entries sorted by descending count with a stable sort: entries with equal
      counts keep their insertion order. */
  function SortByCount<K>(d: Dict<K>): Dict<K> {
    if d == [] then [] else InsertByCount(d[0], SortByCount(d[1..]))
  }

  /** The first n entries of the sorted counter, or all of them when there are fewer. */
  function TopByCount<K>(d: Dict<K>, n: nat): Dict<K> {
    var sorted := SortByCount(d);
    if n < |sorted| then sorted[..n] else sorted
  }

  /** The sorted entries past the first n: those the top-n list leaves out. */
  function Leftover<K>(d: Dict<K>, n: nat): Dict<K> {
    var sorted := SortByCount(d);
    if n < |sorted| then sorted[n..] else []
  }

  lemma {:induction false} InsertByCountMultiset<K>(x: (K, nat), s: Dict<K>)
    ensures multiset(InsertByCount(x, s)) == multiset(s) + multiset{x}
  {
    if s != [] && s[0].1 > x.1 {
      InsertByCountMultiset(x, s[1..]);
      assert s == [s[0]] + s[1..];
    }
  }

  lemma ConsNonIncreasing<K>(h: (K, nat), tail: Dict<K>)
    requires NonIncreasing(tail)
    requires forall y :: y in tail ==> y.1 <= h.1
    ensures NonIncreasing([h] + tail)
  {
    var r := [h] + tail;
    forall i, k | 0 <= i < k < |r|
      ensures r[i].1 >= r[k].1
    {
      assert r[k] == tail[k - 1];
      if i > 0 {
        assert r[i] == tail[i - 1];
      }
    }
  }

  lemma {:induction false} InsertByCountSorted<K>(x: (K, nat), s: Dict<K>)
    requires NonIncreasing(s)
    ensures NonIncreasing(InsertByCount(x, s))
  {
    if s == [] {
    } else if s[0].1 <= x.1 {
      forall y | y in s
        ensures y.1 <= x.1
      {
        var i :| 0 <= i < |s| && s[i] == y;
        assert s[0].1 >= s[i].1 || i == 0;
      }
      ConsNonIncreasing(x, s);
    } else {
      var rest := s[1..];
      assert NonIncreasing(rest) by {
        assert forall i :: 0 <= i < |rest| ==> rest[i] == s[i + 1];
      }
      InsertByCountSorted(x, rest);
      InsertByCountMultiset(x, rest);
      forall y | y in InsertByCount(x, rest)
        ensures y.1 <= s[0].1
      {
        assert multiset(InsertByCount(x, rest))[y] > 0;
        if y != x {
          var i :| 0 <= i < |rest| && rest[i] == y;
          assert rest[i] == s[i + 1];
        }
      }
      ConsNonIncreasing(s[0], InsertByCount(x, rest));
    }
  }

  /** The sort yields a permutation of the entries in non-increasing count order. */
  lemma {:induction false} SortByCountProperties<K>(d: Dict<K>)
    ensures multiset(SortByCount(d)) == multiset(d)
    ensures NonIncreasing(SortByCount(d))
  {
    if d != [] {
      SortByCountProperties(d[1..]);
      InsertByCountMultiset(d[0], SortByCount(d[1..]));
      InsertByCountSorted(d[0], SortByCount(d[1..]));
      assert d == [d[0]] + d[1..];
    }
  }

  lemma SortByCountLength<K>(d: Dict<K>)
    ensures |SortByCount(d)| == |d|
  {
    SortByCountProperties(d);
    assert |multiset(SortByCount(d))| == |multiset(d)|;
  }

  /** The top-n list has min(n, |d|) entries, each taken from d. */
  lemma TopByCountSize<K>(d: Dict<K>, n: nat)
    ensures |TopByCount(d, n)| == if n < |d| then n else |d|
    ensures forall x :: x in TopByCount(d, n) ==> x in d
  {
    SortByCountLength(d);
    SortByCountProperties(d);
    var sorted := SortByCount(d);
    forall x | x in TopByCount(d, n)
      ensures x in d
    {
      assert x in sorted;
      assert multiset(sorted)[x] > 0;
    }
  }

  /** The top-n list is in non-increasing count order. */
  lemma TopByCountSorted<K>(d: Dict<K>, n: nat)
    ensures NonIncreasing(TopByCount(d, n))
  {
    SortByCountProperties(d);
  }

  /** The top-n list and the leftover entries are together a permutation of d. */
  lemma TopByCountSplit<K>(d: Dict<K>, n: nat)
    ensures multiset(TopByCount(d, n)) + multiset(Leftover(d, n)) == multiset(d)
  {
    SortByCountProperties(d);
    assert TopByCount(d, n) + Leftover(d, n) == SortByCount(d);
  }

  /** No leftover entry has a larger count than an entry of the top-n list. */
  lemma TopByCountDominates<K>(d: Dict<K>, n: nat)
    ensures forall x, y :: x in Leftover(d, n) && y in TopByCount(d, n) ==> x.1 <= y.1
  {
    SortByCountProperties(d);
    var sorted, top, rest := SortByCount(d), TopByCount(d, n), Leftover(d, n);
    forall x, y | x in rest && y in top
      ensures x.1 <= y.1
    {
      var i :| 0 <= i < |rest| && rest[i] == x;
      var k :| 0 <= k < |top| && top[k] == y;
      assert sorted[|top| + i] == x && sorted[k] == y;
    }
  }
}
