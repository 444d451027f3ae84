/**
 * Python's `collections.Counter` as the aggregator uses it: keys remembered
 * in first-insertion order (a dict), a count per key, and `most_common(n)`,
 * which sorts by descending count with a STABLE sort, so that equal counts
 * keep first-insertion order.
 */
module Counting {

  datatype Counter = Counter(keys: seq<string>, counts: map<string, nat>) {
    /** `counter[k]`: zero for a key never counted. */
    function Count(k: string): nat {
      if k in counts then counts[k] else 0
    }
  }

  const EmptyCounter: Counter := Counter([], map[])

  /** `counter[k] += 1`: a new key is appended to the insertion order. */
  function Increment(c: Counter, k: string): Counter {
    if k in c.counts then Counter(c.keys, c.counts[k := c.counts[k] + 1])
    else Counter(c.keys + [k], c.counts[k := 1])
  }

  /** The counter after incrementing every key of `ks`, left to right. */
  function Tally(ks: seq<string>): Counter
    decreases |ks|
  {
    if ks == [] then EmptyCounter else Increment(Tally(ks[..|ks| - 1]), ks[|ks| - 1])
  }

  /** Counting one more key is one more increment. */
  lemma TallyAppend(ks: seq<string>, x: string)
    ensures Tally(ks + [x]) == Increment(Tally(ks), x)
  {
    assert (ks + [x])[..|ks|] == ks;
  }

  predicate Distinct<T(==)>(s: seq<T>) {
    forall p, q :: 0 <= p < q < |s| ==> s[p] != s[q]
  }

  /** The position of the first occurrence of `k` in `s`. */
  function FirstIndex(s: seq<string>, k: string): (i: nat)
    requires k in s
    ensures i < |s| && s[i] == k
    ensures forall j :: 0 <= j < i ==> s[j] != k
  {
    if s[0] == k then 0 else 1 + FirstIndex(s[1..], k)
  }

  lemma {:induction false} FirstIndexAppend(s: seq<string>, x: string, k: string)
    requires k in s + [x]
    ensures k in s ==> FirstIndex(s + [x], k) == FirstIndex(s, k)
    ensures k !in s ==> FirstIndex(s + [x], k) == |s|
  {
    var t := s + [x];
    var i := FirstIndex(t, k);
    if k in s {
      assert t[FirstIndex(s, k)] == k;
      assert forall j :: 0 <= j < |s| ==> t[j] == s[j];
    } else {
      assert forall j :: 0 <= j < |s| ==> t[j] == s[j];
    }
  }

  /** In a list of distinct keys, a key's first occurrence is its position. */
  lemma FirstIndexOfDistinct(s: seq<string>, p: nat)
    requires Distinct(s) && p < |s|
    ensures FirstIndex(s, s[p]) == p
  {
  }

  /** The counter holds every key of `ks` and nothing else, each with its
      number of occurrences in `ks`. */
  lemma {:induction false} TallyCounts(ks: seq<string>)
    ensures forall k :: k in Tally(ks).counts <==> k in ks
    ensures forall k :: Tally(ks).Count(k) == multiset(ks)[k]
    ensures forall k :: k in Tally(ks).counts ==> Tally(ks).counts[k] > 0
    decreases |ks|
  {
    if ks != [] {
      var front, x := ks[..|ks| - 1], ks[|ks| - 1];
      TallyCounts(front);
      assert ks == front + [x];
    }
  }

  /** The counter's keys are the distinct keys of `ks` in order of first
      occurrence. */
  lemma {:induction false} TallyKeys(ks: seq<string>)
    ensures Distinct(Tally(ks).keys)
    ensures forall k :: k in Tally(ks).keys <==> k in ks
    ensures forall p, q :: 0 <= p < q < |Tally(ks).keys| ==>
      FirstIndex(ks, Tally(ks).keys[p]) < FirstIndex(ks, Tally(ks).keys[q])
    decreases |ks|
  {
    if ks != [] {
      var front, x := ks[..|ks| - 1], ks[|ks| - 1];
      TallyKeys(front);
      TallyCounts(front);
      assert ks == front + [x];
      var keys := Tally(front).keys;
      forall k | k in keys ensures FirstIndex(ks, k) == FirstIndex(front, k) {
        FirstIndexAppend(front, x, k);
      }
      if x !in front {
        FirstIndexAppend(front, x, x);
        assert Tally(ks).keys == keys + [x];
      }
    }
  }

  /** `len(counter)` is the number of distinct keys counted. */
  lemma TallySize(ks: seq<string>)
    ensures |Tally(ks).keys| == |set k | k in ks|
  {
    TallyKeys(ks);
    var keys := Tally(ks).keys;
    assert (set k | k in keys) == (set k | k in ks);
    DistinctCardinality(keys);
  }

  lemma {:induction false} DistinctCardinality(s: seq<string>)
    requires Distinct(s)
    ensures |set k | k in s| == |s|
  {
    if s != [] {
      var front := s[..|s| - 1];
      DistinctCardinality(front);
      assert (set k | k in s) == (set k | k in front) + {s[|s| - 1]};
      assert s[|s| - 1] !in front;
    }
  }

  // ----- most_common: a stable sort by descending count -----

  /** Index `i` ranks before index `j`: higher count, or equal count and earlier insertion. */
  predicate Before(w: seq<nat>, i: nat, j: nat)
    requires i < |w| && j < |w|
  {
    w[i] > w[j] || (w[i] == w[j] && i < j)
  }

  predicate InRange(w: seq<nat>, r: seq<nat>) {
    forall a :: 0 <= a < |r| ==> r[a] < |w|
  }

  predicate Ranked(w: seq<nat>, r: seq<nat>)
    requires InRange(w, r)
  {
    forall a, b :: 0 <= a < b < |r| ==> Before(w, r[a], r[b])
  }

  /** Inserts `x` before the first index it ranks before. */
  function Insert(w: seq<nat>, x: nat, r: seq<nat>): (result: seq<nat>)
    requires x < |w| && InRange(w, r)
    ensures InRange(w, result) && |result| == |r| + 1
    ensures multiset(result) == multiset(r) + multiset{x}
  {
    if r == [] then [x]
    else if Before(w, x, r[0]) then [x] + r
    else
      assert r == [r[0]] + r[1..];
      [r[0]] + Insert(w, x, r[1..])
  }

  /** Insertion sort of indices by rank. */
  function Sort(w: seq<nat>, xs: seq<nat>): (result: seq<nat>)
    requires InRange(w, xs)
    ensures InRange(w, result) && |result| == |xs|
    ensures multiset(result) == multiset(xs)
  {
    if xs == [] then []
    else
      assert xs == [xs[0]] + xs[1..];
      Insert(w, xs[0], Sort(w, xs[1..]))
  }

  lemma {:induction false} InsertRanked(w: seq<nat>, x: nat, r: seq<nat>)
    requires x < |w| && InRange(w, r) && Ranked(w, r) && x !in r
    ensures Ranked(w, Insert(w, x, r))
  {
    if r != [] && !Before(w, x, r[0]) {
      var tail := r[1..];
      InsertRanked(w, x, tail);
      var rest := Insert(w, x, tail);
      var result := [r[0]] + rest;
      forall b | 0 < b < |result| ensures Before(w, r[0], result[b]) {
        var y := result[b];
        assert y == rest[b - 1];
        assert y in multiset(rest);
        if y != x {
          assert y in multiset(tail);
          assert y in tail;
          var idx :| 0 <= idx < |tail| && tail[idx] == y;
          assert r[idx + 1] == y;
        }
      }
    }
  }

  lemma {:induction false} SortRanked(w: seq<nat>, xs: seq<nat>)
    requires InRange(w, xs) && Distinct(xs)
    ensures Ranked(w, Sort(w, xs))
  {
    if xs != [] {
      var tail := xs[1..];
      SortRanked(w, tail);
      assert xs[0] !in multiset(tail);
      assert xs[0] !in multiset(Sort(w, tail));
      InsertRanked(w, xs[0], Sort(w, tail));
    }
  }

  /** The counts of the keys, in insertion order. */
  function Weights(c: Counter): (w: seq<nat>)
    ensures |w| == |c.keys|
  {
    seq(|c.keys|, i requires 0 <= i < |c.keys| => c.Count(c.keys[i]))
  }

  function Indices(n: nat): (r: seq<nat>)
    ensures |r| == n && forall i :: 0 <= i < n ==> r[i] == i
  {
    seq(n, i requires 0 <= i < n => i)
  }

  /** `counter.most_common(n)`: the first `n` keys ranked by descending count,
      equal counts in insertion order, each with its count. */
  function MostCommon(c: Counter, n: nat): (top: seq<(string, nat)>)
    ensures |top| == if n < |c.keys| then n else |c.keys|
  {
    var w := Weights(c);
    var order := Sort(w, Indices(|c.keys|));
    var m := if n < |order| then n else |order|;
    seq(m, i requires 0 <= i < m => (c.keys[order[i]], w[order[i]]))
  }

  /** The ranking `most_common` sorts by. */
  function Ranking(c: Counter): (order: seq<nat>)
    ensures InRange(Weights(c), order) && |order| == |c.keys|
  {
    Sort(Weights(c), Indices(|c.keys|))
  }

  lemma RankingIsRanked(c: Counter)
    ensures Ranked(Weights(c), Ranking(c))
    ensures forall p :: 0 <= p < |c.keys| ==> p in Ranking(c)
  {
    var ids := Indices(|c.keys|);
    SortRanked(Weights(c), ids);
    forall p | 0 <= p < |c.keys| ensures p in Ranking(c) {
      assert ids[p] == p;
      assert p in multiset(Ranking(c));
    }
  }

  lemma MostCommonAt(c: Counter, n: nat, i: nat)
    requires i < |MostCommon(c, n)|
    ensures MostCommon(c, n)[i] == (c.keys[Ranking(c)[i]], c.Count(c.keys[Ranking(c)[i]]))
  {
  }

  /** `most_common(n)` lists keys of the counter, each with its count. */
  lemma MostCommonCounts(c: Counter, n: nat)
    ensures forall i :: 0 <= i < |MostCommon(c, n)| ==>
      MostCommon(c, n)[i].0 in c.keys && MostCommon(c, n)[i].1 == c.Count(MostCommon(c, n)[i].0)
  {
    forall i | 0 <= i < |MostCommon(c, n)|
      ensures MostCommon(c, n)[i].0 in c.keys && MostCommon(c, n)[i].1 == c.Count(MostCommon(c, n)[i].0)
    {
      MostCommonAt(c, n, i);
    }
  }

  /** `most_common(n)` is ranked by descending count, equal counts in
      insertion order (so its keys are distinct). */
  lemma MostCommonOrdered(c: Counter, n: nat)
    requires Distinct(c.keys)
    ensures forall i, j :: 0 <= i < j < |MostCommon(c, n)| ==>
      MostCommon(c, n)[i].1 > MostCommon(c, n)[j].1 ||
      (MostCommon(c, n)[i].1 == MostCommon(c, n)[j].1 &&
       FirstIndex(c.keys, MostCommon(c, n)[i].0) < FirstIndex(c.keys, MostCommon(c, n)[j].0))
  {
    var top := MostCommon(c, n);
    var order := Ranking(c);
    RankingIsRanked(c);
    forall i, j | 0 <= i < j < |top|
      ensures top[i].1 > top[j].1 || (top[i].1 == top[j].1 && FirstIndex(c.keys, top[i].0) < FirstIndex(c.keys, top[j].0))
    {
      MostCommonAt(c, n, i);
      MostCommonAt(c, n, j);
      FirstIndexOfDistinct(c.keys, order[i]);
      FirstIndexOfDistinct(c.keys, order[j]);
      assert Before(Weights(c), order[i], order[j]);
    }
  }

  /** Every key `most_common(n)` leaves out ranks after every key it lists. */
  lemma MostCommonIsTop(c: Counter, n: nat, k: string)
    requires Distinct(c.keys) && k in c.keys
    requires forall j :: 0 <= j < |MostCommon(c, n)| ==> MostCommon(c, n)[j].0 != k
    ensures forall i :: 0 <= i < |MostCommon(c, n)| ==>
      MostCommon(c, n)[i].1 > c.Count(k) ||
      (MostCommon(c, n)[i].1 == c.Count(k) && FirstIndex(c.keys, MostCommon(c, n)[i].0) < FirstIndex(c.keys, k))
  {
    var top := MostCommon(c, n);
    var order := Ranking(c);
    RankingIsRanked(c);
    var p := FirstIndex(c.keys, k);
    assert p in order;
    var q :| 0 <= q < |c.keys| && order[q] == p;
    assert q >= |top| by {
      if q < |top| {
        MostCommonAt(c, n, q);
      }
    }
    forall i | 0 <= i < |top|
      ensures top[i].1 > c.Count(k) || (top[i].1 == c.Count(k) && FirstIndex(c.keys, top[i].0) < FirstIndex(c.keys, k))
    {
      MostCommonAt(c, n, i);
      FirstIndexOfDistinct(c.keys, order[i]);
      assert Before(Weights(c), order[i], order[q]);
    }
  }

  // ----- most_common of a tally, stated on the counted stream itself -----

  /** Insertion order in a tally is first-occurrence order in the counted stream. */
  lemma TallyOrder(ks: seq<string>, a: string, b: string)
    requires a in Tally(ks).keys && b in Tally(ks).keys
    requires FirstIndex(Tally(ks).keys, a) < FirstIndex(Tally(ks).keys, b)
    ensures a in ks && b in ks && FirstIndex(ks, a) < FirstIndex(ks, b)
  {
    TallyKeys(ks);
  }

  /** `Counter(ks).most_common(n)` holds at most `n` entries (fewer only when
      fewer distinct keys were counted), each a counted key with its number of
      occurrences in `ks`. */
  lemma MostCommonOfTallyEntries(ks: seq<string>, n: nat)
    ensures |MostCommon(Tally(ks), n)| == if n < |set k | k in ks| then n else |set k | k in ks|
    ensures forall i :: 0 <= i < |MostCommon(Tally(ks), n)| ==>
      MostCommon(Tally(ks), n)[i].0 in ks &&
      MostCommon(Tally(ks), n)[i].1 == multiset(ks)[MostCommon(Tally(ks), n)[i].0]
  {
    TallySize(ks);
    TallyKeys(ks);
    TallyCounts(ks);
    MostCommonCounts(Tally(ks), n);
  }

  /** `Counter(ks).most_common(n)` is ranked by descending count, ties in order
      of first occurrence in `ks`. */
  lemma MostCommonOfTallyOrdered(ks: seq<string>, n: nat)
    ensures forall i :: 0 <= i < |MostCommon(Tally(ks), n)| ==> MostCommon(Tally(ks), n)[i].0 in ks
    ensures forall i, j :: 0 <= i < j < |MostCommon(Tally(ks), n)| ==>
      MostCommon(Tally(ks), n)[i].1 > MostCommon(Tally(ks), n)[j].1 ||
      (MostCommon(Tally(ks), n)[i].1 == MostCommon(Tally(ks), n)[j].1 &&
       FirstIndex(ks, MostCommon(Tally(ks), n)[i].0) < FirstIndex(ks, MostCommon(Tally(ks), n)[j].0))
  {
    var c := Tally(ks);
    var top := MostCommon(c, n);
    TallyKeys(ks);
    MostCommonCounts(c, n);
    MostCommonOrdered(c, n);
    forall i, j | 0 <= i < j < |top| && top[i].1 == top[j].1
      ensures FirstIndex(ks, top[i].0) < FirstIndex(ks, top[j].0)
    {
      TallyOrder(ks, top[i].0, top[j].0);
    }
  }

  /** A key of `ks` that `Counter(ks).most_common(n)` leaves out ranks after
      every key it lists. */
  lemma MostCommonOfTallyIsTop(ks: seq<string>, n: nat, k: string)
    requires k in ks
    requires forall j :: 0 <= j < |MostCommon(Tally(ks), n)| ==> MostCommon(Tally(ks), n)[j].0 != k
    ensures forall i :: 0 <= i < |MostCommon(Tally(ks), n)| ==> MostCommon(Tally(ks), n)[i].0 in ks
    ensures forall i :: 0 <= i < |MostCommon(Tally(ks), n)| ==>
      MostCommon(Tally(ks), n)[i].1 > multiset(ks)[k] ||
      (MostCommon(Tally(ks), n)[i].1 == multiset(ks)[k] && FirstIndex(ks, MostCommon(Tally(ks), n)[i].0) < FirstIndex(ks, k))
  {
    var c := Tally(ks);
    var top := MostCommon(c, n);
    TallyKeys(ks);
    TallyCounts(ks);
    MostCommonCounts(c, n);
    MostCommonIsTop(c, n, k);
    forall i | 0 <= i < |top| && top[i].1 == c.Count(k)
      ensures FirstIndex(ks, top[i].0) < FirstIndex(ks, k)
    {
      TallyOrder(ks, top[i].0, k);
    }
  }

  lemma SampleStream(ks: seq<string>, a: string, b: string, c: string)
    requires a != b && b != c && a != c
    requires ks == [a, b, a, c, b, a]
    ensures |set k | k in ks| == 3
    ensures forall k :: k in ks <==> k == a || k == b || k == c
    ensures multiset(ks)[a] == 3 && multiset(ks)[b] == 2 && multiset(ks)[c] == 1
  {
    assert (set k | k in ks) == {a, b, c};
    assert |{a, b, c}| == 3;
    assert multiset(ks) == multiset{a, a, a, b, b, c};
  }

  /** Three distinct keys counted three, two and one times rank in that order. */
  lemma RankingOfThree(ks: seq<string>, a: string, b: string, c: string)
    requires |set k | k in ks| == 3
    requires forall k :: k in ks <==> k == a || k == b || k == c
    requires multiset(ks)[a] == 3 && multiset(ks)[b] == 2 && multiset(ks)[c] == 1
    ensures MostCommon(Tally(ks), 10) == [(a, 3), (b, 2), (c, 1)]
  {
    var top := MostCommon(Tally(ks), 10);
    MostCommonOfTallyEntries(ks, 10);
    MostCommonOfTallyOrdered(ks, 10);
    assert |top| == 3;
    assert top[0].1 > top[1].1 > top[2].1;
  }

  /** The ranking on a sample stream: three, two and one occurrences of
      distinct keys come out as the keys with their counts, most frequent first. */
  lemma SampleRanking(ks: seq<string>, a: string, b: string, c: string)
    requires a != b && b != c && a != c
    requires ks == [a, b, a, c, b, a]
    ensures MostCommon(Tally(ks), 10) == [(a, 3), (b, 2), (c, 1)]
  {
    SampleStream(ks, a, b, c);
    RankingOfThree(ks, a, b, c);
  }
}
