/** The p99 of a round (orchestrator/manager/round_reports.go), as the nearest rank of its latencies. */
module Percentile {

  ghost predicate IsSorted(s: seq<int>) {
    forall i, j :: 0 <= i < j < |s| ==> s[i] <= s[j]
  }

  /** The library sort, by insertion: any sort yields this sequence (SortIsCanonical). */
  function Sort(s: seq<int>): (r: seq<int>)
    ensures IsSorted(r) && multiset(r) == multiset(s) && |r| == |s|
  {
    if s == [] then []
    else
      assert s == [s[0]] + s[1..];
      Insert(s[0], Sort(s[1..]))
  }

  function Insert(x: int, s: seq<int>): (r: seq<int>)
    requires IsSorted(s)
    ensures IsSorted(r) && multiset(r) == multiset(s) + multiset{x} && |r| == |s| + 1
  {
    if s == [] || x <= s[0] then [x] + s
    else
      assert s == [s[0]] + s[1..];
      var rest := Insert(x, s[1..]);
      HeadBoundsRest(x, s, rest);
      [s[0]] + rest
  }

  lemma HeadBoundsRest(x: int, s: seq<int>, rest: seq<int>)
    requires s != [] && IsSorted(s) && s[0] <= x
    requires IsSorted(rest) && multiset(rest) == multiset(s[1..]) + multiset{x}
    ensures IsSorted([s[0]] + rest)
  {
    forall i | 0 <= i < |rest|
      ensures s[0] <= rest[i]
    {
      assert rest[i] in multiset(s[1..]) + multiset{x};
      assert rest[i] == x || rest[i] in s[1..];
    }
  }

  /** Sorting forgets the order of arrival. */
  lemma {:induction false} SortIsCanonical(a: seq<int>, b: seq<int>)
    requires IsSorted(a) && IsSorted(b) && multiset(a) == multiset(b)
    ensures a == b
    decreases |a|
  {
    assert |a| == |multiset(a)| == |multiset(b)| == |b|;
    if a != [] {
      assert a[0] in multiset(b) && b[0] in multiset(a);
      assert a[0] == b[0];
      assert a == [a[0]] + a[1..] && b == [b[0]] + b[1..];
      assert multiset(a[1..]) == multiset(a) - multiset{a[0]};
      assert multiset(b[1..]) == multiset(b) - multiset{b[0]};
      SortIsCanonical(a[1..], b[1..]);
    }
  }

  function P99Latency(sortedLatencies: seq<int>): int {
    if |sortedLatencies| == 0 then 0
    else
      var rank := (|sortedLatencies| * 99 + 99) / 100;
      var atLeastOne := if rank <= 0 then 1 else rank;
      var index := if atLeastOne > |sortedLatencies| then |sortedLatencies| else atLeastOne;
      sortedLatencies[index - 1]
  }

  /** The rank computed for n samples is the least one covering 99% of them; neither index correction fires. */
  lemma RankCovers99(n: nat)
    requires n > 0
    ensures var rank := (n * 99 + 99) / 100;
            1 <= rank <= n && 100 * (rank - 1) < 99 * n <= 100 * rank && n - rank == n / 100
  {
  }

  /** How many samples are at most (below) a value. */
  function AtMost(s: seq<int>, x: int): nat {
    if s == [] then 0 else (if s[0] <= x then 1 else 0) + AtMost(s[1..], x)
  }

  /** The nearest-rank definition of the 99th percentile: the least sample with at least 99% of the samples at or below it. */
  ghost predicate IsNearestRank99(samples: seq<int>, p: int) {
    && p in samples
    && 100 * AtMost(samples, p) >= 99 * |samples|
    && forall x :: x < p ==> 100 * AtMost(samples, x) < 99 * |samples|
  }

  lemma {:induction false} AtMostInsert(x: int, s: seq<int>, v: int)
    requires IsSorted(s)
    ensures AtMost(Insert(x, s), v) == (if x <= v then 1 else 0) + AtMost(s, v)
  {
    if s == [] || x <= s[0] {
      AtMostCons(x, s, v);
    } else {
      AtMostInsert(x, s[1..], v);
      AtMostCons(s[0], Insert(x, s[1..]), v);
    }
  }

  lemma AtMostCons(x: int, s: seq<int>, v: int)
    ensures AtMost([x] + s, v) == (if x <= v then 1 else 0) + AtMost(s, v)
  {
    assert ([x] + s)[1..] == s;
  }

  lemma {:induction false} AtMostSort(s: seq<int>, v: int)
    ensures AtMost(Sort(s), v) == AtMost(s, v)
  {
    if s != [] {
      AtMostSort(s[1..], v);
      AtMostInsert(s[0], Sort(s[1..]), v);
    }
  }

  /** In a sorted sequence a count is the position where the values pass v. */
  lemma {:induction false} AtMostIsPosition(s: seq<int>, k: nat, v: int)
    requires IsSorted(s) && k <= |s|
    ensures (k < |s| ==> s[k] > v) ==> AtMost(s, v) <= k
    ensures (k > 0 ==> s[k - 1] <= v) ==> AtMost(s, v) >= k
  {
    if s != [] {
      AtMostIsPosition(s[1..], if k > 0 then k - 1 else 0, v);
    }
  }

  lemma SortedP99(s: seq<int>)
    requires IsSorted(s) && s != []
    ensures var p, rank := P99Latency(s), (|s| * 99 + 99) / 100;
            p in s && AtMost(s, p) >= rank && forall x :: x < p ==> AtMost(s, x) < rank
  {
    hide IsSorted, AtMost;
    RankCovers99(|s|);
    var rank := (|s| * 99 + 99) / 100;
    var p := s[rank - 1];
    AtMostIsPosition(s, rank, p);
    forall x | x < p
      ensures AtMost(s, x) < rank
    {
      AtMostIsPosition(s, rank - 1, x);
    }
  }

  /** The reported value is the nearest-rank p99 of the samples in whatever order they arrived, and at
      most one sample in a hundred exceeds it. */
  lemma P99IsNearestRank(samples: seq<int>)
    requires samples != []
    ensures IsNearestRank99(samples, P99Latency(Sort(samples)))
    ensures |samples| - AtMost(samples, P99Latency(Sort(samples))) <= |samples| / 100
  {
    hide P99Latency;
    var p := P99Latency(Sort(samples));
    SortedP99(Sort(samples));
    RankCovers99(|samples|);
    AtMostSort(samples, p);
    assert p in samples by {
      assert p in multiset(Sort(samples));
    }
    forall x | x < p
      ensures 100 * AtMost(samples, x) < 99 * |samples|
    {
      AtMostSort(samples, x);
    }
  }

  /** There is only one such value. */
  lemma NearestRankIsUnique(samples: seq<int>, p: int, q: int)
    requires IsNearestRank99(samples, p) && IsNearestRank99(samples, q)
    ensures p == q
  {
  }

  lemma {:induction false} AtMostMonotone(s: seq<int>, x: int, y: int)
    requires x <= y
    ensures AtMost(s, x) <= AtMost(s, y)
  {
    if s != [] {
      AtMostMonotone(s[1..], x, y);
    }
  }

  /** The p99 exceeds a limit exactly when fewer than 99% of the samples are within it. */
  lemma P99ExceedsIffTooFewWithin(samples: seq<int>, limit: int)
    requires samples != []
    ensures P99Latency(Sort(samples)) > limit <==> TooSlow(samples, limit)
  {
    P99IsNearestRank(samples);
    hide P99Latency;
    var p := P99Latency(Sort(samples));
    if p <= limit {
      AtMostMonotone(samples, p, limit);
    }
  }

  lemma {:induction false} AtMostAdds(a: seq<int>, b: seq<int>, x: int)
    ensures AtMost(a + b, x) == AtMost(a, x) + AtMost(b, x)
  {
    if a == [] {
      assert a + b == b;
    } else {
      AtMostAdds(a[1..], b, x);
      assert (a + b)[1..] == a[1..] + b;
    }
  }

  /** Fewer than 99% of the samples are within the limit. */
  predicate TooSlow(samples: seq<int>, limit: int) {
    100 * AtMost(samples, limit) < 99 * |samples|
  }

  /** Samples that agree on a limit agree on it together. */
  lemma TooSlowTogether(a: seq<int>, b: seq<int>, limit: int)
    ensures TooSlow(a, limit) && TooSlow(b, limit) ==> TooSlow(a + b, limit)
    ensures !TooSlow(a, limit) && !TooSlow(b, limit) ==> !TooSlow(a + b, limit)
  {
    AtMostAdds(a, b, limit);
  }
}
