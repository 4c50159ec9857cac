/** Request statistics (`PerformanceTracker`): two windows of the latest
    elapsed times, at most 100 each, three counters, and the summary
    `get_stats` derives from them. Times are reals; floating-point rounding
    is not modelled. */
module Monitoring {
  import opened Seqs

  /** Samples kept per window. */
  const WindowSize: nat := 100
  /** A percentile is reported only above this many samples. */
  const MinP95Samples: nat := 20

  /** `append(x)` followed by one `pop(0)` when the list then holds more
      than 100 samples. */
  function Push(w: seq<real>, x: real): (r: seq<real>)
    ensures |w| <= WindowSize ==> |r| <= WindowSize
    ensures |r| == if |w| + 1 > WindowSize then |w| else |w| + 1
    ensures r == (w + [x])[|w| + 1 - |r|..]
  {
    var grown := w + [x];
    if |grown| > WindowSize then grown[1..] else grown
  }

  /** The last `n` elements of `s`, or all of them. */
  function LastN(s: seq<real>, n: nat): (r: seq<real>)
    ensures |r| == Min(|s|, n)
  {
    if |s| <= n then s else s[|s| - n..]
  }

  lemma PushLastN(s: seq<real>, x: real)
    ensures Push(LastN(s, WindowSize), x) == LastN(s + [x], WindowSize)
  {
    if |s| > WindowSize {
      assert (s[|s| - WindowSize..] + [x])[1..] == (s + [x])[|s| + 1 - WindowSize..];
    } else if |s| == WindowSize {
      assert (s + [x])[1..] == (s + [x])[|s| + 1 - WindowSize..];
    }
  }

  /** The window after recording `xs` one by one. */
  function RecordAll(w: seq<real>, xs: seq<real>): seq<real>
  {
    if |xs| == 0 then w else Push(RecordAll(w, xs[..|xs| - 1]), xs[|xs| - 1])
  }

  /** However many samples are recorded, the window holds exactly the latest
      100 of everything recorded, in order. */
  lemma {:induction false} RecordAllKeepsLatest(w: seq<real>, xs: seq<real>)
    requires |w| <= WindowSize
    ensures RecordAll(w, xs) == LastN(w + xs, WindowSize)
  {
    if |xs| > 0 {
      var front := xs[..|xs| - 1];
      RecordAllKeepsLatest(w, front);
      PushLastN(w + front, xs[|xs| - 1]);
      assert w + front + [xs[|xs| - 1]] == w + xs;
    }
  }

  /** `hits / (hits + misses)`, or 0 before any lookup. */
  function HitRate(hits: nat, misses: nat): (r: real)
    ensures 0.0 <= r <= 1.0
    ensures hits + misses == 0 ==> r == 0.0
    ensures hits + misses > 0 ==> r * ((hits + misses) as real) == hits as real
    ensures r == 1.0 <==> hits > 0 && misses == 0
  {
    if hits + misses > 0 then
      var t := (hits + misses) as real;
      hits as real / t
    else 0.0
  }

  function Sum(s: seq<real>): real
  {
    if |s| == 0 then 0.0 else Sum(s[..|s| - 1]) + s[|s| - 1]
  }

  /** `sum(times) / len(times) * 1000`, or 0 for no samples. */
  function AverageMs(times: seq<real>): (r: real)
    ensures |times| == 0 ==> r == 0.0
    ensures |times| > 0 ==> r * (|times| as real) == Sum(times) * 1000.0
  {
    if |times| > 0 then Sum(times) / (|times| as real) * 1000.0 else 0.0
  }

  predicate SortedAsc(s: seq<real>)
  {
    forall i, j :: 0 <= i < j < |s| ==> s[i] <= s[j]
  }

  function InsertAsc(x: real, s: seq<real>): (r: seq<real>)
    ensures |r| == |s| + 1
  {
    if |s| == 0 || x <= s[0] then [x] + s else [s[0]] + InsertAsc(x, s[1..])
  }

  /** `sorted(times)` */
  function SortAsc(s: seq<real>): (r: seq<real>)
    ensures |r| == |s|
  {
    if |s| == 0 then [] else InsertAsc(s[0], SortAsc(s[1..]))
  }

  lemma {:induction false} InsertAscPerm(x: real, s: seq<real>)
    ensures multiset(InsertAsc(x, s)) == multiset(s) + multiset{x}
  {
    if |s| > 0 && x > s[0] {
      InsertAscPerm(x, s[1..]);
      assert s == [s[0]] + s[1..];
    }
  }

  lemma {:induction false} InsertAscSorted(x: real, s: seq<real>)
    requires SortedAsc(s)
    ensures SortedAsc(InsertAsc(x, s))
    ensures InsertAsc(x, s)[0] == x || (|s| > 0 && InsertAsc(x, s)[0] == s[0])
  {
    if |s| > 0 && x > s[0] {
      InsertAscSorted(x, s[1..]);
      var rest := InsertAsc(x, s[1..]);
      assert s[0] <= rest[0];
      var r := [s[0]] + rest;
      assert InsertAsc(x, s) == r;
      forall i, j | 0 <= i < j < |r| ensures r[i] <= r[j] {
        assert r[j] == rest[j - 1];
        if i > 0 {
          assert r[i] == rest[i - 1];
        } else {
          assert rest[0] <= rest[j - 1];
        }
      }
    }
  }

  lemma {:induction false} SortAscFacts(s: seq<real>)
    ensures SortedAsc(SortAsc(s))
    ensures multiset(SortAsc(s)) == multiset(s)
  {
    if |s| > 0 {
      SortAscFacts(s[1..]);
      InsertAscSorted(s[0], SortAsc(s[1..]));
      InsertAscPerm(s[0], SortAsc(s[1..]));
      assert s == [s[0]] + s[1..];
    }
  }

  /** `int(n * 0.95)`, for the window sizes that occur (at most 100). */
  function P95Index(n: nat): (i: nat)
    ensures n > 0 ==> i < n
  {
    (95 * n) / 100
  }

  /** `sorted(times)[int(n * 0.95)] * 1000` above 20 samples, else 0. */
  function P95Ms(times: seq<real>): (r: real)
  {
    if |times| > MinP95Samples then SortAsc(times)[P95Index(|times|)] * 1000.0 else 0.0
  }

  /** The 95th percentile is one of the samples, no sample ranked below it is
      larger and none ranked above it is smaller. */
  lemma P95IsPercentile(times: seq<real>)
    ensures |times| <= MinP95Samples ==> P95Ms(times) == 0.0
    ensures |times| > MinP95Samples ==>
              exists v :: v in times && P95Ms(times) == v * 1000.0
                && (forall i :: 0 <= i < P95Index(|times|) ==> SortAsc(times)[i] <= v)
                && (forall i :: P95Index(|times|) <= i < |times| ==> v <= SortAsc(times)[i])
  {
    if |times| > MinP95Samples {
      SortAscFacts(times);
      var sorted := SortAsc(times);
      var idx := P95Index(|times|);
      var v := sorted[idx];
      assert v in multiset(sorted);
      assert v in times;
      assert P95Ms(times) == v * 1000.0;
      assert forall i :: 0 <= i < idx ==> sorted[i] <= v;
      assert forall i :: idx <= i < |times| ==> v <= sorted[i];
    }
  }

  datatype Stats = Stats(
    totalRequests: nat,
    cacheHitRate: real,
    avgSearchTimeMs: real,
    avgLlmTimeMs: real,
    p95SearchTimeMs: real,
    p95LlmTimeMs: real)

  class PerformanceTracker {
    var searchTimes: seq<real>
    var llmTimes: seq<real>
    var totalRequests: nat
    var cacheHits: nat
    var cacheMisses: nat

    /** Both windows stay within their bound. */
    ghost predicate Valid()
      reads this
    {
      |searchTimes| <= WindowSize && |llmTimes| <= WindowSize
    }

    constructor ()
      ensures Valid()
      ensures searchTimes == [] && llmTimes == []
      ensures totalRequests == 0 && cacheHits == 0 && cacheMisses == 0
    {
      searchTimes := [];
      llmTimes := [];
      totalRequests := 0;
      cacheHits := 0;
      cacheMisses := 0;
    }

    method RecordSearchTime(elapsed: real)
      requires Valid()
      modifies this`searchTimes
      ensures Valid()
      ensures searchTimes == Push(old(searchTimes), elapsed)
    {
      searchTimes := searchTimes + [elapsed];
      if |searchTimes| > WindowSize {
        searchTimes := searchTimes[1..];
      }
    }

    method RecordLlmTime(elapsed: real)
      requires Valid()
      modifies this`llmTimes
      ensures Valid()
      ensures llmTimes == Push(old(llmTimes), elapsed)
    {
      llmTimes := llmTimes + [elapsed];
      if |llmTimes| > WindowSize {
        llmTimes := llmTimes[1..];
      }
    }

    method RecordRequest()
      modifies this`totalRequests
      ensures totalRequests == old(totalRequests) + 1
    {
      totalRequests := totalRequests + 1;
    }

    method RecordCacheHit()
      modifies this`cacheHits
      ensures cacheHits == old(cacheHits) + 1
    {
      cacheHits := cacheHits + 1;
    }

    method RecordCacheMiss()
      modifies this`cacheMisses
      ensures cacheMisses == old(cacheMisses) + 1
    {
      cacheMisses := cacheMisses + 1;
    }

    /** `get_stats()` */
    function GetStats(): (r: Stats)
      reads this
      ensures r.totalRequests == totalRequests
      ensures 0.0 <= r.cacheHitRate <= 1.0
      ensures |searchTimes| <= MinP95Samples ==> r.p95SearchTimeMs == 0.0
      ensures |llmTimes| <= MinP95Samples ==> r.p95LlmTimeMs == 0.0
      ensures searchTimes == [] ==> r.avgSearchTimeMs == 0.0
      ensures llmTimes == [] ==> r.avgLlmTimeMs == 0.0
    {
      Stats(totalRequests, HitRate(cacheHits, cacheMisses),
            AverageMs(searchTimes), AverageMs(llmTimes),
            P95Ms(searchTimes), P95Ms(llmTimes))
    }
  }
}
