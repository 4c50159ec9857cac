/** Keyword-driven candidate gathering and re-ranking
    (`EmbeddingSearcher.search_with_embedding`). For each keyword, in order,
    its direct label matches and then (only when there were any) their 1-hop
    neighbours are merged into the candidate list, a concept entering only
    the first time its uri is seen. When there are more than `2k` candidates
    and the query embedding is non-empty they are stably sorted by descending
    cosine similarity to the query; the result is cut to `2k`. */
module Search {
  import opened Seqs
  import opened Keywords
  import opened Graph
  import opened Similarity
  import opened Ranking

  /** The embedding endpoint: `embed(text)` is what `get_embedding(text)`
      returns (`[]` when the call failed); `ratio` is numpy's
      `dot(a, b) / (norm(a) * norm(b))`. */
  datatype Embedder = Embedder(embed: string -> seq<real>, ratio: (seq<real>, seq<real>) -> real)

  /** An outbound call made by the search, in the order it is made. */
  datatype Call =
    | MatchCall(keyword: string, limit: nat)
    | RelatedCall(uris: seq<string>, limit: nat)
    | EmbedCall(text: string)

  lemma UriSetAppend(a: seq<Concept>, b: seq<Concept>)
    ensures UriSet(a + b) == UriSet(a) + UriSet(b)
  {
    forall u | u in UriSet(a + b) ensures u in UriSet(a) + UriSet(b) {
      var c :| c in a + b && c.uri == u;
    }
    forall u | u in UriSet(a) + UriSet(b) ensures u in UriSet(a + b) {
      if u in UriSet(a) {
        var c :| c in a && c.uri == u;
        assert c in a + b;
      } else {
        var c :| c in b && c.uri == u;
        assert c in a + b;
      }
    }
  }

  /** The merge loop over `xs`: appends each concept whose uri is not yet in
      the list, in the order of `xs`. */
  function AppendUnseen(acc: seq<Concept>, xs: seq<Concept>): (r: seq<Concept>)
    ensures |acc| <= |r| && r[..|acc|] == acc
    ensures DistinctUris(acc) ==> DistinctUris(r)
    decreases |xs|
  {
    if |xs| == 0 then acc
    else
      var prev := AppendUnseen(acc, xs[..|xs| - 1]);
      var c := xs[|xs| - 1];
      if c.uri in UriSet(prev) then prev
      else
        assert forall i :: 0 <= i < |prev| ==> prev[i].uri in UriSet(prev);
        prev + [c]
  }

  /** The merged list holds the uris of both inputs, and nothing else. */
  lemma AppendUnseenContents(acc: seq<Concept>, xs: seq<Concept>)
    ensures UriSet(AppendUnseen(acc, xs)) == UriSet(acc) + UriSet(xs)
    ensures forall c :: c in AppendUnseen(acc, xs) ==> c in acc || c in xs
  {
    AppendUnseenUris(acc, xs);
    AppendUnseenMembers(acc, xs);
  }

  lemma {:induction false} AppendUnseenUris(acc: seq<Concept>, xs: seq<Concept>)
    ensures UriSet(AppendUnseen(acc, xs)) == UriSet(acc) + UriSet(xs)
    decreases |xs|
  {
    if |xs| > 0 {
      var init := xs[..|xs| - 1];
      var c := xs[|xs| - 1];
      AppendUnseenUris(acc, init);
      var prev := AppendUnseen(acc, init);
      assert xs == init + [c];
      assert UriSet([c]) == {c.uri};
      UriSetAppend(init, [c]);
      if c.uri !in UriSet(prev) {
        UriSetAppend(prev, [c]);
      }
    }
  }

  lemma {:induction false} AppendUnseenMembers(acc: seq<Concept>, xs: seq<Concept>)
    ensures forall c :: c in AppendUnseen(acc, xs) ==> c in acc || c in xs
    decreases |xs|
  {
    if |xs| > 0 {
      var init := xs[..|xs| - 1];
      var c := xs[|xs| - 1];
      AppendUnseenMembers(acc, init);
      var prev := AppendUnseen(acc, init);
      forall x | x in AppendUnseen(acc, xs) ensures x in acc || x in xs {
        if x != c {
          assert x in prev;
        }
      }
    }
  }

  /** Merging `a + b` is merging `a`, then `b`. */
  lemma {:induction false} AppendUnseenAppend(acc: seq<Concept>, a: seq<Concept>, b: seq<Concept>)
    ensures AppendUnseen(acc, a + b) == AppendUnseen(AppendUnseen(acc, a), b)
    decreases |b|
  {
    if |b| == 0 {
      assert a + b == a;
    } else {
      var init := b[..|b| - 1];
      assert (a + b)[..|a + b| - 1] == a + init;
      assert (a + b)[|a + b| - 1] == b[|b| - 1];
      AppendUnseenAppend(acc, a, init);
    }
  }

  /** Reference definition of the merge, read from the front: a concept is
      kept when its uri is neither in `seen` nor on an earlier element. */
  function DedupFrom(xs: seq<Concept>, seen: set<string>): (r: seq<Concept>)
  {
    if |xs| == 0 then []
    else if xs[0].uri in seen then DedupFrom(xs[1..], seen)
    else [xs[0]] + DedupFrom(xs[1..], seen + {xs[0].uri})
  }

  lemma {:induction false} DedupFromUris(xs: seq<Concept>, seen: set<string>)
    ensures seen + UriSet(DedupFrom(xs, seen)) == seen + UriSet(xs)
  {
    if |xs| > 0 {
      assert xs == [xs[0]] + xs[1..];
      UriSetAppend([xs[0]], xs[1..]);
      assert UriSet([xs[0]]) == {xs[0].uri};
      if xs[0].uri in seen {
        DedupFromUris(xs[1..], seen);
      } else {
        DedupFromUris(xs[1..], seen + {xs[0].uri});
        UriSetAppend([xs[0]], DedupFrom(xs[1..], seen + {xs[0].uri}));
      }
    }
  }

  lemma {:induction false} DedupFromSnoc(xs: seq<Concept>, c: Concept, seen: set<string>)
    ensures DedupFrom(xs + [c], seen)
         == DedupFrom(xs, seen) + (if c.uri in seen + UriSet(xs) then [] else [c])
  {
    if |xs| == 0 {
      assert xs + [c] == [c];
      assert UriSet(xs) == {};
    } else {
      assert (xs + [c])[1..] == xs[1..] + [c];
      assert xs == [xs[0]] + xs[1..];
      UriSetAppend([xs[0]], xs[1..]);
      assert UriSet([xs[0]]) == {xs[0].uri};
      if xs[0].uri in seen {
        DedupFromSnoc(xs[1..], c, seen);
      } else {
        DedupFromSnoc(xs[1..], c, seen + {xs[0].uri});
      }
    }
  }

  /** The merge loop agrees with the reference definition: the old list is
      kept as it is, followed by the first occurrence of each new uri. */
  lemma {:induction false} AppendUnseenIsDedup(acc: seq<Concept>, xs: seq<Concept>)
    ensures AppendUnseen(acc, xs) == acc + DedupFrom(xs, UriSet(acc))
    decreases |xs|
  {
    if |xs| == 0 {
    } else {
      var init := xs[..|xs| - 1];
      var c := xs[|xs| - 1];
      assert xs == init + [c];
      AppendUnseenIsDedup(acc, init);
      DedupFromSnoc(init, c, UriSet(acc));
      DedupFromUris(init, UriSet(acc));
      UriSetAppend(acc, DedupFrom(init, UriSet(acc)));
    }
  }

  /** `xs[j]` is the first element of `xs` with its uri. */
  predicate FirstWithUri(xs: seq<Concept>, j: int)
    requires 0 <= j < |xs|
  {
    forall j' :: 0 <= j' < j ==> xs[j'].uri != xs[j].uri
  }

  /** `a` is `b` with some elements left out. */
  predicate IsSubsequence<T(==)>(a: seq<T>, b: seq<T>)
    decreases |b|
  {
    |a| == 0 || (|b| > 0 && if a[0] == b[0] then IsSubsequence(a[1..], b[1..]) else IsSubsequence(a, b[1..]))
  }

  /** First occurrence wins: every kept concept is the first element of the
      stream with its uri, its uri was not seen before, and the kept concepts
      stay in stream order. */
  lemma {:induction false} DedupFromFirstWins(xs: seq<Concept>, seen: set<string>)
    ensures forall c :: c in DedupFrom(xs, seen) ==>
              c.uri !in seen && exists j :: 0 <= j < |xs| && xs[j] == c && FirstWithUri(xs, j)
    ensures IsSubsequence(DedupFrom(xs, seen), xs)
  {
    if |xs| > 0 {
      var x := xs[0];
      var seen' := if x.uri in seen then seen else seen + {x.uri};
      DedupFromFirstWins(xs[1..], seen');
      var rest := DedupFrom(xs[1..], seen');
      forall c | c in rest
        ensures c.uri !in seen && exists j :: 0 <= j < |xs| && xs[j] == c && FirstWithUri(xs, j)
      {
        var j :| 0 <= j < |xs[1..]| && xs[1..][j] == c && FirstWithUri(xs[1..], j);
        assert c.uri != x.uri;
        assert xs[j + 1] == c;
        assert FirstWithUri(xs, j + 1) by {
          forall j' | 0 <= j' < j + 1 ensures xs[j'].uri != xs[j + 1].uri {
            if j' > 0 {
              assert xs[j'] == xs[1..][j' - 1];
            }
          }
        }
      }
      if x.uri !in seen {
        assert FirstWithUri(xs, 0);
        assert DedupFrom(xs, seen) == [x] + rest;
        assert ([x] + rest)[1..] == rest;
      }
    }
  }

  /** A keyword's direct matches: `LIMIT k`. */
  function DirectMatches(g: Gateway, keyword: string, k: nat): (r: seq<Concept>)
  {
    Take(g.matchLabel(keyword), k)
  }

  /** The 1-hop neighbours of a keyword's direct matches: `LIMIT k`. */
  function RelatedOf(g: Gateway, direct: seq<Concept>, k: nat): (r: seq<Concept>)
  {
    Take(g.relatedOneHop(Uris(direct)), k)
  }

  /** What one keyword contributes to the stream, before deduplication: its
      direct matches, then their neighbours if there were any matches. */
  function KeywordCandidates(g: Gateway, keyword: string, k: nat): (r: seq<Concept>)
  {
    var direct := DirectMatches(g, keyword, k);
    direct + (if |direct| > 0 then RelatedOf(g, direct, k) else [])
  }

  /** The candidate stream of all keywords, keyword by keyword. */
  function Stream(g: Gateway, keywords: seq<string>, k: nat): (r: seq<Concept>)
    decreases |keywords|
  {
    if |keywords| == 0 then []
    else Stream(g, keywords[..|keywords| - 1], k) + KeywordCandidates(g, keywords[|keywords| - 1], k)
  }

  /** `all_concepts` after the keyword loop. */
  function Gather(g: Gateway, keywords: seq<string>, k: nat): (r: seq<Concept>)
    ensures DistinctUris(r)
    ensures UriSet(r) == UriSet(Stream(g, keywords, k))
    decreases |keywords|
  {
    if |keywords| == 0 then []
    else
      var init := keywords[..|keywords| - 1];
      var cands := KeywordCandidates(g, keywords[|keywords| - 1], k);
      UriSetAppend(Stream(g, init, k), cands);
      AppendUnseenContents(Gather(g, init, k), cands);
      AppendUnseen(Gather(g, init, k), cands)
  }

  /** The gathered list is the candidate stream with each uri's first
      occurrence kept, in stream order. */
  lemma {:induction false} GatherIsDedupOfStream(g: Gateway, keywords: seq<string>, k: nat)
    ensures Gather(g, keywords, k) == DedupFrom(Stream(g, keywords, k), {})
    decreases |keywords|
  {
    if |keywords| > 0 {
      var init := keywords[..|keywords| - 1];
      var cands := KeywordCandidates(g, keywords[|keywords| - 1], k);
      GatherIsDedupOfStream(g, init, k);
      AppendUnseenIsDedup([], Stream(g, init, k));
      assert UriSet([]) == {};
      assert [] + DedupFrom(Stream(g, init, k), {}) == DedupFrom(Stream(g, init, k), {});
      AppendUnseenAppend([], Stream(g, init, k), cands);
      AppendUnseenIsDedup([], Stream(g, keywords, k));
    }
  }

  /** The keyword-query calls of one keyword. */
  function KeywordCalls(g: Gateway, keyword: string, k: nat): (r: seq<Call>)
  {
    var direct := DirectMatches(g, keyword, k);
    [MatchCall(keyword, k)] + (if |direct| > 0 then [RelatedCall(Uris(direct), k)] else [])
  }

  /** The graph calls of the keyword loop, in order. */
  function GatherCalls(g: Gateway, keywords: seq<string>, k: nat): (r: seq<Call>)
    decreases |keywords|
  {
    if |keywords| == 0 then []
    else GatherCalls(g, keywords[..|keywords| - 1], k) + KeywordCalls(g, keywords[|keywords| - 1], k)
  }

  /** Every 1-hop call comes right after a label call that found concepts,
      and is over exactly the uris it found. */
  predicate RelatedAfterMatch(g: Gateway, calls: seq<Call>, k: nat)
  {
    forall i :: 0 <= i < |calls| && calls[i].RelatedCall? ==>
      i > 0 && calls[i - 1].MatchCall?
      && calls[i].uris == Uris(DirectMatches(g, calls[i - 1].keyword, k))
      && |calls[i].uris| > 0
  }

  /** The 1-hop query is issued only for a keyword whose label query
      returned at least one concept. */
  lemma {:induction false} RelatedCallFollowsMatch(g: Gateway, keywords: seq<string>, k: nat)
    ensures RelatedAfterMatch(g, GatherCalls(g, keywords, k), k)
    decreases |keywords|
  {
    if |keywords| > 0 {
      var init := keywords[..|keywords| - 1];
      var keyword := keywords[|keywords| - 1];
      RelatedCallFollowsMatch(g, init, k);
      var before := GatherCalls(g, init, k);
      var last := KeywordCalls(g, keyword, k);
      var calls := before + last;
      assert calls == GatherCalls(g, keywords, k);
      forall i | 0 <= i < |calls| && calls[i].RelatedCall?
        ensures i > 0 && calls[i - 1].MatchCall?
                && calls[i].uris == Uris(DirectMatches(g, calls[i - 1].keyword, k))
                && |calls[i].uris| > 0
      {
        if i < |before| {
          assert calls[i] == before[i] && calls[i - 1] == before[i - 1];
        } else {
          var direct := DirectMatches(g, keyword, k);
          assert last[0] == MatchCall(keyword, k);
          assert i == |before| + 1 && |direct| > 0;
          assert calls[i - 1] == last[0] && calls[i] == last[1];
        }
      }
    }
  }

  /** Similarity of a candidate's label to the query embedding. */
  function Score(e: Embedder, queryEmb: seq<real>, c: Concept): real
  {
    CosineSimilarity(queryEmb, e.embed(c.name), e.ratio)
  }

  /** `concept_scores` after the scoring loop. */
  function ScoreAll(e: Embedder, queryEmb: seq<real>, cs: seq<Concept>): (r: seq<Scored<Concept>>)
    ensures |r| == |cs|
    ensures forall i :: 0 <= i < |cs| ==> r[i] == (cs[i], Score(e, queryEmb, cs[i]))
    decreases |cs|
  {
    if |cs| == 0 then []
    else
      var c := cs[|cs| - 1];
      ScoreAll(e, queryEmb, cs[..|cs| - 1]) + [(c, Score(e, queryEmb, c))]
  }

  /** `[c for c, _ in pairs]` */
  function Firsts(ps: seq<Scored<Concept>>): (r: seq<Concept>)
    ensures |r| == |ps|
    ensures forall i :: 0 <= i < |ps| ==> r[i] == ps[i].0
  {
    Map(ps, (p: Scored<Concept>) => p.0)
  }

  predicate DistinctFirsts(ps: seq<Scored<Concept>>)
  {
    forall i, j :: 0 <= i < j < |ps| ==> ps[i].0.uri != ps[j].0.uri
  }

  lemma {:induction false} InsertDescDistinct(x: Scored<Concept>, s: seq<Scored<Concept>>)
    requires DistinctFirsts(s)
    requires forall i :: 0 <= i < |s| ==> s[i].0.uri != x.0.uri
    ensures DistinctFirsts(InsertDesc(x, s))
    ensures multiset(InsertDesc(x, s)) == multiset([x]) + multiset(s)
  {
    InsertDescPerm(x, s);
    if |s| > 0 && x.1 < s[0].1 {
      InsertDescDistinct(x, s[1..]);
      var r := InsertDesc(x, s[1..]);
      forall i | 0 <= i < |r| ensures r[i].0.uri != s[0].0.uri {
        assert r[i] in multiset(r);
        if r[i] != x {
          assert r[i] in multiset(s[1..]);
          var j :| 0 <= j < |s[1..]| && s[1..][j] == r[i];
          assert s[j + 1] == r[i];
        }
      }
    }
  }

  lemma {:induction false} SortDescDistinct(s: seq<Scored<Concept>>)
    requires DistinctFirsts(s)
    ensures DistinctFirsts(SortDesc(s))
  {
    if |s| > 0 {
      SortDescDistinct(s[1..]);
      SortDescPerm(s[1..]);
      var t := SortDesc(s[1..]);
      forall i | 0 <= i < |t| ensures t[i].0.uri != s[0].0.uri {
        assert t[i] in multiset(s[1..]);
        var j :| 0 <= j < |s[1..]| && s[1..][j] == t[i];
        assert s[j + 1] == t[i];
      }
      InsertDescDistinct(s[0], t);
    }
  }

  /** The first `n` pairs of the sorted scores come from `cands`, and keep
      uris distinct when `cands` does. */
  lemma SortedTop(e: Embedder, queryEmb: seq<real>, cands: seq<Concept>, n: nat)
    ensures forall i :: 0 <= i < |Take(SortDesc(ScoreAll(e, queryEmb, cands)), n)| ==>
              Take(SortDesc(ScoreAll(e, queryEmb, cands)), n)[i].0 in cands
    ensures DistinctUris(cands) ==> DistinctFirsts(Take(SortDesc(ScoreAll(e, queryEmb, cands)), n))
  {
    var sorted := SortDesc(ScoreAll(e, queryEmb, cands));
    SortDescPerm(ScoreAll(e, queryEmb, cands));
    var top := Take(sorted, n);
    forall i | 0 <= i < |top| ensures top[i].0 in cands {
      assert top[i] == sorted[i];
      assert sorted[i] in multiset(ScoreAll(e, queryEmb, cands));
    }
    if DistinctUris(cands) {
      SortDescDistinct(ScoreAll(e, queryEmb, cands));
    }
  }

  /** The re-ranked list: the candidates by descending similarity, cut to `2k`. */
  function Rerank(e: Embedder, queryEmb: seq<real>, cands: seq<Concept>, k: nat): (r: seq<Concept>)
    ensures |r| <= 2 * k
    ensures forall c :: c in r ==> c in cands
    ensures DistinctUris(cands) ==> DistinctUris(r)
  {
    var top := Take(SortDesc(ScoreAll(e, queryEmb, cands)), 2 * k);
    SortedTop(e, queryEmb, cands, 2 * k);
    Firsts(top)
  }

  /** Re-ranking and truncation after the keyword loop. */
  function Finish(e: Embedder, query: string, cands: seq<Concept>, k: nat): (r: seq<Concept>)
    ensures |r| <= 2 * k
    ensures forall c :: c in r ==> c in cands
    ensures DistinctUris(cands) ==> DistinctUris(r)
    ensures |cands| <= 2 * k ==> r == cands
    ensures |cands| > 2 * k && |e.embed(query)| == 0 ==> r == cands[..2 * k]
  {
    if |cands| > 2 * k then
      var queryEmb := e.embed(query);
      if |queryEmb| > 0 then Take(Rerank(e, queryEmb, cands, k), 2 * k)
      else Take(cands, 2 * k)
    else Take(cands, 2 * k)
  }

  /** When re-ranking happens, the result is ordered by descending similarity
      and no candidate left out scores higher than one kept. */
  lemma RerankKeepsBest(e: Embedder, query: string, cands: seq<Concept>, k: nat)
    requires |cands| > 2 * k && |e.embed(query)| > 0
    ensures var q := e.embed(query);
            var r := Finish(e, query, cands, k);
            (forall i, j :: 0 <= i < j < |r| ==> Score(e, q, r[i]) >= Score(e, q, r[j]))
            && (forall c, d :: c in r && d in cands && d !in r ==> Score(e, q, d) <= Score(e, q, c))
  {
    var q := e.embed(query);
    var sorted := SortDesc(ScoreAll(e, q, cands));
    FinishIsTop(e, query, cands, k);
    SortDescSorted(ScoreAll(e, q, cands));
    SortedScores(e, q, cands);
    TopIsBest(e, q, sorted, cands, 2 * k);
  }

  /** With re-ranking, the result is the concepts of the first `2k` sorted pairs. */
  lemma FinishIsTop(e: Embedder, query: string, cands: seq<Concept>, k: nat)
    requires |cands| > 2 * k && |e.embed(query)| > 0
    ensures Finish(e, query, cands, k) == Firsts(SortDesc(ScoreAll(e, e.embed(query), cands))[..2 * k])
  {
    var top := Take(SortDesc(ScoreAll(e, e.embed(query), cands)), 2 * k);
    assert Rerank(e, e.embed(query), cands, k) == Firsts(top);
    assert Take(Firsts(top), 2 * k) == Firsts(top);
  }

  /** The concepts of the first `n` pairs of a list sorted by descending
      score are in score order, and none of the other candidates scores
      higher than any of them. */
  lemma TopIsBest(e: Embedder, q: seq<real>, sorted: seq<Scored<Concept>>, cands: seq<Concept>, n: nat)
    requires n <= |sorted| && SortedDesc(sorted)
    requires forall i :: 0 <= i < |sorted| ==> sorted[i].1 == Score(e, q, sorted[i].0)
    requires forall d :: d in cands ==> exists j :: 0 <= j < |sorted| && sorted[j].0 == d
    ensures var r := Firsts(sorted[..n]);
            (forall i, j :: 0 <= i < j < |r| ==> Score(e, q, r[i]) >= Score(e, q, r[j]))
            && (forall c, d :: c in r && d in cands && d !in r ==> Score(e, q, d) <= Score(e, q, c))
  {
    var r := Firsts(sorted[..n]);
    forall c, d | c in r && d in cands && d !in r ensures Score(e, q, d) <= Score(e, q, c) {
      var i :| 0 <= i < |r| && r[i] == c;
      var j :| 0 <= j < |sorted| && sorted[j].0 == d;
      assert j >= n;
      assert sorted[i].1 >= sorted[j].1;
    }
  }

  /** Each sorted pair carries its concept's score, and every candidate
      has a pair. */
  lemma SortedScores(e: Embedder, q: seq<real>, cands: seq<Concept>)
    ensures var sorted := SortDesc(ScoreAll(e, q, cands));
            (forall i :: 0 <= i < |sorted| ==> sorted[i].1 == Score(e, q, sorted[i].0))
            && (forall d :: d in cands ==> exists j :: 0 <= j < |sorted| && sorted[j].0 == d)
  {
    var scored := ScoreAll(e, q, cands);
    var sorted := SortDesc(scored);
    SortDescPerm(scored);
    forall i | 0 <= i < |sorted| ensures sorted[i].1 == Score(e, q, sorted[i].0) {
      assert sorted[i] in multiset(scored);
    }
    forall d | d in cands ensures exists j :: 0 <= j < |sorted| && sorted[j].0 == d {
      var jd :| 0 <= jd < |cands| && cands[jd] == d;
      assert scored[jd] in multiset(sorted);
      var j :| 0 <= j < |sorted| && sorted[j] == scored[jd];
      assert sorted[j].0 == d;
    }
  }

  /** The embedding calls of the re-ranking step: one per candidate label. */
  function LabelCalls(cs: seq<Concept>): (r: seq<Call>)
    ensures |r| == |cs|
    decreases |cs|
  {
    if |cs| == 0 then [] else LabelCalls(cs[..|cs| - 1]) + [EmbedCall(cs[|cs| - 1].name)]
  }

  /** The embedding calls after the keyword loop: none unless there are more
      than `2k` candidates; then the query, and the labels only if the
      query's embedding is non-empty. */
  function FinishCalls(e: Embedder, query: string, cands: seq<Concept>, k: nat): (r: seq<Call>)
    ensures |r| == if |cands| <= 2 * k then 0
                   else if |e.embed(query)| == 0 then 1
                   else 1 + |cands|
    ensures |r| > 0 ==> r[0] == EmbedCall(query)
  {
    if |cands| > 2 * k then
      [EmbedCall(query)] + (if |e.embed(query)| > 0 then LabelCalls(cands) else [])
    else []
  }

  /** Appends the concepts of `xs` whose uri is not in `seen`, updating `seen`. */
  method MergeUnseen(all: seq<Concept>, seen: set<string>, xs: seq<Concept>)
    returns (all': seq<Concept>, seen': set<string>)
    requires seen == UriSet(all)
    ensures all' == AppendUnseen(all, xs)
    ensures seen' == UriSet(all')
  {
    all', seen' := all, seen;
    for j := 0 to |xs|
      invariant all' == AppendUnseen(all, xs[..j])
      invariant seen' == UriSet(all')
    {
      var c := xs[j];
      assert xs[..j + 1] == xs[..j] + [c];
      if c.uri !in seen' {
        UriSetAppend(all', [c]);
        assert UriSet([c]) == {c.uri};
        all' := all' + [c];
        seen' := seen' + {c.uri};
      }
    }
    assert xs[..|xs|] == xs;
  }

  lemma GatherStep(g: Gateway, keywords: seq<string>, i: nat, k: nat)
    requires i < |keywords|
    ensures Gather(g, keywords[..i + 1], k)
         == AppendUnseen(Gather(g, keywords[..i], k), KeywordCandidates(g, keywords[i], k))
    ensures GatherCalls(g, keywords[..i + 1], k)
         == GatherCalls(g, keywords[..i], k) + KeywordCalls(g, keywords[i], k)
  {
    assert keywords[..i + 1][..i] == keywords[..i];
  }

  /** The keyword loop: the gathered candidates and the graph calls made. */
  method GatherCandidates(g: Gateway, keywords: seq<string>, k: nat)
    returns (all: seq<Concept>, calls: seq<Call>)
    ensures all == Gather(g, keywords, k)
    ensures calls == GatherCalls(g, keywords, k)
  {
    all := [];
    var seen: set<string> := {};
    calls := [];
    for i := 0 to |keywords|
      invariant all == Gather(g, keywords[..i], k)
      invariant seen == UriSet(all)
      invariant calls == GatherCalls(g, keywords[..i], k)
    {
      var keyword := keywords[i];
      ghost var cands := KeywordCandidates(g, keyword, k);
      ghost var before, callsBefore := all, calls;
      GatherStep(g, keywords, i, k);
      var direct := Take(g.matchLabel(keyword), k);
      calls := calls + [MatchCall(keyword, k)];
      all, seen := MergeUnseen(all, seen, direct);
      if |direct| > 0 {
        var uris := Uris(direct);
        var related := Take(g.relatedOneHop(uris), k);
        calls := calls + [RelatedCall(uris, k)];
        all, seen := MergeUnseen(all, seen, related);
        assert cands == direct + related;
        AppendUnseenAppend(before, direct, related);
      } else {
        assert cands == direct;
      }
    }
    assert keywords[..|keywords|] == keywords;
  }

  /** The scoring loop: one label embedding per candidate. */
  method ScoreCandidates(e: Embedder, queryEmb: seq<real>, all: seq<Concept>)
    returns (scores: seq<Scored<Concept>>, calls: seq<Call>)
    ensures scores == ScoreAll(e, queryEmb, all)
    ensures calls == LabelCalls(all)
  {
    scores, calls := [], [];
    for i := 0 to |all|
      invariant scores == ScoreAll(e, queryEmb, all[..i])
      invariant calls == LabelCalls(all[..i])
    {
      var c := all[i];
      assert all[..i + 1] == all[..i] + [c];
      var labelEmb := e.embed(c.name);
      calls := calls + [EmbedCall(c.name)];
      scores := scores + [(c, CosineSimilarity(queryEmb, labelEmb, e.ratio))];
    }
    assert all[..|all|] == all;
  }

  /** After the keyword loop: with more than `2k` candidates the question is
      embedded and, when that embedding is non-empty, every candidate is
      scored and the list stably sorted by descending score; the result is
      cut to `2k`. Returns it with the embedding calls made. */
  method RerankCandidates(e: Embedder, query: string, all: seq<Concept>, k: nat)
    returns (top: seq<Concept>, calls: seq<Call>)
    ensures top == Finish(e, query, all, k)
    ensures calls == FinishCalls(e, query, all, k)
  {
    top, calls := all, [];
    if |all| > 2 * k {
      var queryEmb := e.embed(query);
      calls := [EmbedCall(query)];
      if |queryEmb| > 0 {
        var scores, labelCalls := ScoreCandidates(e, queryEmb, all);
        calls := calls + labelCalls;
        var sorted := SortDesc(scores);
        top := Firsts(Take(sorted, 2 * k));
        FinishIsTop(e, query, all, k);
      }
    }
    top := Take(top, 2 * k);
  }

  /** `search_with_embedding(graph, query, k)`: `reply` is the keyword
      model's reply (`None` when that call failed). Returns the concepts, the
      keywords and the outbound calls made. */
  method SearchWithEmbedding(g: Gateway, e: Embedder, query: string, reply: Option<string>, k: nat)
    returns (concepts: seq<Concept>, keywords: seq<string>, calls: seq<Call>)
    ensures keywords == ExtractKeywords(query, reply)
    ensures concepts == Finish(e, query, Gather(g, keywords, k), k)
    ensures calls == GatherCalls(g, keywords, k) + FinishCalls(e, query, Gather(g, keywords, k), k)
  {
    keywords := ExtractKeywords(query, reply);
    var all, gatherCalls := GatherCandidates(g, keywords, k);
    var finishCalls;
    concepts, finishCalls := RerankCandidates(e, query, all, k);
    calls := gatherCalls + finishCalls;
  }

  /** A worked example: nothing matches the first keyword, the second
      matches `c9`, whose neighbour is `c10`: the candidates are `[c9, c10]`. */
  lemma SecondKeywordScenario(g: Gateway, c9: Concept, c10: Concept, k: nat)
    requires k >= 1 && c9.uri != c10.uri
    requires g.matchLabel("사랑") == [] && g.matchLabel("감정") == [c9]
    requires g.relatedOneHop([c9.uri]) == [c10]
    ensures Finish(Embedder((t: string) => [], (a: seq<real>, b: seq<real>) => 0.0), "사랑이란?",
                   Gather(g, ["사랑", "감정"], k), k) == [c9, c10]
  {
    var kws := ["사랑", "감정"];
    assert kws[..1] == ["사랑"] && kws[..1][..0] == [];
    assert DirectMatches(g, "사랑", k) == [];
    assert KeywordCandidates(g, "사랑", k) == [];
    assert Gather(g, ["사랑"], k) == [];
    assert DirectMatches(g, "감정", k) == [c9];
    assert Uris([c9]) == [c9.uri];
    assert KeywordCandidates(g, "감정", k) == [c9, c10];
    assert AppendUnseen([], [c9]) == [c9];
    assert [c9, c10][..1] == [c9];
    assert UriSet([c9]) == {c9.uri};
    assert AppendUnseen([], [c9, c10]) == [c9, c10];
  }
}
