# GraphRAG retrieval core, modelled in Dafny

GraphRAG answers Korean questions from a ConceptNet knowledge graph stored in
Neo4j. This project models the part of it that decides what the language
model gets to see, and proves properties of that model:

- **Keyword extraction and candidate search** (`api/embedding_search.py`).
  The generative model's comma-separated reply is parsed. When the call fails,
  the question is split on whitespace instead. For each keyword, its label
  matches and their 1-hop neighbours are merged into a candidate list without
  duplicate uris. A long list is re-ranked by cosine similarity to the
  question's embedding and then cut to `2k`.
- **Graph retrieval and prompt assembly** (`api/main.py`).
  `search_graph_improved` chooses concepts by search mode, then fetches
  relations, neighbours and the shortest path between the first two concepts.
  `build_enhanced_prompt` renders that context into the final prompt.
  `prompt_preview` is the 500-character preview.
- **The Redis cache** (`api/cache_manager.py`). Keys are `prefix:md5(data)`.
  Entries carry a TTL. Every operation is a no-op while the cache is disabled
  or unconnected, and every Redis error is swallowed.
- **Request statistics** (`api/monitoring.py`). Two windows keep the latest
  100 timings each. Three counters are kept. Hit rate, averages and a 95th
  percentile are derived from them.
- **The graph loader** (`indexer/build_graph.py`). It parses ConceptNet uris,
  filters the assertion lines down to those with a Korean end, and inserts
  rows in batches of 1000 with merge semantics.

The graph database, the embedding endpoint and the generative model are
parameters:
- `Graph.Gateway` holds the query results as functions of their arguments;
- `Search.Embedder` holds the embedding and numpy's dot-product ratio;
- the model's reply is an `Option<string>`, where `None` means the call raised.

Failures of Redis and Neo4j are boolean or index parameters of the
operations. Modules:

| module | models |
|---|---|
| `Seqs` | sequence helpers: take, filter, split/join, strip, concatenation |
| `Keywords`, `Similarity`, `Ranking`, `Search` | `api/embedding_search.py` |
| `Graph`, `Retrieval`, `Prompt` | `api/main.py` |
| `Cache` | `api/cache_manager.py` |
| `Monitoring` | `api/monitoring.py` |
| `ConceptNetUri`, `GraphBuild` | `indexer/build_graph.py` |

## Model

| member | source | states |
|---|---|---|
| Keywords.KeywordsFromReply | api/embedding_search.py:61-67 | at most five keywords; each is longer than one character, comma-free and already stripped |
| Keywords.ReplyPieces | api/embedding_search.py:61-67 | for any comma-free pieces joined by commas, the keywords are the pieces stripped of surrounding whitespace, those of at most one character dropped, the first five kept in reply order |
| Keywords.ReplyRoundTrip | api/embedding_search.py:61-67 | a reply listing stripped, comma-free keywords separated by commas yields exactly those keywords, in order, cut to five |
| Keywords.FallbackKeywords | api/embedding_search.py:68-71 | at most three keywords, each a whitespace-free word longer than one character and a word of the question |
| Keywords.FallbackRoundTrip | api/embedding_search.py:71 | a question made of space-separated words falls back to its words longer than one character, in order, the first three of them |
| Keywords.ExtractKeywords | api/embedding_search.py:44-71 | with a reply, the keywords are exactly those parsed from the reply; on a failed call, exactly the fallback keywords of the question; at most five, all longer than one character |
| Similarity.CosineSimilarity | api/embedding_search.py:28-42 | zero when either vector is empty or has zero norm; whenever both vectors are non-empty with non-zero norm, exactly the dot-product ratio |
| Ranking.SortDescSorted | api/embedding_search.py:136 | the re-ranked list is ordered by descending score |
| Ranking.SortDescPerm | api/embedding_search.py:136 | the re-ranked list is a permutation of the scored list |
| Ranking.SortDescStable | api/embedding_search.py:136 | pairs with equal scores keep their original order, as Python's stable sort does with `reverse=True` |
| Search.AppendUnseen | api/embedding_search.py:104-107 | merging keeps the list free of duplicate uris and starts with the old list |
| Search.AppendUnseenContents | api/embedding_search.py:104-107 | after merging, the uri set is the old set plus the uris of the merged concepts |
| Search.AppendUnseenIsDedup | api/embedding_search.py:90-122 | merging a stream into an empty list keeps the first occurrence of each uri, in stream order |
| Search.DedupFromFirstWins | api/embedding_search.py:104-107 | each kept concept is the first element of the stream with its uri and was not seen before; kept concepts stay in stream order |
| Search.Gather | api/embedding_search.py:90-122 | the gathered candidates have distinct uris, and their uris are exactly those of the candidate stream |
| Search.GatherIsDedupOfStream | api/embedding_search.py:93-122 | the gathered list equals the candidate stream (per keyword, direct matches then neighbours) with each uri's first occurrence kept |
| Search.RelatedCallFollowsMatch | api/embedding_search.py:109-117 | every 1-hop query comes right after a label query that found concepts, and asks about exactly their uris |
| Search.Rerank | api/embedding_search.py:126-137 | the re-ranked list has at most `2k` concepts, all of them candidates, and keeps uris distinct |
| Search.Finish | api/embedding_search.py:124-139 | the result has at most `2k` concepts, all of them candidates, with distinct uris kept distinct; up to `2k` candidates come back unchanged, and with an empty query embedding the first `2k` come back in gathering order |
| Search.RerankKeepsBest | api/embedding_search.py:126-137 | after re-ranking, the result is ordered by similarity, and no candidate left out scores above a kept one |
| Search.FinishCalls | api/embedding_search.py:126-131 | no embedding call unless there are more than `2k` candidates; then the question first, and one call per candidate only if the question's embedding is non-empty |
| Search.MergeUnseen | api/embedding_search.py:104-107 | the merge loop computes `AppendUnseen` and keeps the seen set equal to the list's uris |
| Search.GatherCandidates | api/embedding_search.py:90-122 | the keyword loop yields `Gather` and issues exactly the graph calls `GatherCalls` |
| Search.ScoreCandidates | api/embedding_search.py:129-133 | the scoring loop pairs each candidate with its similarity to the query, in order |
| Search.RerankCandidates | api/embedding_search.py:124-139 | the step after the keyword loop returns `Finish` of the candidates and makes exactly the embedding calls `FinishCalls` |
| Search.SearchWithEmbedding | api/embedding_search.py:73-139 | returns the extracted keywords and `Finish` of the gathered candidates, and makes the gathering calls followed by the embedding calls |
| Search.SecondKeywordScenario | api/embedding_search.py:93-122 | when the first keyword matches nothing and the second matches one concept with one neighbour, the candidates are that concept and then its neighbour |
| Retrieval.FirstPairPath | api/main.py:171-187 | at most one path; one exactly when there are at least two concepts and the first two are connected |
| Retrieval.Assemble | api/main.py:139-196 | no concepts gives the early return without paths; otherwise relations are the first `10k` touching the concepts, neighbours the first `5k` when included (else none), and the path of the first pair |
| Retrieval.Retrieve | api/main.py:117-196 | simple mode has no keywords and takes the first `k` label matches; the other modes use the extracted keywords; the bounds on concepts, relations, neighbours and paths hold |
| Retrieval.NonSimpleModesAgree | api/main.py:131-137 | `"embedding"`, `"hybrid"` and any other mode but `"simple"` retrieve the same context, apart from the echoed mode |
| Retrieval.AssembleResult | api/main.py:139-196 | the early return, the relation and neighbour queries and the path loop over the first pair compute `Assemble` |
| Retrieval.SearchGraphImproved | api/main.py:100-196 | the retrieval, with the concepts chosen by mode, computes `Retrieve` |
| Prompt.DecimalString | api/main.py:210-211 | a list number is a non-empty run of digits without a leading zero |
| Prompt.DecimalRoundTrip | api/main.py:210-211 | reading back a list number gives the number |
| Prompt.ConceptListed | api/main.py:206-213 | each of the first eight concepts appears in the concept section as its numbered line |
| Prompt.RelationListed | api/main.py:215-222 | each of the first ten relations appears in the relation section as its line |
| Prompt.PathString | api/main.py:229-235 | a path renders exactly when it has a node; the rendering starts with the first node |
| Prompt.HopListed | api/main.py:231-234 | each relation that has a following node appears as one hop to that node |
| Prompt.ExtraRelationsIgnored | api/main.py:232-234 | relations beyond the last node change nothing in the rendered path |
| Prompt.PathLines | api/main.py:228-235 | the path lines fail exactly when some path has no node |
| Prompt.PathsText | api/main.py:224-235 | the path section fails exactly when some path has no node |
| Prompt.EnhancedPrompt | api/main.py:198-276 | the prompt fails exactly when a path of the context has no node label |
| Prompt.OnlyLeadingItemsShown | api/main.py:206-241 | concepts past the eighth and relations and neighbours past the tenth do not change the prompt |
| Prompt.QuestionInPrompt | api/main.py:249-274 | the prompt starts with the system instruction, then the question header and the question |
| Prompt.PromptPreview | api/main.py:322 | the preview has at most 503 characters; a prompt of at most 500 characters is unchanged; a longer one keeps its first 500 characters and gains the ellipsis |
| Prompt.PreviewIdempotent | api/main.py:322 | previewing a preview changes nothing |
| Prompt.RenderPath | api/main.py:228-235 | the hop loop computes `PathString` |
| Prompt.RenderPaths | api/main.py:224-235 | the path loop computes `PathsText` |
| Prompt.RenderConcepts | api/main.py:206-213 | the concept loop computes `ConceptsText` |
| Prompt.RenderRelations | api/main.py:215-222 | the relation loop computes `RelationsText` |
| Prompt.BuildEnhancedPrompt | api/main.py:198-276 | the prompt builder computes `EnhancedPrompt` |
| Cache.MakeKey | api/cache_manager.py:41-44 | the key is the prefix, a colon and the digest of the data |
| Cache.MakeKeyInjective | api/cache_manager.py:41-44 | with equal-length digests, equal keys mean equal prefixes and equal digests |
| Cache.OtherPrefixUntouched | api/cache_manager.py:97-99 | for colon-free prefixes, a key made under one prefix never matches another prefix's pattern |
| Cache.Lookup | api/cache_manager.py:53 | a stored value is found exactly while its entry has not expired |
| Cache.Cached | api/cache_manager.py:51-57 | a hit is a live, non-empty stored value; an empty value reads as a miss |
| Cache.AfterSet | api/cache_manager.py:73-76 | a positive TTL stores the value until now plus the TTL; a non-positive TTL is refused and changes nothing; other keys are unchanged |
| Cache.AfterDelete | api/cache_manager.py:85-87 | the key is gone; other keys are unchanged |
| Cache.MatchingKeys | api/cache_manager.py:97-98 | exactly the stored keys matching `prefix:*` |
| Cache.WithoutPrefix | api/cache_manager.py:96-99 | exactly the stored keys not matching `prefix:*` remain, with their entries |
| Cache.SetThenGet | api/cache_manager.py:46-76 | a non-empty value set with a positive TTL is read back until it expires, and is a miss afterwards |
| Cache.OtherKeysUnchanged | api/cache_manager.py:62-89 | setting or deleting one key leaves every other key's reads unchanged |
| Cache.RemovedKeyMisses | api/cache_manager.py:80-101 | a deleted key misses; a cleared prefix misses and the other keys read as before |
| Cache.CacheTtl | api/cache_manager.py:107-112 | TTLs exist exactly for the four kinds, and each is positive |
| Cache.CacheTtlOrder | api/cache_manager.py:107-112 | statistics expire first; embeddings live 24 times as long as search results |
| Cache.CacheManager.constructor | api/cache_manager.py:18-21 | starts enabled as the Redis import allows, without a client |
| Cache.CacheManager.Connect | api/cache_manager.py:23-34 | a disabled cache stays as it is; otherwise the cache stays enabled exactly when the ping succeeds |
| Cache.CacheManager.Get | api/cache_manager.py:46-60 | inactive or failing: a miss; otherwise the cached value under the key |
| Cache.CacheManager.Set | api/cache_manager.py:62-78 | active and not failing: the store is `AfterSet`; otherwise unchanged |
| Cache.CacheManager.Delete | api/cache_manager.py:80-89 | active and not failing: the key is removed; otherwise unchanged |
| Cache.CacheManager.ClearPrefix | api/cache_manager.py:91-101 | only matching keys disappear, others keep their entries; a run without failure leaves `WithoutPrefix` |
| Monitoring.Push | api/monitoring.py:103-107 | appends the sample and drops the oldest when the window would exceed 100 |
| Monitoring.PushLastN | api/monitoring.py:103-113 | a window is always the last 100 samples recorded |
| Monitoring.RecordAllKeepsLatest | api/monitoring.py:103-113 | recording any number of samples leaves the last 100 of all samples ever recorded |
| Monitoring.HitRate | api/monitoring.py:134-139 | zero without lookups; otherwise hits over lookups, in [0, 1], and 1 exactly when there were hits and no misses |
| Monitoring.AverageMs | api/monitoring.py:140-147 | zero for an empty window; otherwise the sum over the count, in milliseconds |
| Monitoring.InsertAscPerm | api/monitoring.py:149 | inserting into the sorted samples adds the sample and nothing else |
| Monitoring.SortAscFacts | api/monitoring.py:149 | `sorted()` gives an ascending permutation of the samples |
| Monitoring.P95Index | api/monitoring.py:149 | the index `int(n * 0.95)` is within the window |
| Monitoring.P95IsPercentile | api/monitoring.py:148-155 | zero up to 20 samples; above that, one of the samples in milliseconds, at least the samples ranked below it and at most those above |
| Monitoring.PerformanceTracker.constructor | api/monitoring.py:94-101 | empty windows and zero counters |
| Monitoring.PerformanceTracker.RecordSearchTime | api/monitoring.py:103-107 | the search window becomes `Push` of the sample and stays within 100 |
| Monitoring.PerformanceTracker.RecordLlmTime | api/monitoring.py:109-113 | the model window becomes `Push` of the sample and stays within 100 |
| Monitoring.PerformanceTracker.RecordRequest | api/monitoring.py:115-117 | the request counter grows by one |
| Monitoring.PerformanceTracker.RecordCacheHit | api/monitoring.py:119-121 | the hit counter grows by one |
| Monitoring.PerformanceTracker.RecordCacheMiss | api/monitoring.py:123-125 | the miss counter grows by one |
| Monitoring.PerformanceTracker.GetStats | api/monitoring.py:127-156 | reports the request count and a hit rate in [0, 1]; averages are zero for empty windows and percentiles zero up to 20 samples |
| ConceptNetUri.HexDigit | indexer/build_graph.py:70 | a hex digit reads back as its value |
| ConceptNetUri.PercentDecode | indexer/build_graph.py:70 | decoding never lengthens the text |
| ConceptNetUri.DecodeWithoutPercent | indexer/build_graph.py:70 | text without `%` decodes to itself |
| ConceptNetUri.PercentEncode | indexer/build_graph.py:70 | each byte becomes `%` and two hex digits |
| ConceptNetUri.DecodeEncode | indexer/build_graph.py:70 | decoding undoes percent-encoding |
| ConceptNetUri.ParseConceptNetUri | indexer/build_graph.py:65-72 | a language is found exactly when a label is, and it holds no slash |
| ConceptNetUri.NoSlashInEncoding | indexer/build_graph.py:70 | percent-encoding produces no slash, so an encoded label stays one segment |
| ConceptNetUri.ParseRoundTrip | indexer/build_graph.py:65-72 | `/c/<lang>/<encoded label>/...` parses to that language and the decoded label |
| ConceptNetUri.ParseWithoutLabel | indexer/build_graph.py:70 | `/c/<lang>` parses to that language and the empty label |
| ConceptNetUri.ParseKoreanExample | indexer/build_graph.py:65-66 | `/c/ko/개` parses to language `ko` and label `개` |
| ConceptNetUri.ParseNonConcept | indexer/build_graph.py:68-72 | a uri whose second segment is not `c` yields no language and no label |
| ConceptNetUri.RelationType | indexer/build_graph.py:107 | the type holds no slash; a slash-free uri is its own type |
| ConceptNetUri.RelationTypeIsLastSegment | indexer/build_graph.py:107 | the type is the last `/`-separated segment |
| ConceptNetUri.RelationTypeOfPath | indexer/build_graph.py:107 | a uri ending in `/<name>`, such as `/r/RelatedTo`, has the type `<name>` |
| GraphBuild.ParseLine | indexer/build_graph.py:86-118 | fewer than four fields give no row; a row exists exactly when an end is Korean, and it carries the start and end uris and the relation type |
| GraphBuild.FieldsOfJoin | indexer/build_graph.py:86 | tab-joined fields without tabs and with non-blank ends split back into the same fields |
| GraphBuild.KeptRowsAreKorean | indexer/build_graph.py:99-104 | every row kept from the file has a Korean end, and there are no more rows than lines |
| GraphBuild.ApplyRowsAppend | indexer/build_graph.py:120-135 | inserting rows in two batches has the same effect as inserting them at once, so batching does not change the graph |
| GraphBuild.NodesFirstWriteWins | indexer/build_graph.py:145-148 | a concept exists exactly when it did before or some row mentions it; a new concept takes the label and language of the first row that mentions it |
| GraphBuild.EdgeWeightsAccumulate | indexer/build_graph.py:149-151 | a relation exists exactly when it did before or some row names it; its weight is the old weight plus the weights of all rows naming it |
| GraphBuild.NoNamesNoWeight | indexer/build_graph.py:149-151 | rows that do not name a relation add no weight to it |
| GraphBuild.GraphStore.InsertBatch | indexer/build_graph.py:141-153 | a successful insert applies the batch; a failed one changes nothing |
| GraphBuild.AddRow | indexer/build_graph.py:109-130 | appending a row, then inserting a full batch, adds exactly that row to the inserted rows followed by the pending batch; the graph stays the old graph with the inserted rows applied; an insert is attempted exactly when the batch reaches 1000; the skip count grows by one exactly when that insert fails, the batch is then kept, and at most ten skips are reported |
| GraphBuild.CountedCommit | indexer/build_graph.py:121-124 | a successful insert of a full batch adds its size to the loaded total and to the insert sizes, and keeps every insert exactly 1000 rows while none has failed |
| GraphBuild.CountedSkip | indexer/build_graph.py:126-129 | a failed insert adds one skip, reported only while at most ten skips have been counted, and leaves the loaded total unchanged |
| GraphBuild.AddLine | indexer/build_graph.py:84-130 | after one more line, the inserted rows followed by the pending batch are the rows of the lines read so far, and the counters and the graph still agree with the inserted rows |
| GraphBuild.FlushLast | indexer/build_graph.py:132-135 | the final flush inserts the pending batch unless that insert fails; the graph then holds a prefix of the rows, and all of them on success; without a failure every batch but the last has exactly 1000 rows |
| GraphBuild.LoadLines | indexer/build_graph.py:84-130 | after the last line the loop state holds: the inserted rows and the pending batch are the file's rows, the graph has the inserted rows applied, the skips are exactly the failed inserts, and without failures every insert has exactly 1000 rows |
| GraphBuild.LoadedAll | indexer/build_graph.py:84-130 | that final loop state spelled out: the kept rows in file order, the graph, the totals, the skip count equal to the number of failed inserts among those attempted, at most ten reported, and exactly-full inserts when nothing failed |
| GraphBuild.LoadKoreanConcepts | indexer/build_graph.py:74-139 | the graph holds a prefix of the file's rows and the count is their number; success loads all rows; the skips are exactly the failed inserts of the loop, every other insert succeeded, and the final flush either succeeded or failed and ended the load; at most ten skips are reported; without failures all batches but the last have 1000 rows and the last has 1 to 1000 |

## Left out

- I/O is not modelled: HTTP requests to the model server, Neo4j sessions, Redis sockets, gzip reading, the download with its progress bar, and printing and logging. Their results are parameters.
- The FastAPI endpoints, `call_llm`, `time_it`, `disconnect`, and the web UI in `ui/app.py` are not part of this model. Their logic is I/O or rendering.
- `async` scheduling is not modelled. Each cache operation is one atomic step, and concurrent requests sharing the tracker or the cache are left out.
- The Cypher queries are not modelled: label matching, `shortestPath`, `ORDER BY r.weight DESC` and `DISTINCT`. `Graph.Gateway` returns their rows, so ordering and distinctness of query results are not claimed.
- Exceptions raised by the graph driver inside `search_graph_improved`, such as a negative `k` in `LIMIT`, are not modelled. `k` is a natural number.
- Floating point is not modelled. Scores, weights and times are reals. numpy's dot/norm quotient is the `ratio` parameter, and a numpy error on vectors of different lengths is not modelled.
- Similarity.CosineSimilarity: the norm test is "every component is zero", which is exact on reals. An underflowing float norm is not modelled.
- Monitoring.AverageMs and Monitoring.HitRate are exact rational values, without float rounding.
- Monitoring.P95Index: `int(n * 0.95)` is modelled as `95n / 100`. The two agree for the window sizes that occur, up to 100.
- Monitoring.PerformanceTracker.GetStats states the guard cases only. The averages and percentiles themselves are stated by Monitoring.AverageMs and Monitoring.P95IsPercentile.
- Prompt.RelationLine: the rendering of `{weight:.2f}` is the `weightText` parameter.
- The prompt code assumes that labels and languages are strings. A missing label (Python `None`), and `', '.join` raising on one, are not modelled.
- Python's `IndexError` on a path without node labels is the `None` result of Prompt.EnhancedPrompt.
- Cache.Cached: cache values are the JSON texts `json.dumps` writes, and encoding and decoding them is not modelled. So a stored JSON `null` is a hit holding the text "null" in the model, whereas `get` returns `None` for it, as it does for a miss.
- Redis glob metacharacters in a prefix are not modelled. `prefix:*` is a plain prefix match.
- Cache.CacheManager.ClearPrefix: the order in which `SCAN` yields keys is not modelled. The loop deletes an arbitrary matching key, and a failure stops it after `failAfter` deletions.
- The MD5 digest is the `md5Hex` parameter. Collisions between digests are not ruled out, so Cache.MakeKeyInjective concludes only equal digests.
- The connection retry and the redis-url parsing are not modelled. `Cache.ConnectOutcome` says which step failed.
- ConceptNetUri.ParseConceptNetUri returns the label as bytes. The UTF-8 decoding of `unquote`, which replaces invalid sequences, is not modelled.
- GraphBuild.Fields strips ASCII whitespace only. `str.strip()` also removes the few non-ASCII whitespace characters, which do not occur at line ends of the assertions file.
- GraphBuild.ParseLine: `float()` is the `parseFloat` parameter.
- GraphBuild.GraphStore.InsertBatch applies a batch entirely or not at all, as a Neo4j transaction does. Partial failure is not modelled.
- GraphBuild.LoadKoreanConcepts: the exception raised by a failing final flush is the `ok = false` result.
- GraphBuild.LoadLines: inside the `try`, only a failing insert raises in the model. The parsing steps are total, since `float()` falls back to 1.0 and the URI parsing cannot fail, so every skip counted is a failed insert.
