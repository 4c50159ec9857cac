/** Strategy selection and result assembly (`search_graph_improved`).
    `"simple"` runs the single label query; every other mode, recognised or
    not, runs the keyword pipeline. With concepts found, the relations and
    neighbours of exactly those concepts are fetched with limits `k*10` and
    `k*5`, and a shortest path is looked up between the first two only. */
module Retrieval {
  import opened Seqs
  import opened Keywords
  import opened Graph
  import opened Search

  /** The dict returned by `search_graph_improved`; `paths` is `None` when the
      dict has no `paths` key (the early return). */
  datatype RetrievalResult = RetrievalResult(
    concepts: seq<Concept>,
    relations: seq<Relation>,
    neighbors: seq<Concept>,
    paths: Option<seq<Path>>,
    keywords: seq<string>,
    searchMode: string)

  const SimpleMode: string := "simple"
  /** Relations fetched per requested concept: `LIMIT k*10`. */
  const RelationsPerConcept: nat := 10
  /** Neighbours fetched per requested concept: `LIMIT k*5`. */
  const NeighborsPerConcept: nat := 5

  /** The shortest path between the first two concepts, if there are two
      and the store finds one. */
  function FirstPairPath(g: Gateway, concepts: seq<Concept>): (r: seq<Path>)
    ensures |r| <= 1
    ensures |r| == 1 ==> |concepts| >= 2 && g.shortestPath(concepts[0].uri, concepts[1].uri) != []
                         && r[0] == g.shortestPath(concepts[0].uri, concepts[1].uri)[0]
    ensures |concepts| >= 2 && g.shortestPath(concepts[0].uri, concepts[1].uri) != [] ==> |r| == 1
  {
    if |concepts| >= 2 then
      var rows := g.shortestPath(concepts[0].uri, concepts[1].uri);
      if |rows| > 0 then [rows[0]] else []
    else []
  }

  /** Everything after the concepts are known. */
  function Assemble(g: Gateway, concepts: seq<Concept>, keywords: seq<string>, mode: string,
                    k: nat, includeNeighbors: bool, maxHops: int): (r: RetrievalResult)
    ensures r.concepts == concepts && r.keywords == keywords && r.searchMode == mode
    ensures |concepts| == 0 <==> r.paths.None?
    ensures |concepts| == 0 ==> r.relations == [] && r.neighbors == []
    ensures |concepts| > 0 ==> r.relations == Take(g.relationsTouching(Uris(concepts)), k * RelationsPerConcept)
    ensures |concepts| > 0 && includeNeighbors ==> r.neighbors == Take(g.neighbors(Uris(concepts), maxHops), k * NeighborsPerConcept)
    ensures !includeNeighbors ==> r.neighbors == []
    ensures |r.relations| <= k * RelationsPerConcept && |r.neighbors| <= k * NeighborsPerConcept
    ensures r.paths.Some? ==> r.paths.value == FirstPairPath(g, concepts)
  {
    if |concepts| == 0 then RetrievalResult([], [], [], None, keywords, mode)
    else
      var uris := Uris(concepts);
      RetrievalResult(
        concepts,
        Take(g.relationsTouching(uris), k * RelationsPerConcept),
        if includeNeighbors then Take(g.neighbors(uris, maxHops), k * NeighborsPerConcept) else [],
        Some(FirstPairPath(g, concepts)),
        keywords, mode)
  }

  /** The result of `search_graph_improved(question, k, mode, include_neighbors,
      max_hops)`, with `reply` the keyword model's reply. */
  function Retrieve(g: Gateway, e: Embedder, question: string, reply: Option<string>,
                    k: nat, mode: string, includeNeighbors: bool, maxHops: int): (r: RetrievalResult)
    ensures mode == SimpleMode ==> r.keywords == [] && r.concepts == Take(g.matchLabel(question), k)
    ensures mode != SimpleMode ==> r.keywords == ExtractKeywords(question, reply)
                                   && DistinctUris(r.concepts)
                                   && forall c :: c in r.concepts ==> c in Stream(g, r.keywords, k)
    ensures r.searchMode == mode
    ensures |r.concepts| <= 2 * k
    ensures |r.relations| <= k * RelationsPerConcept && |r.neighbors| <= k * NeighborsPerConcept
    ensures r.concepts == [] ==> r.relations == [] && r.neighbors == [] && r.paths.None?
    ensures r.paths.Some? ==> |r.paths.value| <= 1
  {
    if mode == SimpleMode then
      Assemble(g, Take(g.matchLabel(question), k), [], mode, k, includeNeighbors, maxHops)
    else
      var keywords := ExtractKeywords(question, reply);
      var gathered := Gather(g, keywords, k);
      AppendUnseenContents([], Stream(g, keywords, k));
      GatherIsDedupOfStream(g, keywords, k);
      AppendUnseenIsDedup([], Stream(g, keywords, k));
      assert UriSet([]) == {};
      Assemble(g, Finish(e, question, gathered, k), keywords, mode, k, includeNeighbors, maxHops)
  }

  /** `"embedding"`, `"hybrid"` and any other non-simple mode give the same
      result, up to the echoed mode. */
  lemma NonSimpleModesAgree(g: Gateway, e: Embedder, question: string, reply: Option<string>,
                            k: nat, m1: string, m2: string, includeNeighbors: bool, maxHops: int)
    requires m1 != SimpleMode && m2 != SimpleMode
    ensures Retrieve(g, e, question, reply, k, m1, includeNeighbors, maxHops)
         == Retrieve(g, e, question, reply, k, m2, includeNeighbors, maxHops).(searchMode := m1)
  {
  }

  /** The part of `search_graph_improved` after the concepts are known: the
      early return, the relation and neighbour queries, and the path list,
      filled by a loop over the single pair of the first two concepts. */
  method AssembleResult(g: Gateway, concepts: seq<Concept>, keywords: seq<string>, mode: string,
                        k: nat, includeNeighbors: bool, maxHops: int)
    returns (r: RetrievalResult)
    ensures r == Assemble(g, concepts, keywords, mode, k, includeNeighbors, maxHops)
  {
    if |concepts| == 0 {
      return RetrievalResult([], [], [], None, keywords, mode);
    }
    var uris := Uris(concepts);
    var relations := Take(g.relationsTouching(uris), k * RelationsPerConcept);
    var neighbors: seq<Concept> := [];
    if includeNeighbors {
      neighbors := Take(g.neighbors(uris, maxHops), k * NeighborsPerConcept);
    }
    var paths: seq<Path> := [];
    if |concepts| >= 2 {
      var pairs := [(concepts[0].uri, concepts[1].uri)];
      for i := 0 to |pairs|
        invariant paths == if i == 0 then [] else FirstPairPath(g, concepts)
      {
        var (uri1, uri2) := pairs[i];
        var rows := g.shortestPath(uri1, uri2);
        if |rows| > 0 {
          paths := paths + [rows[0]];
        }
      }
    }
    r := RetrievalResult(concepts, relations, neighbors, Some(paths), keywords, mode);
  }

  /** `search_graph_improved`: the concepts come from the chosen strategy,
      then the rest of the result is assembled. */
  method SearchGraphImproved(g: Gateway, e: Embedder, question: string, reply: Option<string>,
                             k: nat, mode: string, includeNeighbors: bool, maxHops: int)
    returns (r: RetrievalResult)
    ensures r == Retrieve(g, e, question, reply, k, mode, includeNeighbors, maxHops)
  {
    var concepts: seq<Concept> := [];
    var keywords: seq<string> := [];
    if mode == SimpleMode {
      concepts := Take(g.matchLabel(question), k);
    } else {
      var calls;
      concepts, keywords, calls := SearchWithEmbedding(g, e, question, reply, k);
    }
    r := AssembleResult(g, concepts, keywords, mode, k, includeNeighbors, maxHops);
  }
}
