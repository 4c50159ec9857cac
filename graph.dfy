/** The records the retrieval code reads from the concept graph, and the
    graph store itself as a set of queries. The store is not modelled: each
    Cypher query the code issues is an oracle that returns its rows in the
    store's order, before the query's `LIMIT`; the code's `LIMIT n` is `Take`. */
module Graph {
  import opened Seqs

  /** A concept row: `{uri, label, lang}` (the label is `name`, `label` being a
      Dafny keyword). The uri identifies the concept. */
  datatype Concept = Concept(uri: string, name: string, lang: string)

  /** A relation row of the relations query. */
  datatype Relation = Relation(
    start: string, relType: string, end: string, weight: real,
    startLang: string, endLang: string, startUri: string, endUri: string)

  /** A shortest-path row: the labels of the nodes on the path and the types
      of the relations between them. */
  datatype Path = Path(nodeLabels: seq<string>, relTypes: seq<string>)

  /** The graph queries of the retrieval code, each before its `LIMIT`.
      - `matchLabel(q)`: Korean concepts whose lower-cased label contains the
        lower-cased `q`. The simple-mode query (`CONTAINS`) and the keyword
        query (`CONTAINS ... OR =`) select the same concepts, since an equal
        label also contains `q`, so one oracle answers both.
      - `relatedOneHop(uris)`: the distinct concepts one `RELATED` edge away
        from one of `uris`, other than the seed itself.
      - `relationsTouching(uris)`: the `RELATED` edges with an end in `uris`,
        by descending weight.
      - `neighbors(uris, maxHops)`: the distinct concepts `1..maxHops` edges
        away from one of `uris`.
      - `shortestPath(u1, u2)`: the rows of the shortest-path query between the
        two uris (at most 3 edges). */
  datatype Gateway = Gateway(
    matchLabel: string -> seq<Concept>,
    relatedOneHop: seq<string> -> seq<Concept>,
    relationsTouching: seq<string> -> seq<Relation>,
    neighbors: (seq<string>, int) -> seq<Concept>,
    shortestPath: (string, string) -> seq<Path>)

  /** `[c['uri'] for c in cs]` */
  function Uris(cs: seq<Concept>): (r: seq<string>)
    ensures |r| == |cs|
    ensures forall i :: 0 <= i < |cs| ==> r[i] == cs[i].uri
  {
    Map(cs, (c: Concept) => c.uri)
  }

  function UriSet(cs: seq<Concept>): set<string>
  {
    set c | c in cs :: c.uri
  }

  /** No two concepts share a uri. */
  predicate DistinctUris(cs: seq<Concept>)
  {
    forall i, j :: 0 <= i < j < |cs| ==> cs[i].uri != cs[j].uri
  }
}
