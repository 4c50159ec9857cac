/** The Korean slice of ConceptNet loaded into the graph (`load_korean_concepts`
    and `insert_batch`). Each line of the assertions file becomes at most one
    row; rows are inserted in batches of 1000 and a final partial batch. An
    insert merges: a concept keeps the label and language of the row that
    created it, and a relation keyed by (start, end, type) adds up the weights
    of every row naming it. The graph store is the `Store` value a
    `GraphStore` holds; a failing insert changes nothing. */
module GraphBuild {
  import opened Seqs
  import opened ConceptNetUri

  const Tab: byte := 0x09
  /** The language code `ko`. */
  const Korean: Bytes := [0x6B, 0x6F]
  const BatchSize: nat := 1000
  /** Skipped lines beyond this many are counted but not reported. */
  const MaxReportedSkips: nat := 10
  /** The weight of a row whose weight field is not a number. */
  const DefaultWeight: real := 1.0

  /** `isspace()` on the ASCII range, the bytes `line.strip()` removes. */
  predicate IsAsciiSpace(b: byte)
  {
    b == 0x20 || 0x09 <= b <= 0x0D || 0x1C <= b <= 0x1F
  }

  /** A batch row. A missing label or language is the Python `None`. */
  datatype Row = Row(
    startUri: Bytes, startLabel: Option<Bytes>, startLang: Option<Bytes>,
    endUri: Bytes, endLabel: Option<Bytes>, endLang: Option<Bytes>,
    relType: Bytes, weight: real)

  /** `line.strip().split('\t')` */
  function Fields(line: Bytes): (r: seq<Bytes>)
    ensures |r| >= 1
  {
    Split(Strip(line, IsAsciiSpace), Tab)
  }

  predicate IsKoreanRow(row: Row)
  {
    row.startLang == Some(Korean) || row.endLang == Some(Korean)
  }

  /** The row a line yields, or `None` when it has fewer than four fields or
      neither end is Korean. `parseFloat` is `float()`, `None` where it
      raises. */
  function ParseLine(line: Bytes, parseFloat: Bytes -> Option<real>): (r: Option<Row>)
    ensures |Fields(line)| < 4 ==> r.None?
    ensures r.Some? ==> IsKoreanRow(r.value)
    ensures r.Some? ==> r.value.startUri == Fields(line)[1] && r.value.endUri == Fields(line)[2]
                        && r.value.relType == RelationType(Fields(line)[0])
    ensures |Fields(line)| >= 4 ==>
              (r.Some? <==> ParseConceptNetUri(Fields(line)[1]).lang == Some(Korean)
                            || ParseConceptNetUri(Fields(line)[2]).lang == Some(Korean))
  {
    var parts := Fields(line);
    if |parts| < 4 then None
    else
      var weight := if parseFloat(parts[3]).Some? then parseFloat(parts[3]).value else DefaultWeight;
      var start := ParseConceptNetUri(parts[1]);
      var end := ParseConceptNetUri(parts[2]);
      if start.lang != Some(Korean) && end.lang != Some(Korean) then None
      else Some(Row(parts[1], start.name, start.lang, parts[2], end.name, end.lang,
                    RelationType(parts[0]), weight))
  }

  /** A line made of tab-separated fields without surrounding spaces splits
      back into exactly those fields. */
  lemma FieldsOfJoin(fields: seq<Bytes>)
    requires |fields| >= 1
    requires forall i :: 0 <= i < |fields| ==> Tab !in fields[i]
    requires |fields[0]| > 0 && !IsAsciiSpace(fields[0][0])
    requires |fields[|fields| - 1]| > 0 && !IsAsciiSpace(fields[|fields| - 1][|fields[|fields| - 1]| - 1])
    ensures Fields(Join(fields, Tab)) == fields
  {
    JoinFirst(fields);
    JoinLast(fields);
    StripUnchanged(Join(fields, Tab), IsAsciiSpace);
    SplitJoin(fields, Tab);
  }

  lemma JoinFirst(fields: seq<Bytes>)
    requires |fields| >= 1 && |fields[0]| > 0
    ensures |Join(fields, Tab)| > 0 && Join(fields, Tab)[0] == fields[0][0]
  {
  }

  lemma {:induction false} JoinLast(fields: seq<Bytes>)
    requires |fields| >= 1 && |fields[|fields| - 1]| > 0
    ensures |Join(fields, Tab)| > 0
    ensures Join(fields, Tab)[|Join(fields, Tab)| - 1] == fields[|fields| - 1][|fields[|fields| - 1]| - 1]
  {
    if |fields| > 1 {
      JoinLast(fields[1..]);
    }
  }

  /** `ParseLine` with the weight parser fixed. */
  function RowParser(parseFloat: Bytes -> Option<real>): Bytes -> Option<Row>
  {
    (line: Bytes) => ParseLine(line, parseFloat)
  }

  /** The rows one line contributes: none or one. */
  function RowsOf(row: Option<Row>): seq<Row>
  {
    if row.Some? then [row.value] else []
  }

  /** The rows `rowOf` yields for the first `n` lines, in file order. */
  function KeptPrefix(lines: seq<Bytes>, rowOf: Bytes -> Option<Row>, n: nat): (r: seq<Row>)
    requires n <= |lines|
    ensures |r| <= n
  {
    if n == 0 then [] else KeptPrefix(lines, rowOf, n - 1) + RowsOf(rowOf(lines[n - 1]))
  }

  /** The rows `rowOf` yields for the lines, in file order. */
  function KeptRowsBy(lines: seq<Bytes>, rowOf: Bytes -> Option<Row>): (r: seq<Row>)
    ensures |r| <= |lines|
  {
    KeptPrefix(lines, rowOf, |lines|)
  }

  /** The rows of all lines of the file, in file order. */
  function KeptRows(lines: seq<Bytes>, parseFloat: Bytes -> Option<real>): seq<Row>
  {
    KeptRowsBy(lines, RowParser(parseFloat))
  }

  /** Only Korean rows are kept, one per line at most. */
  lemma KeptRowsAreKorean(lines: seq<Bytes>, parseFloat: Bytes -> Option<real>)
    ensures |KeptRows(lines, parseFloat)| <= |lines|
    ensures forall i :: 0 <= i < |KeptRows(lines, parseFloat)| ==> IsKoreanRow(KeptRows(lines, parseFloat)[i])
  {
    KeptPrefixKorean(lines, parseFloat, |lines|);
  }

  lemma {:induction false} KeptPrefixKorean(lines: seq<Bytes>, parseFloat: Bytes -> Option<real>, n: nat)
    requires n <= |lines|
    ensures forall i :: 0 <= i < |KeptPrefix(lines, RowParser(parseFloat), n)| ==>
              IsKoreanRow(KeptPrefix(lines, RowParser(parseFloat), n)[i])
  {
    if n > 0 {
      KeptPrefixKorean(lines, parseFloat, n - 1);
      var row := ParseLine(lines[n - 1], parseFloat);
      assert RowParser(parseFloat)(lines[n - 1]) == row;
    }
  }

  // ---------------------------------------------------------------- merge semantics

  datatype NodeInfo = NodeInfo(name: Option<Bytes>, lang: Option<Bytes>)
  datatype EdgeKey = EdgeKey(start: Bytes, end: Bytes, relType: Bytes)
  /** The concepts by uri, and the `RELATED` edges' weights by key. */
  datatype Store = Store(nodes: map<Bytes, NodeInfo>, edges: map<EdgeKey, real>)

  function KeyOf(row: Row): EdgeKey
  {
    EdgeKey(row.startUri, row.endUri, row.relType)
  }

  /** `MERGE (c:Concept {uri}) ON CREATE SET ...` */
  function MergeNode(nodes: map<Bytes, NodeInfo>, uri: Bytes, info: NodeInfo): map<Bytes, NodeInfo>
  {
    if uri in nodes then nodes else nodes[uri := info]
  }

  /** One row of the `UNWIND`: the start node, the end node, then the edge
      (created with the row's weight, or increased by it). */
  function ApplyRow(st: Store, row: Row): Store
  {
    var nodes := MergeNode(MergeNode(st.nodes, row.startUri, NodeInfo(row.startLabel, row.startLang)),
                           row.endUri, NodeInfo(row.endLabel, row.endLang));
    var key := KeyOf(row);
    var edges := if key in st.edges then st.edges[key := st.edges[key] + row.weight]
                 else st.edges[key := row.weight];
    Store(nodes, edges)
  }

  /** `insert_batch(rows)` on a store, rows in order. */
  function ApplyRows(st: Store, rows: seq<Row>): Store
  {
    if |rows| == 0 then st else ApplyRow(ApplyRows(st, rows[..|rows| - 1]), rows[|rows| - 1])
  }

  /** Inserting in two batches is inserting the rows at once: batching does
      not change the resulting graph. */
  lemma {:induction false} ApplyRowsAppend(st: Store, a: seq<Row>, b: seq<Row>)
    ensures ApplyRows(st, a + b) == ApplyRows(ApplyRows(st, a), b)
    decreases |b|
  {
    if |b| == 0 {
      assert a + b == a;
    } else {
      ApplyRowsAppend(st, a, b[..|b| - 1]);
      assert (a + b)[..|a + b| - 1] == a + b[..|b| - 1];
    }
  }

  /** Every node a row names, with the label and language it would create
      the node with, start before end. */
  function Mentions(rows: seq<Row>): (r: seq<(Bytes, NodeInfo)>)
    ensures |r| == 2 * |rows|
  {
    if |rows| == 0 then []
    else
      var row := rows[|rows| - 1];
      Mentions(rows[..|rows| - 1])
        + [(row.startUri, NodeInfo(row.startLabel, row.startLang)), (row.endUri, NodeInfo(row.endLabel, row.endLang))]
  }

  /** The information of the first mention of `uri`. */
  function FirstInfo(ms: seq<(Bytes, NodeInfo)>, uri: Bytes): Option<NodeInfo>
  {
    if |ms| == 0 then None
    else if ms[0].0 == uri then Some(ms[0].1)
    else FirstInfo(ms[1..], uri)
  }

  lemma {:induction false} FirstInfoAppend(ms: seq<(Bytes, NodeInfo)>, ns: seq<(Bytes, NodeInfo)>, uri: Bytes)
    ensures FirstInfo(ms + ns, uri) == if FirstInfo(ms, uri).Some? then FirstInfo(ms, uri) else FirstInfo(ns, uri)
  {
    if |ms| > 0 {
      FirstInfoAppend(ms[1..], ns, uri);
      assert (ms + ns)[1..] == ms[1..] + ns;
    } else {
      assert ms + ns == ns;
    }
  }

  /** First write wins: a node that existed keeps its label and language;
      a new node has those of the first row that names it. */
  lemma {:induction false} NodesFirstWriteWins(st: Store, rows: seq<Row>, uri: Bytes)
    ensures uri in ApplyRows(st, rows).nodes <==> uri in st.nodes || FirstInfo(Mentions(rows), uri).Some?
    ensures uri in ApplyRows(st, rows).nodes ==>
              ApplyRows(st, rows).nodes[uri]
              == if uri in st.nodes then st.nodes[uri] else FirstInfo(Mentions(rows), uri).value
    decreases |rows|
  {
    if |rows| > 0 {
      var front := rows[..|rows| - 1];
      var row := rows[|rows| - 1];
      NodesFirstWriteWins(st, front, uri);
      var tail := [(row.startUri, NodeInfo(row.startLabel, row.startLang)), (row.endUri, NodeInfo(row.endLabel, row.endLang))];
      FirstInfoAppend(Mentions(front), tail, uri);
      assert FirstInfo(tail, uri) == if row.startUri == uri then Some(tail[0].1) else FirstInfo(tail[1..], uri);
    }
  }

  /** The total weight the rows give to edge `key`. */
  function SumWeights(rows: seq<Row>, key: EdgeKey): real
  {
    if |rows| == 0 then 0.0
    else SumWeights(rows[..|rows| - 1], key) + (if KeyOf(rows[|rows| - 1]) == key then rows[|rows| - 1].weight else 0.0)
  }

  predicate NamesEdge(rows: seq<Row>, key: EdgeKey)
  {
    exists i :: 0 <= i < |rows| && KeyOf(rows[i]) == key
  }

  /** Weights accumulate: an edge exists once some row names it, and its
      weight is its old weight plus the weights of every row naming it. */
  lemma {:induction false} EdgeWeightsAccumulate(st: Store, rows: seq<Row>, key: EdgeKey)
    ensures key in ApplyRows(st, rows).edges <==> key in st.edges || NamesEdge(rows, key)
    ensures key in ApplyRows(st, rows).edges ==>
              ApplyRows(st, rows).edges[key]
              == (if key in st.edges then st.edges[key] else 0.0) + SumWeights(rows, key)
    decreases |rows|
  {
    if |rows| > 0 {
      var front := rows[..|rows| - 1];
      EdgeWeightsAccumulate(st, front, key);
      if NamesEdge(rows, key) && !NamesEdge(front, key) {
        assert KeyOf(rows[|rows| - 1]) == key;
      }
      if NamesEdge(front, key) {
        var i :| 0 <= i < |front| && KeyOf(front[i]) == key;
        assert rows[i] == front[i];
      }
      if !NamesEdge(front, key) {
        NoNamesNoWeight(front, key);
      }
    }
  }

  lemma {:induction false} NoNamesNoWeight(rows: seq<Row>, key: EdgeKey)
    requires !NamesEdge(rows, key)
    ensures SumWeights(rows, key) == 0.0
    decreases |rows|
  {
    if |rows| > 0 {
      var front := rows[..|rows| - 1];
      NoNamesNoWeight(front, key);
      assert KeyOf(rows[|rows| - 1]) != key;
    }
  }

  // ---------------------------------------------------------------- loading

  class GraphStore {
    var store: Store

    constructor (initial: Store)
      ensures store == initial
    {
      store := initial;
    }

    /** `insert_batch(batch)`: applies every row, or nothing when the query
        fails. */
    method InsertBatch(batch: seq<Row>, fails: bool) returns (ok: bool)
      modifies this
      ensures ok == !fails
      ensures store == if ok then ApplyRows(old(store), batch) else old(store)
    {
      if fails {
        return false;
      }
      store := ApplyRows(store, batch);
      return true;
    }
  }

  function SumNat(s: seq<nat>): nat
  {
    if |s| == 0 then 0 else SumNat(s[..|s| - 1]) + s[|s| - 1]
  }

  lemma SumNatSnoc(s: seq<nat>, x: nat)
    ensures SumNat(s + [x]) == SumNat(s) + x
  {
    assert (s + [x])[..|s|] == s;
  }

  /** How many of the first `n` inserts fail. */
  function FailedCalls(insertFails: nat -> bool, n: nat): (r: nat)
    ensures r <= n
  {
    if n == 0 then 0 else FailedCalls(insertFails, n - 1) + (if insertFails(n - 1) then 1 else 0)
  }

  /** No insert ever fails. */
  ghost predicate NoFailures(insertFails: nat -> bool)
  {
    forall j: nat :: !insertFails(j)
  }

  /** The loader's local variables: the pending `batch`, `total_loaded`,
      `skipped`, how many skips were reported, and the size of each insert
      that succeeded. */
  datatype Progress = Progress(batch: seq<Row>, totalLoaded: nat, skipped: nat, reported: nat,
                               batchSizes: seq<nat>)
  {
    /** How many inserts the loop has attempted: each one either succeeded
        or was counted as a skip. */
    function Calls(): nat
    {
      skipped + |batchSizes|
    }
  }

  /** The counters agree with the rows inserted so far, `committed`, in
      order: every successful insert had at least 1000 rows, every insert
      either succeeded or was counted as a skip, and at most ten skips are
      reported. */
  ghost predicate Counted(p: Progress, committed: seq<Row>)
  {
    p.totalLoaded == |committed| == SumNat(p.batchSizes)
    && p.reported == Min(p.skipped, MaxReportedSkips)
    && forall j :: 0 <= j < |p.batchSizes| ==> p.batchSizes[j] >= BatchSize
  }

  /** What holds while no insert has failed: nothing skipped, the pending
      batch not yet full, and every insert exactly 1000 rows. */
  predicate Clean(p: Progress)
  {
    p.skipped == 0 && |p.batch| < BatchSize
    && forall j :: 0 <= j < |p.batchSizes| ==> p.batchSizes[j] == BatchSize
  }

  /** The state of the line loop after the first `i` lines: the inserted
      rows and the pending batch are the rows of those lines, the graph is
      `base` with the inserted rows applied, and the skips are exactly the
      inserts that failed. */
  ghost predicate Loaded(lines: seq<Bytes>, rowOf: Bytes -> Option<Row>, i: nat, base: Store,
                         store: Store, insertFails: nat -> bool, noFail: bool, p: Progress,
                         committed: seq<Row>)
    requires i <= |lines|
  {
    committed + p.batch == KeptPrefix(lines, rowOf, i)
    && store == ApplyRows(base, committed)
    && Counted(p, committed)
    && p.skipped == FailedCalls(insertFails, p.Calls())
    && (noFail ==> Clean(p))
  }

  /** One kept row: `batch.append(row)`, then an insert once the batch holds
      1000 rows; `fails` says whether that insert fails. A failed insert is
      counted as a skipped line and the batch is kept. */
  method AddRow(db: GraphStore, ghost base: Store, row: Row, fails: bool, p: Progress,
                ghost committed: seq<Row>)
    returns (p': Progress, ghost committed': seq<Row>)
    requires Counted(p, committed)
    requires db.store == ApplyRows(base, committed)
    modifies db
    ensures Counted(p', committed')
    ensures db.store == ApplyRows(base, committed')
    ensures committed' + p'.batch == committed + p.batch + [row]
    ensures p'.Calls() == if |p.batch| + 1 >= BatchSize then p.Calls() + 1 else p.Calls()
    ensures p'.skipped == if |p.batch| + 1 >= BatchSize && fails then p.skipped + 1 else p.skipped
    ensures Clean(p) && !(|p.batch| + 1 >= BatchSize && fails) ==> Clean(p')
  {
    var batch := p.batch + [row];
    if |batch| < BatchSize {
      assert committed + batch == committed + p.batch + [row];
      return p.(batch := batch), committed;
    }
    var inserted := db.InsertBatch(batch, fails);
    if inserted {
      ApplyRowsAppend(base, committed, batch);
      assert committed + batch + [] == committed + batch;
      committed' := committed + batch;
      p' := Progress([], p.totalLoaded + |batch|, p.skipped, p.reported,
                     p.batchSizes + [|batch|]);
      CountedCommit(p, committed, batch);
      assert committed' + p'.batch == committed + p.batch + [row];
    } else {
      var skipped := p.skipped + 1;
      committed' := committed;
      p' := Progress(batch, p.totalLoaded, skipped,
                     if skipped <= MaxReportedSkips then p.reported + 1 else p.reported,
                     p.batchSizes);
      CountedSkip(p, committed, batch);
    }
  }

  /** A successful insert of a full `batch` keeps the counters in step, and
      keeps every insert exactly 1000 rows while none has failed. */
  lemma CountedCommit(p: Progress, committed: seq<Row>, batch: seq<Row>)
    requires Counted(p, committed) && |batch| >= BatchSize
    ensures Counted(Progress([], p.totalLoaded + |batch|, p.skipped, p.reported,
                             p.batchSizes + [|batch|]), committed + batch)
    ensures Clean(p) && |batch| == |p.batch| + 1 ==>
              Clean(Progress([], p.totalLoaded + |batch|, p.skipped, p.reported, p.batchSizes + [|batch|]))
  {
    SumNatSnoc(p.batchSizes, |batch|);
  }

  /** A failed insert counts one skip and reports it while fewer than ten
      have been reported. */
  lemma CountedSkip(p: Progress, committed: seq<Row>, batch: seq<Row>)
    requires Counted(p, committed)
    ensures Counted(Progress(batch, p.totalLoaded, p.skipped + 1,
                             if p.skipped + 1 <= MaxReportedSkips then p.reported + 1 else p.reported,
                             p.batchSizes), committed)
  {
  }

  /** One line of the loop: its row, if any, goes through `AddRow`. */
  method AddLine(db: GraphStore, ghost base: Store, lines: seq<Bytes>, rowOf: Bytes -> Option<Row>,
                 i: nat, insertFails: nat -> bool, ghost noFail: bool, p: Progress,
                 ghost committed: seq<Row>)
    returns (p': Progress, ghost committed': seq<Row>)
    requires i < |lines|
    requires Loaded(lines, rowOf, i, base, db.store, insertFails, noFail, p, committed)
    requires noFail ==> !insertFails(p.Calls())
    modifies db
    ensures Loaded(lines, rowOf, i + 1, base, db.store, insertFails, noFail, p', committed')
  {
    var row := rowOf(lines[i]);
    p', committed' := p, committed;
    if row.Some? {
      p', committed' := AddRow(db, base, row.value, insertFails(p.Calls()), p, committed);
    }
    assert committed + p.batch + [] == committed + p.batch;
    assert FailedCalls(insertFails, p.Calls() + 1) == p.skipped + (if insertFails(p.Calls()) then 1 else 0);
  }

  /** The line loop of `load_korean_concepts`, with `rowOf` the parsing of
      one line: returns the loader's variables after the last line, in the
      state `Loaded` describes (spelled out by `LoadedAll`). `committed` is
      the rows inserted so far, in order. */
  method LoadLines(db: GraphStore, lines: seq<Bytes>, rowOf: Bytes -> Option<Row>,
                   insertFails: nat -> bool)
    returns (p: Progress, ghost committed: seq<Row>)
    modifies db
    ensures Loaded(lines, rowOf, |lines|, old(db.store), db.store, insertFails,
                   NoFailures(insertFails), p, committed)
  {
    p, committed := Progress([], 0, 0, 0, []), [];
    ghost var noFail := NoFailures(insertFails);
    LoadedStart(lines, rowOf, db.store, insertFails, noFail);
    for i := 0 to |lines|
      invariant Loaded(lines, rowOf, i, old(db.store), db.store, insertFails, noFail, p, committed)
    {
      assert noFail ==> !insertFails(p.Calls());
      p, committed := AddLine(db, old(db.store), lines, rowOf, i, insertFails, noFail, p, committed);
    }
  }

  /** Before the first line nothing is loaded, pending or skipped. */
  lemma LoadedStart(lines: seq<Bytes>, rowOf: Bytes -> Option<Row>, base: Store,
                    insertFails: nat -> bool, noFail: bool)
    ensures Loaded(lines, rowOf, 0, base, base, insertFails, noFail, Progress([], 0, 0, 0, []), [])
  {
    assert ApplyRows(base, []) == base;
  }

  /** The loop state after the last line, spelled out: every kept row is
      inserted or pending, in file order; the graph holds the inserted rows;
      the skips are exactly the failed inserts; and with no failures every
      insert was a full batch of 1000. */
  lemma LoadedAll(lines: seq<Bytes>, rowOf: Bytes -> Option<Row>, base: Store, store: Store,
                  insertFails: nat -> bool, p: Progress, committed: seq<Row>)
    requires Loaded(lines, rowOf, |lines|, base, store, insertFails, NoFailures(insertFails), p, committed)
    ensures committed + p.batch == KeptRowsBy(lines, rowOf)
    ensures p.totalLoaded == |committed| == SumNat(p.batchSizes)
    ensures store == ApplyRows(base, committed)
    ensures p.reported == Min(p.skipped, MaxReportedSkips)
    ensures p.skipped == FailedCalls(insertFails, p.Calls())
    ensures forall j :: 0 <= j < |p.batchSizes| ==> p.batchSizes[j] >= BatchSize
    ensures NoFailures(insertFails) ==>
              p.skipped == 0 && |p.batch| < BatchSize
              && forall j :: 0 <= j < |p.batchSizes| ==> p.batchSizes[j] == BatchSize
  {
  }

  /** Appending the final, partial batch keeps every batch but the last full,
      and keeps every batch at most full when all earlier ones were exactly full. */
  lemma LastBatchSizes(sizes: seq<nat>, n: nat)
    requires 0 < n
    requires forall j :: 0 <= j < |sizes| ==> sizes[j] >= BatchSize
    ensures forall j :: 0 <= j < |sizes + [n]| - 1 ==> (sizes + [n])[j] >= BatchSize
    ensures (forall j :: 0 <= j < |sizes| ==> sizes[j] == BatchSize) && n < BatchSize ==>
              (forall j :: 0 <= j < |sizes + [n]| ==> 0 < (sizes + [n])[j] <= BatchSize)
              && (forall j :: 0 <= j < |sizes + [n]| - 1 ==> (sizes + [n])[j] == BatchSize)
  {
  }

  /** The final `if batch: insert_batch(batch)`: the rows of the last,
      partial batch are inserted unless the insert fails (`fails`), in which
      case the load stops with `ok` false. */
  method FlushLast(db: GraphStore, ghost base: Store, p: Progress, ghost committed: seq<Row>, fails: bool)
    returns (totalLoaded: nat, batchSizes: seq<nat>, ok: bool)
    requires Counted(p, committed)
    requires db.store == ApplyRows(base, committed)
    modifies db
    ensures totalLoaded == SumNat(batchSizes) <= |committed + p.batch|
    ensures db.store == ApplyRows(base, (committed + p.batch)[..totalLoaded])
    ensures ok ==> totalLoaded == |committed + p.batch|
    ensures forall i :: 0 <= i < |batchSizes| - 1 ==> batchSizes[i] >= BatchSize
    ensures ok ==> |batchSizes| == |p.batchSizes| + (if |p.batch| > 0 then 1 else 0)
    ensures ok && |p.batch| > 0 ==> !fails
    ensures !ok ==> |p.batch| > 0 && fails && batchSizes == p.batchSizes
    ensures Clean(p) && !fails ==>
              ok
              && (forall i :: 0 <= i < |batchSizes| ==> 0 < batchSizes[i] <= BatchSize)
              && (forall i :: 0 <= i < |batchSizes| - 1 ==> batchSizes[i] == BatchSize)
  {
    totalLoaded, batchSizes := p.totalLoaded, p.batchSizes;
    assert (committed + p.batch)[..totalLoaded] == committed;
    if |p.batch| > 0 {
      var inserted := db.InsertBatch(p.batch, fails);
      if !inserted {
        ok := false;
        return;
      }
      ApplyRowsAppend(base, committed, p.batch);
      totalLoaded := totalLoaded + |p.batch|;
      SumNatSnoc(batchSizes, |p.batch|);
      LastBatchSizes(batchSizes, |p.batch|);
      batchSizes := batchSizes + [|p.batch|];
      assert (committed + p.batch)[..totalLoaded] == committed + p.batch;
    }
    ok := true;
  }

  /** `load_korean_concepts()` over the file's `lines`. The `j`-th insert
      fails when `insertFails(j)`. A failing insert inside the loop counts
      as a skipped line and keeps its batch, which the next flush retries;
      a failing final flush ends the load with `ok` false. Returns the rows
      loaded, the skips, how many skips were reported, and the size of each
      insert that succeeded; `calls` is how many inserts the loop attempted,
      and the skips are exactly those of them that failed. */
  method LoadKoreanConcepts(db: GraphStore, lines: seq<Bytes>, parseFloat: Bytes -> Option<real>,
                            insertFails: nat -> bool)
    returns (totalLoaded: nat, skipped: nat, reported: nat, batchSizes: seq<nat>, ok: bool,
             ghost calls: nat)
    modifies db
    ensures reported == Min(skipped, MaxReportedSkips)
    ensures skipped == FailedCalls(insertFails, calls)
    ensures ok ==> calls <= skipped + |batchSizes| <= calls + 1
    ensures skipped + |batchSizes| == calls + 1 ==> !insertFails(calls)
    ensures !ok ==> skipped + |batchSizes| == calls && insertFails(calls)
    ensures totalLoaded == SumNat(batchSizes) <= |KeptRows(lines, parseFloat)|
    ensures db.store == ApplyRows(old(db.store), KeptRows(lines, parseFloat)[..totalLoaded])
    ensures ok ==> totalLoaded == |KeptRows(lines, parseFloat)|
    ensures forall i :: 0 <= i < |batchSizes| - 1 ==> batchSizes[i] >= BatchSize
    ensures NoFailures(insertFails) ==>
              ok && skipped == 0
              && (forall i :: 0 <= i < |batchSizes| ==> 0 < batchSizes[i] <= BatchSize)
              && (forall i :: 0 <= i < |batchSizes| - 1 ==> batchSizes[i] == BatchSize)
  {
    var p;
    ghost var committed;
    p, committed := LoadLines(db, lines, RowParser(parseFloat), insertFails);
    LoadedAll(lines, RowParser(parseFloat), old(db.store), db.store, insertFails, p, committed);
    assert NoFailures(insertFails) ==> !insertFails(p.Calls());
    totalLoaded, batchSizes, ok := FlushLast(db, old(db.store), p, committed, insertFails(p.Calls()));
    skipped, reported, calls := p.skipped, p.reported, p.Calls();
  }
}
