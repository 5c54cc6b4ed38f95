/**
 * The two lookup structures behind a decision: the dictionaries of the in-memory scan and
 * the tables of the disk-backed one. Both must answer the same for every identifier.
 */
module SpaceResolver {
  import opened Basics
  import opened PythonValues
  import opened SpaceDecision

  // ------------------------------------------------------------- dictionaries

  /** A Python dictionary: keys are compared with ==, an update keeps the first key. */
  type PyDict<V> = seq<(PyVal, V)>

  function Find<V>(d: PyDict<V>, id: PyVal): Option<V> {
    if d == [] then None
    else if PyEq(d[|d| - 1].0, id) then Some(d[|d| - 1].1)
    else Find(d[..|d| - 1], id)
  }

  function Put<V>(d: PyDict<V>, id: PyVal, v: V): PyDict<V> {
    if d == [] then [(id, v)]
    else if PyEq(d[|d| - 1].0, id) then d[..|d| - 1] + [(d[|d| - 1].0, v)]
    else Put(d[..|d| - 1], id, v) + [d[|d| - 1]]
  }

  lemma PyEqIsEquivalence(a: PyVal, b: PyVal, c: PyVal)
    ensures PyEq(a, b) ==> PyEq(b, a)
    ensures PyEq(a, b) && PyEq(b, c) ==> PyEq(a, c)
    ensures FromSqlite(a) ==> PyEq(a, a)
  {
  }

  lemma {:induction false} PutThenFind<V>(d: PyDict<V>, id: PyVal, v: V, other: PyVal)
    requires FromSqlite(id)
    ensures Find(Put(d, id, v), other) == if PyEq(id, other) then Some(v) else Find(d, other)
  {
    if d == [] {
      assert Put(d, id, v)[..0] == [];
    } else {
      var n := |d| - 1;
      PyEqIsEquivalence(d[n].0, id, other);
      PyEqIsEquivalence(id, d[n].0, other);
      PyEqIsEquivalence(id, other, d[n].0);
      PyEqIsEquivalence(d[n].0, other, id);
      if PyEq(d[n].0, id) {
        assert Put(d, id, v)[..n] == d[..n];
      } else {
        PutThenFind(d[..n], id, v, other);
        assert Put(d, id, v)[..|Put(d, id, v)| - 1] == Put(d[..n], id, v);
        assert Put(d, id, v)[|Put(d, id, v)| - 1] == d[n];
      }
    }
  }

  // ----------------------------------------------------------- the graph map

  /** What the rows of one id say, in scan order. */
  function FactsOf(rows: seq<GraphRow>, id: PyVal): seq<GraphFact> {
    if rows == [] then []
    else
      var last := rows[|rows| - 1];
      FactsOf(rows[..|rows| - 1], id) + if PyEq(last.id, id) then [FactOf(last)] else []
  }

  /** The first fact, and whether any other differs from it. */
  function EntryFrom(facts: seq<GraphFact>): Option<GraphEntry> {
    if facts == [] then None
    else Some(GraphEntry(facts[0], exists i :: 0 <= i < |facts| && facts[i] != facts[0]))
  }

  function GraphEntryOf(rows: seq<GraphRow>, id: PyVal): Option<GraphEntry> {
    EntryFrom(FactsOf(rows, id))
  }

  /** How one more fact changes an entry. */
  function Merge(entry: Option<GraphEntry>, fact: GraphFact): GraphEntry {
    match entry
    case None => GraphEntry(fact, false)
    case Some(e) => if e.fact != fact then e.(ambiguous := true) else e
  }

  lemma EntryFromSnoc(facts: seq<GraphFact>, fact: GraphFact)
    ensures EntryFrom(facts + [fact]) == Some(Merge(EntryFrom(facts), fact))
  {
    var all := facts + [fact];
    if facts != [] {
      if i :| 0 <= i < |facts| && facts[i] != facts[0] { assert all[i] != all[0]; }
      if fact != facts[0] { assert all[|facts|] != all[0]; }
    }
  }

  predicate SqliteIds(rows: seq<GraphRow>) {
    forall r :: r in rows ==> FromSqlite(r.id)
  }

  /** What build_graph_map has in both of its dictionaries for one id. */
  ghost predicate Maps(entries: PyDict<GraphEntry>, seen: PyDict<GraphFact>, rows: seq<GraphRow>, id: PyVal) {
    && Find(entries, id) == GraphEntryOf(rows, id)
    && Find(seen, id) == match GraphEntryOf(rows, id) case None => None case Some(e) => Some(e.fact)
  }

  /** build_graph_map: the dictionary of the in-memory scan. */
  method BuildGraphMap(rows: seq<GraphRow>) returns (entries: PyDict<GraphEntry>)
    requires SqliteIds(rows)
    ensures forall id :: Find(entries, id) == GraphEntryOf(rows, id)
  {
    entries := [];
    var seen: PyDict<GraphFact> := [];
    for n := 0 to |rows|
      invariant forall id :: Maps(entries, seen, rows[..n], id)
    {
      var row, fact := rows[n], FactOf(rows[n]);
      ghost var entries0, seen0 := entries, seen;
      var known := Find(entries, row.id);
      assert Maps(entries, seen, rows[..n], row.id);
      if known.None? {
        entries := Put(entries, row.id, GraphEntry(fact, false));
        seen := Put(seen, row.id, fact);
      } else if Find(seen, row.id) != Some(fact) {
        entries := Put(entries, row.id, known.value.(ambiguous := true));
      }
      ghost var scanned := rows[..n + 1];
      forall id
        ensures Maps(entries, seen, scanned, id)
      {
        assert Maps(entries0, seen0, rows[..n], id);
        GraphEntrySnoc(rows, n, id);
        PutThenFind(entries0, row.id, Merge(known, fact), id);
        PutThenFind(seen0, row.id, fact, id);
      }
    }
    assert rows[..|rows|] == rows;
    forall id
      ensures Find(entries, id) == GraphEntryOf(rows, id)
    {
      assert Maps(entries, seen, rows, id);
    }
  }

  lemma {:induction false} SameIdSameFacts(rows: seq<GraphRow>, a: PyVal, b: PyVal)
    requires PyEq(a, b)
    ensures FactsOf(rows, a) == FactsOf(rows, b)
  {
    if rows != [] {
      var last := rows[|rows| - 1];
      SameIdSameFacts(rows[..|rows| - 1], a, b);
      PyEqIsEquivalence(last.id, a, b);
      PyEqIsEquivalence(a, b, b);
      PyEqIsEquivalence(last.id, b, a);
    }
  }

  lemma GraphEntrySnoc(rows: seq<GraphRow>, n: nat, id: PyVal)
    requires n < |rows| && SqliteIds(rows)
    ensures GraphEntryOf(rows[..n + 1], id) ==
      if PyEq(rows[n].id, id) then Some(Merge(GraphEntryOf(rows[..n], rows[n].id), FactOf(rows[n])))
      else GraphEntryOf(rows[..n], id)
    ensures PyEq(rows[n].id, id) ==> GraphEntryOf(rows[..n], id) == GraphEntryOf(rows[..n], rows[n].id)
  {
    assert rows[..n + 1][..n] == rows[..n];
    if PyEq(rows[n].id, id) {
      SameIdSameFacts(rows[..n], rows[n].id, id);
      EntryFromSnoc(FactsOf(rows[..n], id), FactOf(rows[n]));
    } else {
      assert FactsOf(rows[..n], id) + [] == FactsOf(rows[..n], id);
    }
  }

  /** The graph table of the disk-backed scan: one row per resolver key. */
  method ScanGraph(rows: seq<GraphRow>) returns (table: map<Code, GraphEntry>)
    requires SqliteIds(rows)
    ensures forall id :: FromSqlite(id) ==> Lookup(table, ResolverKey(id)) == GraphEntryOf(rows, id)
  {
    table := map[];
    for n := 0 to |rows|
      invariant forall id :: FromSqlite(id) ==> Lookup(table, ResolverKey(id)) == GraphEntryOf(rows[..n], id)
    {
      var row, fact := rows[n], FactOf(rows[n]);
      ghost var table0 := table;
      var key := ResolverKey(row.id);
      if key !in table {
        table := table[key := GraphEntry(fact, false)];
      } else if table[key].fact != fact {
        table := table[key := table[key].(ambiguous := true)];
      }
      assert row in rows;
      assert table == table0[key := Merge(Lookup(table0, key), fact)];
      forall id | FromSqlite(id)
        ensures Lookup(table, ResolverKey(id)) == GraphEntryOf(rows[..n + 1], id)
      {
        GraphEntrySnoc(rows, n, id);
        ResolverKeyIsEquality(row.id, id);
      }
    }
    assert rows[..|rows|] == rows;
  }

  function Lookup<V>(table: map<Code, V>, key: Code): Option<V> {
    if key in table then Some(table[key]) else None
  }

  // -------------------------------------------------------- order of the scan

  lemma {:induction false} FactsMembership(rows: seq<GraphRow>, id: PyVal, f: GraphFact)
    ensures f in FactsOf(rows, id) <==> exists r :: r in rows && PyEq(r.id, id) && FactOf(r) == f
  {
    if rows != [] {
      var n := |rows| - 1;
      FactsMembership(rows[..n], id, f);
      assert rows == rows[..n] + [rows[n]];
    }
  }

  /** An id has an entry exactly if it has a row, and a fact that counts exactly if all its rows say that fact. */
  lemma EntryByRows(rows: seq<GraphRow>, id: PyVal, f: GraphFact)
    ensures GraphEntryOf(rows, id).Some? <==> exists r :: r in rows && PyEq(r.id, id)
    ensures GraphEntryOf(rows, id) == Some(GraphEntry(f, false)) <==>
      (exists r :: r in rows && PyEq(r.id, id)) && forall r :: r in rows && PyEq(r.id, id) ==> FactOf(r) == f
  {
    var facts := FactsOf(rows, id);
    forall g
      ensures g in facts <==> exists r :: r in rows && PyEq(r.id, id) && FactOf(r) == g
    {
      FactsMembership(rows, id, g);
    }
    if facts != [] {
      assert facts[0] in facts;
    }
    hide FactOf, PyEq;
    if r :| r in rows && PyEq(r.id, id) { assert FactOf(r) in facts; }
    if GraphEntryOf(rows, id) == Some(GraphEntry(f, false)) {
      forall r | r in rows && PyEq(r.id, id)
        ensures FactOf(r) == f
      {
        assert FactOf(r) in facts;
      }
    }
    if facts != [] && forall r :: r in rows && PyEq(r.id, id) ==> FactOf(r) == f {
      forall i | 0 <= i < |facts|
        ensures facts[i] == f
      {
        assert facts[i] in facts;
      }
    }
  }

  /** Both entries say ambiguous, or they are the same entry. */
  lemma EntriesOfSameFacts(a: seq<GraphFact>, b: seq<GraphFact>)
    requires forall f :: f in a <==> f in b
    ensures EntryFrom(a).Some? == EntryFrom(b).Some?
    ensures a != [] ==> EntryFrom(a).value.ambiguous == EntryFrom(b).value.ambiguous
    ensures a != [] && !EntryFrom(a).value.ambiguous ==> EntryFrom(a) == EntryFrom(b)
  {
    if a != [] { assert a[0] in b; }
    if b != [] { assert b[0] in a; }
    if a != [] {
      if i :| 0 <= i < |a| && a[i] != a[0] {
        assert a[i] in b && a[0] in b;
        assert b[0] != a[i] || b[0] != a[0];
      }
      if i :| 0 <= i < |b| && b[i] != b[0] {
        assert b[i] in a && b[0] in a;
        assert a[0] != b[i] || a[0] != b[0];
      }
    }
  }

  /** The graph rows decide as a set: neither their order nor a repeated row matters. */
  lemma DecisionIgnoresGraphOrder(rows: seq<GraphRow>, rows': seq<GraphRow>, id: PyVal,
                                  store: StoreName, meta: Option<Meta>, partition: Option<string>,
                                  doc: Option<DocEntry>, allow: bool)
    requires Elements(rows) == Elements(rows')
    ensures Decide(store, meta, partition, GraphEntryOf(rows, id), doc, allow)
         == Decide(store, meta, partition, GraphEntryOf(rows', id), doc, allow)
  {
    forall f
      ensures f in FactsOf(rows, id) <==> f in FactsOf(rows', id)
    {
      FactsMembership(rows, id, f);
      FactsMembership(rows', id, f);
      forall r
        ensures r in rows <==> r in rows'
      {
        assert r in rows <==> r in Elements(rows);
        assert r in rows' <==> r in Elements(rows');
      }
    }
    EntriesOfSameFacts(FactsOf(rows, id), FactsOf(rows', id));
  }

  // --------------------------------------------------------------- the stores

  /** A document or vector record; documents have no partition. */
  datatype Row = Row(id: PyVal, partition: Option<string>, column: Column, rest: string)

  /** What decisions are taken from: the graph rows, the document rows and --allow-pack-missing. */
  datatype Context = Context(graph: seq<GraphRow>, docs: seq<Row>, allow: bool)

  function DocDecision(c: Context, row: Row): Decision {
    Decide(DocStore, ParseMeta(row.column), None, GraphEntryOf(c.graph, row.id), None, c.allow)
  }

  function EntryOfDoc(c: Context, row: Row): DocEntry {
    DocEntryOf(ParseMeta(row.column), DocDecision(c, row))
  }

  /** The document entry of an id: the last row with that id wins. */
  function DocEntryAmong(c: Context, docs: seq<Row>, id: PyVal): Option<DocEntry> {
    if docs == [] then None
    else if PyEq(docs[|docs| - 1].id, id) then Some(EntryOfDoc(c, docs[|docs| - 1]))
    else DocEntryAmong(c, docs[..|docs| - 1], id)
  }

  function Judge(c: Context, store: StoreName, row: Row): Decision {
    match store
    case DocStore => DocDecision(c, row)
    case VectorStore =>
      Decide(VectorStore, ParseMeta(row.column), row.partition,
             GraphEntryOf(c.graph, row.id), DocEntryAmong(c, c.docs, row.id), c.allow)
  }

  predicate SqliteRows(rows: seq<Row>) {
    forall r :: r in rows ==> FromSqlite(r.id)
  }

  function Decisions(c: Context, store: StoreName, rows: seq<Row>): seq<Decision> {
    seq(|rows|, i requires 0 <= i < |rows| => Judge(c, store, rows[i]))
  }

  /** scan: the in-memory dry run, one dictionary for each side. */
  method Scan(c: Context, vectors: seq<Row>) returns (docDecisions: seq<Decision>, vectorDecisions: seq<Decision>)
    requires SqliteIds(c.graph) && SqliteRows(c.docs)
    ensures docDecisions == Decisions(c, DocStore, c.docs)
    ensures vectorDecisions == Decisions(c, VectorStore, vectors)
  {
    var graph := BuildGraphMap(c.graph);
    var docs: PyDict<DocEntry> := [];
    docDecisions := [];
    for n := 0 to |c.docs|
      invariant docDecisions == Decisions(c, DocStore, c.docs[..n])
      invariant forall id :: Find(docs, id) == DocEntryAmong(c, c.docs[..n], id)
    {
      var row := c.docs[n];
      ghost var docs0, scanned := docs, c.docs[..n + 1];
      var meta := ParseMeta(row.column);
      var d := Decide(DocStore, meta, None, Find(graph, row.id), None, c.allow);
      docs := Put(docs, row.id, DocEntryOf(meta, d));
      docDecisions := docDecisions + [d];
      assert c.docs[..n + 1][..n] == c.docs[..n];
      forall id
        ensures Find(docs, id) == DocEntryAmong(c, scanned, id)
      {
        PutThenFind(docs0, row.id, DocEntryOf(meta, d), id);
      }
    }
    assert c.docs[..|c.docs|] == c.docs;
    vectorDecisions := [];
    for n := 0 to |vectors|
      invariant vectorDecisions == Decisions(c, VectorStore, vectors[..n])
    {
      var row := vectors[n];
      var d := Decide(VectorStore, ParseMeta(row.column), row.partition, Find(graph, row.id), Find(docs, row.id), c.allow);
      vectorDecisions := vectorDecisions + [d];
    }
    assert vectors[..|vectors|] == vectors;
  }

  /** The two lookup tables of the private state file. */
  datatype Tables = Tables(graph: map<Code, GraphEntry>, docs: map<Code, DocEntry>)

  /** The tables answer for every stored identifier what the rows say. */
  ghost predicate Faithful(t: Tables, c: Context) {
    forall id :: FromSqlite(id) ==>
      && Lookup(t.graph, ResolverKey(id)) == GraphEntryOf(c.graph, id)
      && Lookup(t.docs, ResolverKey(id)) == DocEntryAmong(c, c.docs, id)
  }

  function DecideBy(t: Tables, store: StoreName, row: Row, allow: bool): Decision {
    var key := ResolverKey(row.id);
    Decide(store, ParseMeta(row.column), row.partition, Lookup(t.graph, key),
           if store.DocStore? then None else Lookup(t.docs, key), allow)
  }

  /** Deciding through the tables is deciding through the dictionaries. */
  lemma TablesDecideAlike(t: Tables, c: Context, store: StoreName, row: Row)
    requires Faithful(t, c) && FromSqlite(row.id) && (store.DocStore? ==> row.partition.None?)
    ensures DecideBy(t, store, row, c.allow) == Judge(c, store, row)
  {
  }

  /** The resolver part of _scan_apply_state. */
  method ScanTables(c: Context) returns (t: Tables)
    requires SqliteIds(c.graph) && SqliteRows(c.docs)
    ensures Faithful(t, c)
  {
    var graph := ScanGraph(c.graph);
    var docs: map<Code, DocEntry> := map[];
    for n := 0 to |c.docs|
      invariant forall id :: FromSqlite(id) ==> Lookup(docs, ResolverKey(id)) == DocEntryAmong(c, c.docs[..n], id)
    {
      var row := c.docs[n];
      assert row in c.docs;
      var key, meta := ResolverKey(row.id), ParseMeta(row.column);
      var d := Decide(DocStore, meta, None, Lookup(graph, key), None, c.allow);
      docs := docs[key := DocEntryOf(meta, d)];
      assert c.docs[..n + 1][..n] == c.docs[..n];
      forall id | FromSqlite(id)
        ensures Lookup(docs, ResolverKey(id)) == DocEntryAmong(c, c.docs[..n + 1], id)
      {
        ResolverKeyIsEquality(row.id, id);
      }
    }
    assert c.docs[..|c.docs|] == c.docs;
    t := Tables(graph, docs);
  }

  // ------------------------------------------------------------ valid entries

  lemma {:induction false} GraphSpacesAreValid(rows: seq<GraphRow>, id: PyVal)
    ensures forall f :: f in FactsOf(rows, id) && f.space.Some? ==> ValidSpace(f.space.value)
  {
    if rows != [] { GraphSpacesAreValid(rows[..|rows| - 1], id); }
  }

  lemma {:induction false} DocSpacesAreValid(c: Context, docs: seq<Row>, id: PyVal)
    ensures GoodEntries(GraphEntryOf(c.graph, id), DocEntryAmong(c, docs, id))
  {
    GraphSpacesAreValid(c.graph, id);
    if docs != [] {
      var last := docs[|docs| - 1];
      GraphSpacesAreValid(c.graph, last.id);
      DecidedSpaceIsValid(DocStore, ParseMeta(last.column), None, GraphEntryOf(c.graph, last.id), None, c.allow);
      DocSpacesAreValid(c, docs[..|docs| - 1], id);
    }
  }

  /** Every decision on stored rows gives a valid space or none. */
  lemma JudgedSpaceIsValid(c: Context, store: StoreName, row: Row)
    ensures var d := Judge(c, store, row);
      && (d.space.Some? <==> !d.cls.Holds())
      && (d.space.Some? ==> ValidSpace(d.space.value))
  {
    DocSpacesAreValid(c, c.docs, row.id);
    match store {
      case DocStore =>
        DecidedSpaceIsValid(store, ParseMeta(row.column), None, GraphEntryOf(c.graph, row.id), None, c.allow);
      case VectorStore =>
        DecidedSpaceIsValid(store, ParseMeta(row.column), row.partition, GraphEntryOf(c.graph, row.id),
                            DocEntryAmong(c, c.docs, row.id), c.allow);
    }
  }
}
