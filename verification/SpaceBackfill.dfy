/**
 * The write phase of the backfill: plan rows are written in batches that may stop or be
 * killed anywhere, and a rerun continues. All orders, sizes and stops meet in one final state.
 */
module SpaceBackfill {
  import opened Basics
  import opened PythonValues
  import opened SpaceDecision
  import opened SpaceResolver

  // --------------------------------------------------------------- plan rows

  datatype Item = Item(raw: Code, partition: Option<string>, space: string, cls: Class)

  /** The plan row the scan writes for a record, if it writes one. */
  function ItemOf(c: Context, store: StoreName, row: Row): Option<Item> {
    var d := Judge(c, store, row);
    if d.cls.Applies() && d.space.Some? then Some(Item(RawIdentity(row.id), row.partition, d.space.value, d.cls)) else None
  }

  /** A record the tool can write: SQL never matches a NULL id, and the metadata must dump. */
  predicate Writable(row: Row) {
    !row.id.PyNone? && ParseMeta(row.column).Some? && ParseMeta(row.column).value.dumps
  }

  function Filled(row: Row, space: string): Row {
    match ParseMeta(row.column)
    case Some(m) => row.(column := Object(WithSpace(m, space)))
    case None => row
  }

  /** What a record is in the end: with its planned space if it has one and can be written. */
  function Target(c: Context, store: StoreName, row: Row): Row {
    match ItemOf(c, store, row)
    case Some(item) => if Writable(row) then Filled(row, item.space) else row
    case None => row
  }

  function RowAfter(c: Context, store: StoreName, row: Row, items: set<Item>): Row {
    if ItemOf(c, store, row).Some? && ItemOf(c, store, row).value in items then Target(c, store, row) else row
  }

  /** The rows once exactly the given plan rows have been dealt with. */
  function Written(c: Context, store: StoreName, rows: seq<Row>, items: set<Item>): seq<Row> {
    seq(|rows|, i requires 0 <= i < |rows| => RowAfter(c, store, rows[i], items))
  }

  function AllWritten(c: Context, store: StoreName, rows: seq<Row>): seq<Row> {
    seq(|rows|, i requires 0 <= i < |rows| => Target(c, store, rows[i]))
  }

  /** The plan, in scan order. */
  function PlanOf(c: Context, store: StoreName, rows: seq<Row>): seq<Item> {
    if rows == [] then []
    else
      PlanOf(c, store, rows[..|rows| - 1])
      + match ItemOf(c, store, rows[|rows| - 1]) case Some(item) => [item] case None => []
  }

  predicate HasValidSpace(row: Row) {
    ParseMeta(row.column).Some? && ValueKind(Get(ParseMeta(row.column).value, "space")).0.Some?
  }

  function NoValid(rows: seq<Row>): nat {
    if rows == [] then 0
    else NoValid(rows[..|rows| - 1]) + if HasValidSpace(rows[|rows| - 1]) then 0 else 1
  }

  // ------------------------------------------------------- one record written

  lemma FilledIsSkipped(c: Context, store: StoreName, row: Row, space: string)
    requires ParseMeta(row.column).Some? && ValidSpace(space)
    ensures Judge(c, store, Filled(row, space)) == Decision(SkipValid, Some(space))
    ensures HasValidSpace(Filled(row, space))
  {
    var m := ParseMeta(row.column).value;
    var filled := Filled(row, space);
    assert ParseMeta(filled.column) == Some(WithSpace(m, space));
    match store {
      case DocStore => WrittenIsSkipped(m, space, store, None, GraphEntryOf(c.graph, row.id), None, c.allow);
      case VectorStore =>
        WrittenIsSkipped(m, space, store, row.partition, GraphEntryOf(c.graph, row.id),
                         DocEntryAmong(c, c.docs, row.id), c.allow);
    }
  }

  /** Only records with a readable object and no valid space are planned. */
  lemma PlannedLacksSpace(c: Context, store: StoreName, row: Row)
    ensures ItemOf(c, store, row).Some? ==>
      && ParseMeta(row.column).Some? && !HasValidSpace(row)
      && ValidSpace(ItemOf(c, store, row).value.space)
      && Judge(c, store, row) == Decision(ItemOf(c, store, row).value.cls, Some(ItemOf(c, store, row).value.space))
  {
    JudgedSpaceIsValid(c, store, row);
  }

  /** A written record is skipped by any later run, with the space it was given. */
  lemma TargetIsSettled(c: Context, c': Context, store: StoreName, row: Row)
    requires ItemOf(c, store, row).Some? && Writable(row)
    ensures var t := Target(c, store, row);
      && Judge(c', store, t) == Decision(SkipValid, Some(ItemOf(c, store, row).value.space))
      && ItemOf(c', store, t).None?
      && HasValidSpace(t) && !HasValidSpace(row)
      && t == Filled(row, ItemOf(c, store, row).value.space)
  {
    hide Decide;
    PlannedLacksSpace(c, store, row);
    FilledIsSkipped(c', store, row, ItemOf(c, store, row).value.space);
  }

  lemma TargetTwice(c: Context, store: StoreName, row: Row)
    ensures Target(c, store, Target(c, store, row)) == Target(c, store, row)
  {
    if ItemOf(c, store, row).Some? && Writable(row) {
      TargetIsSettled(c, c, store, row);
    }
  }

  lemma RowAfterTwice(c: Context, store: StoreName, row: Row, a: set<Item>, b: set<Item>)
    ensures RowAfter(c, store, RowAfter(c, store, row, a), b) == RowAfter(c, store, row, a + b)
    ensures Target(c, store, RowAfter(c, store, row, a)) == Target(c, store, row)
  {
    hide Judge, Filled;
    TargetTwice(c, store, row);
    if ItemOf(c, store, row).Some? && Writable(row) {
      TargetIsSettled(c, c, store, row);
    }
  }

  /** Writing some plan rows now and the rest later is writing all of them. */
  lemma WrittenCompose(c: Context, store: StoreName, rows: seq<Row>, a: set<Item>, b: set<Item>)
    ensures Written(c, store, Written(c, store, rows, a), b) == Written(c, store, rows, a + b)
    ensures AllWritten(c, store, Written(c, store, rows, a)) == AllWritten(c, store, rows)
  {
    hide RowAfter, Target;
    forall i | 0 <= i < |rows|
      ensures Written(c, store, Written(c, store, rows, a), b)[i] == Written(c, store, rows, a + b)[i]
      ensures Target(c, store, Written(c, store, rows, a)[i]) == Target(c, store, rows[i])
    {
      RowAfterTwice(c, store, rows[i], a, b);
    }
  }

  lemma {:induction false} PlanCoversRows(c: Context, store: StoreName, rows: seq<Row>, i: nat)
    requires i < |rows| && ItemOf(c, store, rows[i]).Some?
    ensures ItemOf(c, store, rows[i]).value in PlanOf(c, store, rows)
  {
    if i < |rows| - 1 { PlanCoversRows(c, store, rows[..|rows| - 1], i); }
  }

  lemma WholePlanWritesAll(c: Context, store: StoreName, rows: seq<Row>)
    ensures Written(c, store, rows, Elements(PlanOf(c, store, rows))) == AllWritten(c, store, rows)
  {
    forall i | 0 <= i < |rows| && ItemOf(c, store, rows[i]).Some?
      ensures ItemOf(c, store, rows[i]).value in Elements(PlanOf(c, store, rows))
    {
      PlanCoversRows(c, store, rows, i);
    }
  }

  // -------------------------------------------- the context survives the writes

  /** Decisions of two contexts agree on every record. */
  ghost predicate SameJudge(a: Context, b: Context) {
    forall store, row :: Judge(a, store, row) == Judge(b, store, row)
  }

  /** A written document shows vectors the same pack and the same space as before. */
  lemma EntrySurvives(c: Context, row: Row)
    ensures EntryOfDoc(c, Target(c, DocStore, row)) == EntryOfDoc(c, row)
  {
    hide Decide;
    if ItemOf(c, DocStore, row).Some? && Writable(row) {
      TargetIsSettled(c, c, DocStore, row);
      PlannedLacksSpace(c, DocStore, row);
      var m, space := ParseMeta(row.column).value, ItemOf(c, DocStore, row).value.space;
      WrittenIsSkipped(m, space, DocStore, None, None, None, c.allow);
    }
  }

  /** Writing planned documents changes no document entry. */
  lemma {:induction false} EntriesSurvive(c: Context, docs: seq<Row>, docs': seq<Row>, id: PyVal)
    requires |docs| == |docs'|
    requires forall i :: 0 <= i < |docs| ==> docs'[i] == docs[i] || docs'[i] == Target(c, DocStore, docs[i])
    ensures DocEntryAmong(c, docs', id) == DocEntryAmong(c, docs, id)
  {
    hide Decide;
    if docs != [] {
      var n := |docs| - 1;
      EntriesSurvive(c, docs[..n], docs'[..n], id);
      EntrySurvives(c, docs[n]);
    }
  }

  lemma {:induction false} OnlyTheRowsMatter(c: Context, c': Context, docs: seq<Row>, id: PyVal)
    requires c.graph == c'.graph && c.allow == c'.allow
    ensures DocEntryAmong(c', docs, id) == DocEntryAmong(c, docs, id)
  {
    if docs != [] { OnlyTheRowsMatter(c, c', docs[..|docs| - 1], id); }
  }

  /** No record's decision changes because other records were written, vectors paired with a document included. */
  lemma WritesChangeNoDecision(c: Context, docs': seq<Row>)
    requires |docs'| == |c.docs|
    requires forall i :: 0 <= i < |docs'| ==> docs'[i] == c.docs[i] || docs'[i] == Target(c, DocStore, c.docs[i])
    ensures SameJudge(c, c.(docs := docs'))
  {
    forall store, row
      ensures Judge(c, store, row) == Judge(c.(docs := docs'), store, row)
    {
      EntriesSurvive(c, c.docs, docs', row.id);
      OnlyTheRowsMatter(c, c.(docs := docs'), docs', row.id);
    }
  }

  lemma SameJudgeSameTarget(a: Context, b: Context, store: StoreName, rows: seq<Row>)
    requires SameJudge(a, b)
    ensures AllWritten(a, store, rows) == AllWritten(b, store, rows)
  {
    forall i | 0 <= i < |rows|
      ensures AllWritten(a, store, rows)[i] == AllWritten(b, store, rows)[i]
    {
      assert Judge(a, store, rows[i]) == Judge(b, store, rows[i]);
    }
  }

  // --------------------------------------------- which space a record ends with

  /** A record that can be written, has these metadata and no valid space in them. */
  ghost predicate Open(row: Row, fields: map<string, Value>) {
    && !row.id.PyNone?
    && (row.column == Object(Meta(fields, true)) || (fields == map[] && row.column in {SqlNull, EmptyText}))
    && !("space" in fields && fields["space"].VStr? && ValidSpace(fields["space"].s))
  }

  /** The pack the metadata name, empty for a missing or null one. */
  predicate InPack(fields: map<string, Value>, pack: string) {
    if "pack_id" in fields && fields["pack_id"] != VNull then fields["pack_id"] == VStr(pack) else pack == ""
  }

  predicate EndsWith(row: Row, fields: map<string, Value>, space: string) {
    row.column == Object(Meta(fields["space" := VStr(space)], true))
  }

  /** A graph row with readable properties, whose valid property or else valid column is the space. */
  predicate RowSays(g: GraphRow, space: string, pack: Option<string>) {
    && g.props.Object? && ValidSpace(space)
    && var own := Get(g.props.meta, "space");
    && (own == VStr(space) || (!(own.VStr? && ValidSpace(own.s)) && g.spaceColumn == VStr(space)))
    && pack == (match Get(g.props.meta, "pack_id") case VStr(s) => (if s == "" then None else Some(s)) case _ => None)
  }

  /** The graph has rows of the id and they all say the same. */
  ghost predicate GraphSays(graph: seq<GraphRow>, id: PyVal, space: string, pack: Option<string>) {
    && (exists g :: g in graph && PyEq(g.id, id))
    && forall g :: g in graph && PyEq(g.id, id) ==> RowSays(g, space, pack)
  }

  /** Both name a pack and it is the same; or one names none and --allow-pack-missing was given. */
  predicate PacksFit(pack: string, graphPack: Option<string>, allow: bool) {
    if pack == "" || graphPack.None? then allow else graphPack == Some(pack)
  }

  /** With rows in the graph, a record gets the space they all say if the packs fit, and is left alone otherwise. */
  ghost predicate SettledByGraph(c: Context, row: Row, row': Row, fields: map<string, Value>, pack: string) {
    && (forall space, graphPack :: GraphSays(c.graph, row.id, space, graphPack) && PacksFit(pack, graphPack, c.allow) ==>
          EndsWith(row', fields, space))
    && (row' != row ==> exists space, graphPack :: GraphSays(c.graph, row.id, space, graphPack) && PacksFit(pack, graphPack, c.allow))
  }

  /** How a document ends: without a row in the graph it is evidence. */
  ghost predicate DocumentSettled(c: Context, row: Row, row': Row) {
    forall fields: map<string, Value>, pack: string :: Open(row, fields) && InPack(fields, pack) ==>
      if forall g :: g in c.graph ==> !PyEq(g.id, row.id) then EndsWith(row', fields, "evidence")
      else SettledByGraph(c, row, row', fields, pack)
  }

  /**
   * How a vector of the partition its metadata name ends: by the graph; else like the document of its
   * id, if that has the same pack and a space; else, with neither, as evidence if it names a source.
   */
  ghost predicate VectorSettled(c: Context, row: Row, row': Row) {
    forall fields: map<string, Value>, pack: string ::
      Open(row, fields) && InPack(fields, pack) && pack == (if row.partition.Some? then row.partition.value else "") ==>
      if exists g :: g in c.graph && PyEq(g.id, row.id) then SettledByGraph(c, row, row', fields, pack)
      else if exists d :: d in c.docs && PyEq(d.id, row.id) then
        exists d :: d in c.docs && PyEq(d.id, row.id)
          && var space := Judge(c, DocStore, d).space;
             if PackOf(ParseMeta(d.column)) == PackIs(pack) && space.Some? then EndsWith(row', fields, space.value) else row' == row
      else if "source_id" in fields && fields["source_id"].VStr? && fields["source_id"].s != "" then EndsWith(row', fields, "evidence")
      else row' == row
  }

  lemma OpenReads(row: Row, fields: map<string, Value>, pack: string)
    requires Open(row, fields) && InPack(fields, pack)
    ensures ParseMeta(row.column) == Some(Meta(fields, true)) && Writable(row)
    ensures ValueKind(Get(Meta(fields, true), "space")).0.None? && PackOf(ParseMeta(row.column)) == PackIs(pack)
  {
    PackExactly(ParseMeta(row.column), pack);
  }

  lemma RowSaysExactly(g: GraphRow, space: string, pack: Option<string>)
    ensures RowSays(g, space, pack) <==> FactOf(g) == GraphFact(false, Some(space), pack)
  {
    GraphSpaceOf(g, space);
    if FactOf(g).pack.Some? { GraphSpaceOf(g, FactOf(g).pack.value); }
    if pack.Some? { GraphSpaceOf(g, pack.value); }
  }

  lemma GraphSaysExactly(graph: seq<GraphRow>, id: PyVal, space: string, pack: Option<string>)
    ensures GraphSays(graph, id, space, pack) <==> GraphEntryOf(graph, id) == Some(GraphEntry(GraphFact(false, Some(space), pack), false))
  {
    EntryByRows(graph, id, GraphFact(false, Some(space), pack));
    hide RowSays, FactOf;
    forall g
      ensures RowSays(g, space, pack) <==> FactOf(g) == GraphFact(false, Some(space), pack)
    {
      RowSaysExactly(g, space, pack);
    }
  }

  /** A decided record that can be written ends with the decided space. */
  lemma EndsAsDecided(c: Context, store: StoreName, row: Row, fields: map<string, Value>)
    requires Open(row, fields) && ParseMeta(row.column) == Some(Meta(fields, true)) && Writable(row)
    ensures var d, t := Judge(c, store, row), Target(c, store, row);
      if d.cls.Applies() && d.space.Some? then EndsWith(t, fields, d.space.value) && t != row else t == row
  {
    hide Judge;
    var d := Judge(c, store, row);
    if d.cls.Applies() && d.space.Some? {
      JudgedSpaceIsValid(c, store, row);
      assert Get(Meta(fields["space" := VStr(d.space.value)], true), "space") == VStr(d.space.value);
    }
  }

  lemma GraphSettles(c: Context, store: StoreName, row: Row, fields: map<string, Value>, pack: string)
    requires Open(row, fields) && InPack(fields, pack) && GraphEntryOf(c.graph, row.id).Some?
    requires store.VectorStore? ==> pack == if row.partition.Some? then row.partition.value else ""
    ensures SettledByGraph(c, row, Target(c, store, row), fields, pack)
  {
    OpenReads(row, fields, pack);
    EndsAsDecided(c, store, row, fields);
    var g := GraphEntryOf(c.graph, row.id);
    var doc := if store.DocStore? then None else DocEntryAmong(c, c.docs, row.id);
    DecisionTable(store, ParseMeta(row.column), if store.DocStore? then None else row.partition, g, doc, c.allow);
    hide Decide, EndsWith, Target, GraphEntryOf, GraphSays, PackOf;
    forall space, graphPack
      ensures GraphSays(c.graph, row.id, space, graphPack) <==> g == Some(GraphEntry(GraphFact(false, Some(space), graphPack), false))
    {
      GraphSaysExactly(c.graph, row.id, space, graphPack);
    }
    var f := g.value.fact;
    if Target(c, store, row) != row {
      assert GraphSays(c.graph, row.id, f.space.value, f.pack);
    }
  }

  lemma DocumentSettles(c: Context, row: Row)
    ensures DocumentSettled(c, row, Target(c, DocStore, row))
  {
    EntryByRows(c.graph, row.id, GraphFact(false, None, None));
    forall fields: map<string, Value>, pack: string | Open(row, fields) && InPack(fields, pack)
      ensures if forall g :: g in c.graph ==> !PyEq(g.id, row.id) then EndsWith(Target(c, DocStore, row), fields, "evidence")
        else SettledByGraph(c, row, Target(c, DocStore, row), fields, pack)
    {
      if GraphEntryOf(c.graph, row.id).Some? {
        GraphSettles(c, DocStore, row, fields, pack);
      } else {
        OpenReads(row, fields, pack);
        EndsAsDecided(c, DocStore, row, fields);
        DecisionTable(DocStore, ParseMeta(row.column), None, None, None, c.allow);
      }
    }
  }

  lemma {:induction false} PairedDocument(c: Context, docs: seq<Row>, id: PyVal) returns (at: Option<Row>)
    ensures at.None? ==> DocEntryAmong(c, docs, id) == None && forall d :: d in docs ==> !PyEq(d.id, id)
    ensures at.Some? ==> at.value in docs && PyEq(at.value.id, id) && DocEntryAmong(c, docs, id) == Some(EntryOfDoc(c, at.value))
  {
    at := None;
    if docs != [] {
      var n := |docs| - 1;
      assert docs == docs[..n] + [docs[n]];
      if PyEq(docs[n].id, id) { return Some(docs[n]); }
      at := PairedDocument(c, docs[..n], id);
    }
  }

  lemma VectorSettles(c: Context, row: Row)
    ensures VectorSettled(c, row, Target(c, VectorStore, row))
  {
    EntryByRows(c.graph, row.id, GraphFact(false, None, None));
    var at := PairedDocument(c, c.docs, row.id);
    if at.Some? { JudgedSpaceIsValid(c, DocStore, at.value); }
    var t := Target(c, VectorStore, row);
    forall fields: map<string, Value>, pack: string |
      Open(row, fields) && InPack(fields, pack) && pack == (if row.partition.Some? then row.partition.value else "")
      ensures VectorSettledAs(c, row, t, fields, pack, at)
    {
      if GraphEntryOf(c.graph, row.id).Some? {
        GraphSettles(c, VectorStore, row, fields, pack);
      } else {
        OpenReads(row, fields, pack);
        EndsAsDecided(c, VectorStore, row, fields);
        DecisionTable(VectorStore, ParseMeta(row.column), row.partition, None, DocEntryAmong(c, c.docs, row.id), c.allow);
      }
    }
    hide GraphEntryOf, SettledByGraph, Judge, EndsWith, Target, Open, InPack, PackOf;
    if at.Some? { assert at.value in c.docs && PyEq(at.value.id, row.id); }
  }

  ghost predicate VectorSettledAs(c: Context, row: Row, row': Row, fields: map<string, Value>, pack: string, at: Option<Row>) {
    if GraphEntryOf(c.graph, row.id).Some? then SettledByGraph(c, row, row', fields, pack)
    else if at.Some? then
      var space := Judge(c, DocStore, at.value).space;
      if PackOf(ParseMeta(at.value.column)) == PackIs(pack) && space.Some? then EndsWith(row', fields, space.value) else row' == row
    else if "source_id" in fields && fields["source_id"].VStr? && fields["source_id"].s != "" then EndsWith(row', fields, "evidence")
    else row' == row
  }

  /** Every record of a store has ended as the table says. */
  ghost predicate AllSettled(c: Context, docs: seq<Row>, docs': seq<Row>, vectors: seq<Row>, vectors': seq<Row>) {
    && |docs'| == |docs| && (forall i :: 0 <= i < |docs| ==> DocumentSettled(c, docs[i], docs'[i]))
    && |vectors'| == |vectors| && (forall i :: 0 <= i < |vectors| ==> VectorSettled(c, vectors[i], vectors'[i]))
  }

  lemma WrittenIsSettled(c: Context, docs: seq<Row>, vectors: seq<Row>)
    ensures AllSettled(c, docs, AllWritten(c, DocStore, docs), vectors, AllWritten(c, VectorStore, vectors))
  {
    hide DocumentSettled, VectorSettled, Target;
    forall i | 0 <= i < |docs|
      ensures DocumentSettled(c, docs[i], AllWritten(c, DocStore, docs)[i])
    {
      DocumentSettles(c, docs[i]);
    }
    forall i | 0 <= i < |vectors|
      ensures VectorSettled(c, vectors[i], AllWritten(c, VectorStore, vectors)[i])
    {
      VectorSettles(c, vectors[i]);
    }
  }

  // -------------------------------------------------------------- SQL on rows

  /** Identifiers come from SQLite, and a primary key tells all but NULL ones apart. */
  ghost predicate Keyed(rows: seq<Row>, store: StoreName) {
    && SqliteRows(rows)
    && (forall i, j :: 0 <= i < j < |rows| && !rows[i].id.PyNone? ==> !PyEq(rows[i].id, rows[j].id))
    && (store.DocStore? ==> forall r :: r in rows ==> r.partition.None?)
  }

  /** SELECT ... WHERE id = ?. */
  function Fetch(rows: seq<Row>, id: PyVal): (at: Option<nat>)
    ensures at.Some? ==> at.value < |rows| && PyEq(rows[at.value].id, id)
    ensures at.None? ==> forall i :: 0 <= i < |rows| ==> !PyEq(rows[i].id, id)
  {
    if rows == [] then None
    else if PyEq(rows[|rows| - 1].id, id) then Some(|rows| - 1)
    else Fetch(rows[..|rows| - 1], id)
  }

  predicate Hit(row: Row, id: PyVal, partition: Option<string>) {
    !row.id.PyNone? && PyEq(row.id, id) && row.partition == partition
  }

  /** UPDATE ... SET metadata = ? WHERE id = ? AND pack_id IS ?. */
  function Update(rows: seq<Row>, id: PyVal, partition: Option<string>, column: Column): seq<Row> {
    seq(|rows|, i requires 0 <= i < |rows| => if Hit(rows[i], id, partition) then rows[i].(column := column) else rows[i])
  }

  /** The UPDATE changes exactly the row that was re-read, so its row count is always one. */
  lemma UpdateHitsOneRow(rows: seq<Row>, store: StoreName, at: nat, id: PyVal, column: Column)
    requires Keyed(rows, store) && at < |rows| && rows[at].id == id && !id.PyNone?
    ensures Update(rows, id, rows[at].partition, column) == rows[at := rows[at].(column := column)]
    ensures (set i | 0 <= i < |rows| && Hit(rows[i], id, rows[at].partition)) == {at}
  {
    assert rows[at] in rows;
    forall i | 0 <= i < |rows| && i != at
      ensures !Hit(rows[i], id, rows[at].partition)
    {
      assert rows[i] in rows;
      PyEqIsEquivalence(rows[i].id, id, id);
    }
    PyEqIsEquivalence(id, id, id);
  }

  lemma {:induction false} NoValidUpdate(rows: seq<Row>, at: nat, row: Row)
    requires at < |rows| && HasValidSpace(row) && !HasValidSpace(rows[at])
    ensures NoValid(rows[at := row]) == NoValid(rows) - 1
  {
    var n := |rows| - 1;
    if at < n {
      NoValidUpdate(rows[..n], at, row);
      assert rows[at := row][..n] == rows[..n][at := row];
    } else {
      assert rows[at := row][..n] == rows[..n];
    }
  }

  // ------------------------------------------------------------ one plan row

  /** A plan row spells an identifier that SQLite returned, and plans a write. */
  ghost predicate Spelled(item: Item) {
    item.cls.Applies() && exists id :: FromSqlite(id) && item.raw == RawIdentity(id)
  }

  /** A record still carries the plan row and can be written. */
  ghost predicate Awaits(c: Context, store: StoreName, row: Row, item: Item) {
    ItemOf(c, store, row) == Some(item) && Writable(row)
  }

  ghost predicate CannotDump(c: Context, store: StoreName, row: Row, item: Item) {
    ItemOf(c, store, row) == Some(item) && !row.id.PyNone? && !Writable(row)
  }

  lemma StoredIsNoBool(id: PyVal)
    requires FromSqlite(id)
    ensures !id.PyBool? && (RawIdentity(id).tag == TNull <==> id.PyNone?)
  {
  }

  lemma ItemSpellsId(c: Context, store: StoreName, row: Row)
    ensures ItemOf(c, store, row).Some? ==> ItemOf(c, store, row).value.raw == RawIdentity(row.id)
  {
    hide Decide, Judge, RawIdentity;
  }

  /** The key comparison of SQLite finds the one row that has a non-NULL identifier. */
  lemma FetchFinds(rows: seq<Row>, store: StoreName, i: nat)
    requires Keyed(rows, store) && i < |rows| && !rows[i].id.PyNone?
    ensures Fetch(rows, rows[i].id) == Some(i)
  {
    hide PyEq, FromSqlite, Fetch;
    assert rows[i] in rows;
    var id := rows[i].id;
    PyEqIsEquivalence(id, id, id);
    PyEqIsEquivalence(rows[Fetch(rows, id).value].id, id, id);
    NoneEqualsNone(rows[Fetch(rows, id).value].id, id);
  }

  lemma NoneEqualsNone(a: PyVal, b: PyVal)
    requires PyEq(a, b)
    ensures a.PyNone? <==> b.PyNone?
  {
  }

  lemma MatchIsFetched(c: Context, store: StoreName, rows: seq<Row>, item: Item, i: nat)
    requires Keyed(rows, store) && i < |rows| && ItemOf(c, store, rows[i]) == Some(item) && item.raw.tag != TNull
    ensures RawValue(item.raw) == Some(rows[i].id) && Fetch(rows, rows[i].id) == Some(i)
  {
    hide ItemOf, PyEq, Fetch, RawValue, RawIdentity;
    assert rows[i] in rows;
    ItemSpellsId(c, store, rows[i]);
    StoredIsNoBool(rows[i].id);
    RawRoundTrip(rows[i].id);
    FetchFinds(rows, store, i);
  }

  /** Where no record awaits the plan row, dealing with it changes nothing. */
  lemma NobodyAwaits(c: Context, store: StoreName, rows: seq<Row>, item: Item)
    requires forall i :: 0 <= i < |rows| ==> !Awaits(c, store, rows[i], item)
    ensures Written(c, store, rows, {item}) == rows
  {
  }

  /** Where one record does, it alone changes. */
  lemma OneAwaits(c: Context, store: StoreName, rows: seq<Row>, item: Item, at: nat)
    requires Keyed(rows, store) && at < |rows| && Awaits(c, store, rows[at], item)
    ensures Written(c, store, rows, {item}) == rows[at := Filled(rows[at], item.space)]
  {
    forall i | 0 <= i < |rows| && Awaits(c, store, rows[i], item)
      ensures i == at
    {
      MatchIsFetched(c, store, rows, item, i);
      MatchIsFetched(c, store, rows, item, at);
    }
  }

  datatype Mark = Committed | SkippedChanged | SkippedUnserializable

  /** The loop body of _write_state_one_batch: re-read, decide again, update. */
  method WriteItem(rows: seq<Row>, store: StoreName, item: Item, t: Tables, c: Context) returns (rows': seq<Row>, mark: Mark)
    requires Keyed(rows, store) && Faithful(t, c) && Spelled(item)
    ensures rows' == Written(c, store, rows, {item})
    ensures mark.Committed? <==> exists i :: 0 <= i < |rows| && Awaits(c, store, rows[i], item)
    ensures mark.SkippedUnserializable? <==> exists i :: 0 <= i < |rows| && CannotDump(c, store, rows[i], item)
    ensures NoValid(rows') == NoValid(rows) - if mark.Committed? then 1 else 0
  {
    hide Decide, Judge, Fetch, ItemOf, Written, PyEq, FromSqlite, NoValid, RawIdentity, RawValue, ResolverKey;
    rows', mark := rows, SkippedChanged;
    ghost var id :| FromSqlite(id) && item.raw == RawIdentity(id);
    RawRoundTrip(id);
    StoredIsNoBool(id);
    var rid := RawValue(item.raw).value;
    if item.raw.tag == TNull {
      NullIsNeverWritten(c, store, rows, item);
      return;
    }
    var at := Fetch(rows, rid);
    if at.None? || RawIdentity(rows[at.value].id) != item.raw {
      FetchDecides(c, store, rows, item, id, at);
      NobodyAwaits(c, store, rows, item);
      return;
    }
    var row := rows[at.value];
    assert row in rows;
    RawIdentityIsExact(row.id, id);
    FetchDecides(c, store, rows, item, id, at);
    TablesDecideAlike(t, c, store, row);
    var now := DecideBy(t, store, row, c.allow);
    PlannedLacksSpace(c, store, row);
    ItemOfDecision(c, store, row, item);
    if now != Decision(item.cls, Some(item.space)) || row.partition != item.partition {
      NobodyAwaits(c, store, rows, item);
      return;
    }
    var meta := ParseMeta(row.column).value;
    if !meta.dumps {
      NobodyAwaits(c, store, rows, item);
      assert CannotDump(c, store, rows[at.value], item);
      mark := SkippedUnserializable;
      return;
    }
    assert Awaits(c, store, rows[at.value], item);
    OneAwaits(c, store, rows, item, at.value);
    UpdateHitsOneRow(rows, store, at.value, rid, Object(WithSpace(meta, item.space)));
    FilledIsSkipped(c, store, row, item.space);
    NoValidUpdate(rows, at.value, Filled(row, item.space));
    rows' := Update(rows, rid, row.partition, Object(WithSpace(meta, item.space)));
    mark := Committed;
  }

  /** A NULL identifier spells TNull, so its record is never writable. */
  lemma NullIsNeverWritten(c: Context, store: StoreName, rows: seq<Row>, item: Item)
    requires item.raw.tag == TNull
    ensures forall i :: 0 <= i < |rows| ==> !Awaits(c, store, rows[i], item) && !CannotDump(c, store, rows[i], item)
    ensures Written(c, store, rows, {item}) == rows
  {
  }

  /** Only the fetched record can carry the plan row, and only under its exact identity. */
  lemma FetchDecides(c: Context, store: StoreName, rows: seq<Row>, item: Item, id: PyVal, at: Option<nat>)
    requires Keyed(rows, store) && item.raw.tag != TNull
    requires FromSqlite(id) && item.raw == RawIdentity(id) && at == Fetch(rows, id)
    ensures forall i :: 0 <= i < |rows| && ItemOf(c, store, rows[i]) == Some(item) ==> at == Some(i)
    ensures at.Some? && RawIdentity(rows[at.value].id) != item.raw ==>
      forall i :: 0 <= i < |rows| ==> ItemOf(c, store, rows[i]) != Some(item)
  {
    hide Decide, Judge;
    RawRoundTrip(id);
    forall i | 0 <= i < |rows| && ItemOf(c, store, rows[i]) == Some(item)
      ensures at == Some(i) && RawIdentity(rows[i].id) == item.raw
    {
      MatchIsFetched(c, store, rows, item, i);
    }
  }

  /** Deciding the planned class and space again is still carrying the plan row. */
  lemma ItemOfDecision(c: Context, store: StoreName, row: Row, item: Item)
    requires RawIdentity(row.id) == item.raw && item.cls.Applies()
    ensures ItemOf(c, store, row) == Some(item)
       <==> Judge(c, store, row) == Decision(item.cls, Some(item.space)) && row.partition == item.partition
  {
  }

  // ------------------------------------------------------------- one batch

  lemma WrittenStaysKeyed(c: Context, store: StoreName, rows: seq<Row>, items: set<Item>)
    requires Keyed(rows, store)
    ensures Keyed(Written(c, store, rows, items), store)
  {
    var rows' := Written(c, store, rows, items);
    forall i | 0 <= i < |rows|
      ensures rows'[i].id == rows[i].id && rows'[i].partition == rows[i].partition && rows[i] in rows
    {
    }
  }

  lemma WrittenNothing(c: Context, store: StoreName, rows: seq<Row>)
    ensures Written(c, store, rows, {}) == rows
  {
  }

  lemma ElementsSnoc<T>(s: seq<T>, n: nat)
    requires n < |s|
    ensures Elements(s[..n + 1]) == Elements(s[..n]) + {s[n]}
  {
    assert s[..n + 1] == s[..n] + [s[n]];
  }

  /** Whoever awaits a plan row in the middle of a batch did so before it. */
  lemma AwaitedBefore(c: Context, store: StoreName, rows: seq<Row>, items: set<Item>, i: nat, item: Item)
    requires i < |rows| && Awaits(c, store, Written(c, store, rows, items)[i], item)
    ensures Awaits(c, store, rows[i], item)
  {
    if Awaits(c, store, rows[i], item) {
    } else if ItemOf(c, store, rows[i]).Some? && Writable(rows[i]) {
      TargetIsSettled(c, c, store, rows[i]);
    }
  }

  /** A plan row was committed for a record of the store. */
  ghost predicate CommittedFor(c: Context, store: StoreName, rows: seq<Row>, item: Item) {
    exists i :: 0 <= i < |rows| && Awaits(c, store, rows[i], item)
  }

  /** _write_state_one_batch, inside its transaction. */
  method WriteBatch(rows: seq<Row>, store: StoreName, batch: seq<Item>, t: Tables, c: Context)
    returns (rows': seq<Row>, marks: seq<Mark>, committed: seq<Item>)
    requires Keyed(rows, store) && Faithful(t, c) && forall item :: item in batch ==> Spelled(item)
    ensures rows' == Written(c, store, rows, Elements(batch))
    ensures |marks| == |batch|
    ensures NoValid(rows') == NoValid(rows) - |committed|
    ensures forall item :: item in committed ==> item in batch && CommittedFor(c, store, rows, item)
  {
    hide Written, Awaits, Keyed, Faithful, NoValid;
    rows', marks, committed := rows, [], [];
    WrittenNothing(c, store, rows);
    assert Elements(batch[..0]) == {};
    for n := 0 to |batch|
      invariant |marks| == n
      invariant rows' == Written(c, store, rows, Elements(batch[..n]))
      invariant NoValid(rows') == NoValid(rows) - |committed|
      invariant forall item :: item in committed ==> item in batch && CommittedFor(c, store, rows, item)
    {
      var mark;
      ghost var sofar := rows';
      WrittenStaysKeyed(c, store, rows, Elements(batch[..n]));
      rows', mark := WriteItem(rows', store, batch[n], t, c);
      CommittedBefore(c, store, rows, Elements(batch[..n]), batch[n]);
      marks := marks + [mark];
      if mark.Committed? { committed := committed + [batch[n]]; }
      ElementsSnoc(batch, n);
      WrittenCompose(c, store, rows, Elements(batch[..n]), {batch[n]});
    }
    assert batch[..|batch|] == batch;
  }

  lemma CommittedBefore(c: Context, store: StoreName, rows: seq<Row>, items: set<Item>, item: Item)
    ensures CommittedFor(c, store, Written(c, store, rows, items), item) ==> CommittedFor(c, store, rows, item)
  {
    var rows' := Written(c, store, rows, items);
    if i :| 0 <= i < |rows'| && Awaits(c, store, rows'[i], item) {
      AwaitedBefore(c, store, rows, items, i, item);
    }
  }

  // ---------------------------------------------------------------- one store

  class Files {
    var graph: seq<GraphRow>
    var docs: seq<Row>
    var vectors: seq<Row>

    constructor (graph: seq<GraphRow>, docs: seq<Row>, vectors: seq<Row>)
      ensures this.graph == graph && this.docs == docs && this.vectors == vectors
    {
      this.graph, this.docs, this.vectors := graph, docs, vectors;
    }

    ghost predicate Valid()
      reads this
    {
      SqliteIds(graph) && Keyed(docs, DocStore) && Keyed(vectors, VectorStore)
    }

    function Rows(store: StoreName): seq<Row>
      reads this
    {
      if store.DocStore? then docs else vectors
    }

    function Sight(allow: bool): Context
      reads this
    {
      Context(graph, docs, allow)
    }

    /** COMMIT of one store. */
    method Commit(store: StoreName, rows: seq<Row>)
      modifies this
      ensures graph == old(graph) && Rows(store) == rows
      ensures forall other :: other != store ==> Rows(other) == old(Rows(other))
    {
      if store.DocStore? { docs := rows; } else { vectors := rows; }
    }
  }

  /** The plan rows of one store, in scan order. */
  method MakePlan(rows: seq<Row>, store: StoreName, t: Tables, c: Context) returns (plan: seq<Item>)
    requires Keyed(rows, store) && Faithful(t, c)
    ensures plan == PlanOf(c, store, rows)
    ensures forall item :: item in plan ==> Spelled(item)
  {
    hide Decide, Judge;
    plan := [];
    for n := 0 to |rows|
      invariant plan == PlanOf(c, store, rows[..n])
      invariant forall item :: item in plan ==> Spelled(item)
    {
      var row := rows[n];
      assert row in rows && rows[..n + 1][..n] == rows[..n];
      TablesDecideAlike(t, c, store, row);
      PlannedLacksSpace(c, store, row);
      var d := DecideBy(t, store, row, c.allow);
      if d.cls.Applies() && d.space.Some? {
        plan := plan + [Item(RawIdentity(row.id), row.partition, d.space.value, d.cls)];
      }
    }
    assert rows[..|rows|] == rows;
  }

  lemma CommittedSoFar(c: Context, store: StoreName, rows0: seq<Row>, plan: seq<Item>, done: nat, end: nat, written: seq<Item>)
    requires done <= end <= |plan|
    requires forall item :: item in written ==>
      item in plan[done..end] && CommittedFor(c, store, Written(c, store, rows0, Elements(plan[..done])), item)
    ensures forall item :: item in written ==> item in plan[..end] && CommittedFor(c, store, rows0, item)
    ensures forall item :: item in plan[..done] ==> item in plan[..end]
  {
    hide CommittedFor, Written;
    assert plan[..end] == plan[..done] + plan[done..end];
    forall item | item in written
      ensures item in plan[..end] && CommittedFor(c, store, rows0, item)
    {
      CommittedBefore(c, store, rows0, Elements(plan[..done]), item);
    }
  }

  /** How many batches n rows make. */
  function Batches(n: nat, size: nat): (count: nat)
    requires size > 0
    ensures count <= n && (count == 0 <==> n == 0)
    decreases n
  {
    if n == 0 then 0 else 1 + Batches(if size < n then n - size else 0, size)
  }

  /** How many of the batches are written under --max-batches when some have been written already. */
  function Granted(need: nat, maxBatches: Option<nat>, written: nat): nat {
    match maxBatches
    case None => need
    case Some(most) => if most <= written then 0 else if need < most - written then need else most - written
  }

  lemma NextBatch(n: nat, size: nat)
    requires n > 0 && size > 0
    ensures Batches(n, size) == 1 + Batches(if size < n then n - size else 0, size)
  {
  }

  /** Writing while there are rows and --max-batches allows it writes what is granted. */
  lemma StopsAtTheGrant(need: nat, maxBatches: Option<nat>, batches: nat, batches': nat, rest: nat)
    requires batches' >= batches && rest == need - (batches' - batches)
    requires maxBatches.Some? && batches' > batches ==> batches' <= maxBatches.value
    ensures batches' - batches <= Granted(need, maxBatches, batches)
    ensures rest > 0 && !(maxBatches.Some? && batches' >= maxBatches.value) ==> batches' - batches < Granted(need, maxBatches, batches)
    ensures rest == 0 || (maxBatches.Some? && batches' >= maxBatches.value) ==> batches' - batches == Granted(need, maxBatches, batches)
  {
  }

  /**
   * _write_state_batches for one store. Before and after each COMMIT is a step; the run is killed when
   * its life has no step left. done counts the plan rows whose batch was committed.
   */
  method WriteStore(f: Files, store: StoreName, plan: seq<Item>, t: Tables, c: Context,
                    batchSize: nat, maxBatches: Option<nat>, batches: nat, life: nat)
    returns (killed: bool, left: nat, batches': nat, done: nat, committed: seq<Item>)
    requires Keyed(f.Rows(store), store) && Faithful(t, c) && batchSize > 0
    requires forall item :: item in plan ==> Spelled(item)
    modifies f
    ensures f.graph == old(f.graph) && forall other :: other != store ==> f.Rows(other) == old(f.Rows(other))
    ensures done <= |plan|
    ensures f.Rows(store) == Written(c, store, old(f.Rows(store)), Elements(plan[..done]))
    ensures !killed ==> NoValid(f.Rows(store)) == NoValid(old(f.Rows(store))) - |committed|
    ensures !killed ==> forall item :: item in committed ==> item in plan[..done] && CommittedFor(c, store, old(f.Rows(store)), item)
    ensures var need := Batches(|plan|, batchSize);
      var granted := Granted(need, maxBatches, batches);
      if killed then life < 2 * granted && Batches(|plan| - done, batchSize) == need - (life + 1) / 2
      else life == left + 2 * granted && batches' == batches + granted && Batches(|plan| - done, batchSize) == need - granted
  {
    hide Written, Awaits, Keyed, Faithful, NoValid, CommittedFor, Spelled, Batches, Granted;
    ghost var need := Batches(|plan|, batchSize);
    killed, left, batches', done, committed := false, life, batches, 0, [];
    ghost var rows0 := f.Rows(store);
    WrittenNothing(c, store, rows0);
    assert Elements(plan[..0]) == {};
    while done < |plan| && !(maxBatches.Some? && batches' >= maxBatches.value)
      invariant done <= |plan| && !killed && batches' >= batches && life == left + 2 * (batches' - batches)
      invariant Batches(|plan| - done, batchSize) == Batches(|plan|, batchSize) - (batches' - batches)
      invariant maxBatches.Some? && batches' > batches ==> batches' <= maxBatches.value
      invariant f.graph == old(f.graph) && forall other :: other != store ==> f.Rows(other) == old(f.Rows(other))
      invariant f.Rows(store) == Written(c, store, rows0, Elements(plan[..done]))
      invariant NoValid(f.Rows(store)) == NoValid(rows0) - |committed|
      invariant forall item :: item in committed ==> item in plan[..done] && CommittedFor(c, store, rows0, item)
      decreases |plan| - done
    {
      NextBatch(|plan| - done, batchSize);
      StopsAtTheGrant(need, maxBatches, batches, batches', Batches(|plan| - done, batchSize));
      var end := if done + batchSize < |plan| then done + batchSize else |plan|;
      var batch := plan[done..end];
      WrittenStaysKeyed(c, store, rows0, Elements(plan[..done]));
      var rows, marks, written := WriteBatch(f.Rows(store), store, batch, t, c);
      if left == 0 { killed := true; return; }
      f.Commit(store, rows);
      assert Elements(plan[..end]) == Elements(plan[..done]) + Elements(batch) by {
        assert plan[..end] == plan[..done] + batch;
      }
      WrittenCompose(c, store, rows0, Elements(plan[..done]), Elements(batch));
      CommittedSoFar(c, store, rows0, plan, done, end, written);
      done := end;
      if left == 1 { killed := true; return; }
      left := left - 2;
      committed := committed + written;
      batches' := batches' + 1;
    }
    StopsAtTheGrant(need, maxBatches, batches, batches', Batches(|plan| - done, batchSize));
  }

  // ------------------------------------------------------------ runs and reruns

  datatype Outcome = Killed | Stopped | Finished

  /** Every record is as it was or as it will be in the end, in both stores. */
  ghost predicate OnTheWay(c: Context, rows: seq<Row>, rows': seq<Row>, store: StoreName) {
    && |rows'| == |rows|
    && forall i :: 0 <= i < |rows| ==> rows'[i] == rows[i] || rows'[i] == Target(c, store, rows[i])
  }

  lemma WrittenIsOnTheWay(c: Context, store: StoreName, rows: seq<Row>, items: set<Item>)
    ensures OnTheWay(c, rows, Written(c, store, rows, items), store)
  {
  }

  /** Rows on the way end where the original rows end. */
  lemma OnTheWayMeets(c: Context, store: StoreName, rows: seq<Row>, rows': seq<Row>)
    requires OnTheWay(c, rows, rows', store)
    ensures AllWritten(c, store, rows') == AllWritten(c, store, rows)
  {
    forall i | 0 <= i < |rows|
      ensures Target(c, store, rows'[i]) == Target(c, store, rows[i])
    {
      TargetTwice(c, store, rows[i]);
    }
  }

  lemma OnTheWayTransitive(c: Context, store: StoreName, a: seq<Row>, b: seq<Row>, d: seq<Row>)
    requires OnTheWay(c, a, b, store) && OnTheWay(c, b, d, store)
    ensures OnTheWay(c, a, d, store)
  {
    forall i | 0 <= i < |a|
      ensures d[i] == a[i] || d[i] == Target(c, store, a[i])
    {
      TargetTwice(c, store, a[i]);
    }
  }

  /** The record that awaited the plan row has been given its space. */
  ghost predicate Landed(c: Context, store: StoreName, rows: seq<Row>, rows': seq<Row>, item: Item) {
    && |rows'| == |rows|
    && exists i :: 0 <= i < |rows| && Awaits(c, store, rows[i], item) && rows'[i] == Filled(rows[i], item.space)
  }

  lemma CommittedLanded(c: Context, store: StoreName, rows: seq<Row>, items: seq<Item>, committed: seq<Item>)
    requires forall item :: item in committed ==> item in items && CommittedFor(c, store, rows, item)
    ensures forall item :: item in committed ==> Landed(c, store, rows, Written(c, store, rows, Elements(items)), item)
  {
    forall item | item in committed
      ensures Landed(c, store, rows, Written(c, store, rows, Elements(items)), item)
    {
      var i :| 0 <= i < |rows| && Awaits(c, store, rows[i], item);
      assert Awaits(c, store, rows[i], item) && item in Elements(items);
    }
  }

  /** The batches of both stores' plans. */
  function AllBatches(c: Context, docs: seq<Row>, vectors: seq<Row>, batchSize: nat): nat
    requires batchSize > 0
  {
    Batches(|PlanOf(c, DocStore, docs)|, batchSize) + Batches(|PlanOf(c, VectorStore, vectors)|, batchSize)
  }

  /**
   * One run without a foreign writer. It is killed exactly if its life is too short for the batches
   * it may write, and otherwise stops or finishes by whether those are all.
   */
  method Run(f: Files, allow: bool, batchSize: nat, maxBatches: Option<nat>, life: nat)
    returns (outcome: Outcome, docsDone: seq<Item>, vectorsDone: seq<Item>)
    requires f.Valid() && batchSize > 0
    modifies f
    ensures f.Valid() && f.graph == old(f.graph)
    ensures var c := old(f.Sight(allow));
      OnTheWay(c, old(f.docs), f.docs, DocStore) && OnTheWay(c, old(f.vectors), f.vectors, VectorStore)
    ensures var c := old(f.Sight(allow));
      outcome.Finished? ==>
        f.docs == AllWritten(c, DocStore, old(f.docs)) && f.vectors == AllWritten(c, VectorStore, old(f.vectors))
        && AllSettled(c, old(f.docs), f.docs, old(f.vectors), f.vectors)
    ensures var c := old(f.Sight(allow));
      var need := AllBatches(c, old(f.docs), old(f.vectors), batchSize);
      && (outcome.Killed? <==> life < 2 * Granted(need, maxBatches, 0))
      && (outcome.Finished? <==> !outcome.Killed? && (maxBatches.None? || need <= maxBatches.value))
    ensures var c := old(f.Sight(allow));
      !outcome.Killed? ==>
        && NoValid(f.docs) == NoValid(old(f.docs)) - |docsDone|
        && NoValid(f.vectors) == NoValid(old(f.vectors)) - |vectorsDone|
        && (forall item :: item in docsDone ==> Landed(c, DocStore, old(f.docs), f.docs, item))
        && (forall item :: item in vectorsDone ==> Landed(c, VectorStore, old(f.vectors), f.vectors, item))
  {
    hide Written, Awaits, Keyed, Faithful, NoValid, CommittedFor, Spelled, Target, PlanOf, AllWritten, AllSettled, OnTheWay, SqliteIds, Landed;
    outcome, docsDone, vectorsDone := Killed, [], [];
    var c := f.Sight(allow);
    ghost var docs0, vectors0 := f.docs, f.vectors;
    KeyedIsSqlite(f.docs, DocStore);
    var t := ScanTables(c);
    var docPlan := MakePlan(f.docs, DocStore, t, c);
    var vectorPlan := MakePlan(f.vectors, VectorStore, t, c);
    ghost var none: set<Item> := {};
    WrittenNothing(c, VectorStore, vectors0);
    WrittenIsOnTheWay(c, VectorStore, vectors0, none);
    var killed, left, batches, docCount, vectorCount;
    killed, left, batches, docCount, docsDone := WriteStore(f, DocStore, docPlan, t, c, batchSize, maxBatches, 0, life);
    assert f.vectors == f.Rows(VectorStore);
    WrittenStaysKeyed(c, DocStore, docs0, Elements(docPlan[..docCount]));
    WrittenIsOnTheWay(c, DocStore, docs0, Elements(docPlan[..docCount]));
    if killed { return; }
    killed, left, batches, vectorCount, vectorsDone :=
      WriteStore(f, VectorStore, vectorPlan, t, c, batchSize, maxBatches, batches, left);
    assert f.docs == f.Rows(DocStore);
    WrittenStaysKeyed(c, VectorStore, vectors0, Elements(vectorPlan[..vectorCount]));
    WrittenIsOnTheWay(c, VectorStore, vectors0, Elements(vectorPlan[..vectorCount]));
    if killed { return; }
    CommittedLanded(c, DocStore, docs0, docPlan[..docCount], docsDone);
    CommittedLanded(c, VectorStore, vectors0, vectorPlan[..vectorCount], vectorsDone);
    if docCount == |docPlan| && vectorCount == |vectorPlan| {
      outcome := Finished;
      assert docPlan[..docCount] == docPlan && vectorPlan[..vectorCount] == vectorPlan;
      WholePlanWritesAll(c, DocStore, docs0);
      WholePlanWritesAll(c, VectorStore, vectors0);
      WrittenIsSettled(c, docs0, vectors0);
    } else {
      outcome := Stopped;
    }
  }

  lemma KeyedIsSqlite(rows: seq<Row>, store: StoreName)
    requires Keyed(rows, store)
    ensures SqliteRows(rows)
  {
  }

  /**
   * Confluence: any number of runs of any batch sizes, killed or stopped anywhere, leave every
   * record untouched or finished; and whenever one run finishes, the stores are those that a
   * single uninterrupted run would have left. Each run has its batch size, its --max-batches and its
   * life; a last run without a limit and with two steps for each record finishes.
   */
  method RunRepeatedly(f: Files, allow: bool, sizes: seq<(nat, Option<nat>, nat)>) returns (outcome: Outcome)
    requires f.Valid() && forall s :: s in sizes ==> s.0 > 0
    modifies f
    ensures f.Valid() && f.graph == old(f.graph)
    ensures var c := old(f.Sight(allow));
      OnTheWay(c, old(f.docs), f.docs, DocStore) && OnTheWay(c, old(f.vectors), f.vectors, VectorStore)
    ensures var c := old(f.Sight(allow));
      outcome.Finished? ==>
        f.docs == AllWritten(c, DocStore, old(f.docs)) && f.vectors == AllWritten(c, VectorStore, old(f.vectors))
        && AllSettled(c, old(f.docs), f.docs, old(f.vectors), f.vectors)
    ensures sizes != [] && sizes[|sizes| - 1].1.None? && sizes[|sizes| - 1].2 >= 2 * (|old(f.docs)| + |old(f.vectors)|) ==> outcome.Finished?
  {
    hide Keyed, NoValid, CommittedFor, Target, AllWritten, AllSettled, OnTheWay, SameJudge;
    outcome := Killed;
    ghost var c, docs0, vectors0 := f.Sight(allow), f.docs, f.vectors;
    StartIsOnTheWay(c, docs0, DocStore);
    StartIsOnTheWay(c, vectors0, VectorStore);
    for n := 0 to |sizes|
      invariant f.Valid() && f.graph == c.graph
      invariant OnTheWay(c, docs0, f.docs, DocStore) && OnTheWay(c, vectors0, f.vectors, VectorStore)
      invariant outcome.Finished? ==>
        f.docs == AllWritten(c, DocStore, docs0) && f.vectors == AllWritten(c, VectorStore, vectors0)
      invariant n > 0 && sizes[n - 1].1.None? && sizes[n - 1].2 >= 2 * (|docs0| + |vectors0|) ==> outcome.Finished?
    {
      assert sizes[n] in sizes;
      ghost var c', docs, vectors := f.Sight(allow), f.docs, f.vectors;
      var a, b;
      outcome, a, b := Run(f, allow, sizes[n].0, sizes[n].1, sizes[n].2);
      FewBatches(c', docs, vectors, sizes[n].0);
      SameLength(c, docs0, docs, DocStore);
      SameLength(c, vectors0, vectors, VectorStore);
      SightOnTheWay(c, docs);
      Continue(c, c', DocStore, docs0, docs, f.docs);
      Continue(c, c', VectorStore, vectors0, vectors, f.vectors);
    }
    WrittenIsSettled(c, docs0, vectors0);
  }

  lemma {:induction false} PlanIsNoLonger(c: Context, store: StoreName, rows: seq<Row>)
    ensures |PlanOf(c, store, rows)| <= |rows|
  {
    if rows != [] { PlanIsNoLonger(c, store, rows[..|rows| - 1]); }
  }

  lemma FewBatches(c: Context, docs: seq<Row>, vectors: seq<Row>, batchSize: nat)
    requires batchSize > 0
    ensures AllBatches(c, docs, vectors, batchSize) <= |docs| + |vectors|
  {
    PlanIsNoLonger(c, DocStore, docs);
    PlanIsNoLonger(c, VectorStore, vectors);
  }

  lemma SameLength(c: Context, rows: seq<Row>, rows': seq<Row>, store: StoreName)
    requires OnTheWay(c, rows, rows', store)
    ensures |rows'| == |rows|
  {
  }

  lemma StartIsOnTheWay(c: Context, rows: seq<Row>, store: StoreName)
    ensures OnTheWay(c, rows, rows, store)
  {
  }

  lemma SightOnTheWay(c: Context, docs: seq<Row>)
    requires OnTheWay(c, c.docs, docs, DocStore)
    ensures SameJudge(c, c.(docs := docs))
  {
    WritesChangeNoDecision(c, docs);
  }

  /** A rerun that starts on the way stays on it, and where it finishes, so would the first run have. */
  lemma Continue(c: Context, c': Context, store: StoreName, rows0: seq<Row>, rows: seq<Row>, rows': seq<Row>)
    requires SameJudge(c, c') && OnTheWay(c, rows0, rows, store) && OnTheWay(c', rows, rows', store)
    ensures OnTheWay(c, rows0, rows', store)
    ensures rows' == AllWritten(c', store, rows) ==> rows' == AllWritten(c, store, rows0)
  {
    forall i | 0 <= i < |rows|
      ensures Target(c, store, rows[i]) == Target(c', store, rows[i])
    {
      assert Judge(c, store, rows[i]) == Judge(c', store, rows[i]);
    }
    OnTheWayTransitive(c, store, rows0, rows, rows');
    OnTheWayMeets(c, store, rows0, rows);
    SameJudgeSameTarget(c, c', store, rows);
  }

  /** What a finished record kept: only the space key was set, and never over a valid space. */
  lemma TargetChangesOnlyTheSpace(c: Context, store: StoreName, row: Row)
    ensures var t := Target(c, store, row);
      && t.id == row.id && t.partition == row.partition && t.rest == row.rest
      && (HasValidSpace(row) ==> t == row)
      && (t != row ==>
            && t.column.Object? && ParseMeta(row.column).Some? && Judge(c, store, row).cls.Applies()
            && Get(t.column.meta, "space") == VStr(Judge(c, store, row).space.value)
            && forall key :: key != "space" ==> Get(t.column.meta, key) == Get(ParseMeta(row.column).value, key))
      && (t == row <==> ItemOf(c, store, row).None? || !Writable(row))
  {
    PlannedLacksSpace(c, store, row);
    if ItemOf(c, store, row).Some? && Writable(row) {
      TargetIsSettled(c, c, store, row);
    }
  }
}
