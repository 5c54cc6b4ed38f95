/**
 * The diagnosis and the additive healing of two node stores: a graph with one row per node
 * id, and documents with one row per space and node id.
 */
module NodeReconcile {
  import opened Basics

  datatype Id = Id(text: string)

  datatype Value = VNull | VStr(s: string) | VOther(n: nat)

  /** Stored properties; encodable says whether they pass the JSON checks of prepare_node. */
  datatype Props = NotADict | Dict(fields: map<string, Value>, encodable: bool)

  datatype GraphRow = GraphRow(nodeType: string, space: Option<string>, props: Props)

  datatype DocKey = DocKey(space: string, id: Id)

  datatype DocRow = DocRow(nodeType: Value, props: Props)

  type Graph = map<Id, GraphRow>
  type Docs = map<DocKey, DocRow>

  function DocsOf(d: Docs, id: Id): set<DocKey> {
    set k | k in d && k.id == id
  }

  // ---------------------------------------------------------- who can be healed

  /** A reserved property that the row's own columns contradict, or of a wrong kind. */
  predicate Issue(id: Id, r: GraphRow, f: map<string, Value>) {
    || ("id" in f && f["id"] != VStr(id.text)) || ("node_id" in f && f["node_id"] != VStr(id.text))
    || ("node_type" in f && f["node_type"] != VStr(r.nodeType))
    || SpaceIssue(r, f, "space") || SpaceIssue(r, f, "space_id")
    || ("pack_id" in f && (f["pack_id"].VOther? || f["pack_id"] == VStr("")))
    || "node_digest" in f
  }

  predicate SpaceIssue(r: GraphRow, f: map<string, Value>, key: string) {
    key in f && match r.space
                case None => f[key] != VNull
                case Some(s) => s == "" || f[key] != VStr(s)
  }

  /** What a graph-only node needs to be written back as a document. */
  predicate GraphRowUsable(id: Id, r: GraphRow) {
    r.props.Dict? && !Issue(id, r, r.props.fields) && r.space.Some?
  }

  predicate PackUsable(p: Props) {
    p.Dict? && "pack_id" in p.fields ==> !p.fields["pack_id"].VOther?
  }

  const RESERVED: set<string> := {"node_type", "node_digest", "space_id", "property_decode_error"}

  /** prepare_node: the properties to store, or None where it raises. */
  function Prepare(nodeType: string, id: Id, p: Props, space: string): Option<map<string, Value>> {
    if || nodeType == "" || id.text == "" || p.NotADict? || space == "" || !p.encodable
       || ("node_id" in p.fields && p.fields["node_id"] != VStr(id.text))
       || RESERVED * p.fields.Keys != {}
       || ("id" in p.fields && p.fields["id"] != VStr(id.text))
       || ("space" in p.fields && p.fields["space"].VOther?)
    then None
    else Some(p.fields["id" := VStr(id.text)]["space" := VStr(space)])
  }

  predicate DocRowUsable(k: DocKey, r: DocRow) {
    && r.nodeType.VStr? && r.nodeType.s != ""
    && PackUsable(r.props) && Prepare(r.nodeType.s, k.id, r.props, k.space).Some?
  }

  /** What a property of a graph row may be if the row is to be written back: what the columns say, under a reserved name. */
  predicate GraphFieldFits(id: Id, r: GraphRow, key: string, v: Value) {
    match key
    case "id" => v == VStr(id.text)
    case "node_id" => v == VStr(id.text)
    case "node_type" => v == VStr(r.nodeType)
    case "space" => r.space.Some? && r.space.value != "" && v == VStr(r.space.value)
    case "space_id" => r.space.Some? && r.space.value != "" && v == VStr(r.space.value)
    case "pack_id" => v == VNull || (v.VStr? && v.s != "")
    case "node_digest" => false
    case _ => true
  }

  /** Property by property, which graph rows can be written back. */
  lemma GraphUsableByField(id: Id, r: GraphRow)
    ensures GraphRowUsable(id, r) <==>
      && r.props.Dict? && r.space != None
      && forall key :: key in r.props.fields ==> GraphFieldFits(id, r, key, r.props.fields[key])
  {
    if r.props.Dict? && r.space.Some? && forall key :: key in r.props.fields ==> GraphFieldFits(id, r, key, r.props.fields[key]) {
      var f := r.props.fields;
      forall key | key in {"id", "node_id", "node_type", "space", "space_id", "pack_id", "node_digest"} && key in f
        ensures GraphFieldFits(id, r, key, f[key])
      {
      }
    }
  }

  /** What a property of a document may be if the document is to be promoted. */
  predicate DocFieldFits(k: DocKey, key: string, v: Value) {
    match key
    case "id" => v == VStr(k.id.text)
    case "node_id" => v == VStr(k.id.text)
    case "space" => !v.VOther?
    case "pack_id" => !v.VOther?
    case _ => key !in {"node_type", "node_digest", "space_id", "property_decode_error"}
  }

  /** Property by property, which documents can be promoted. */
  lemma DocUsableByField(k: DocKey, r: DocRow)
    ensures DocRowUsable(k, r) <==>
      && r.nodeType.VStr? && r.nodeType.s != "" && k.id.text != "" && k.space != ""
      && r.props.Dict? && r.props.encodable
      && forall key :: key in r.props.fields ==> DocFieldFits(k, key, r.props.fields[key])
  {
    if r.props.Dict? {
      var f := r.props.fields;
      assert RESERVED * f.Keys == {} <==> forall key :: key in {"node_type", "node_digest", "space_id", "property_decode_error"} ==> key !in f by {
        assert forall key :: key in RESERVED * f.Keys <==> key in RESERVED && key in f;
      }
      if forall key :: key in f ==> DocFieldFits(k, key, f[key]) {
        forall key | key in {"id", "node_id", "space", "pack_id"} + RESERVED && key in f
          ensures DocFieldFits(k, key, f[key])
        {
        }
      }
    }
  }

  predicate Matched(g: Graph, d: Docs, id: Id) {
    && id in g && DocsOf(d, id) != {}
    && forall k :: k in d && k.id == id ==> g[id].space == Some(k.space) && d[k].nodeType == VStr(g[id].nodeType)
  }

  predicate GraphOnly(g: Graph, d: Docs, id: Id) {
    id in g && DocsOf(d, id) == {}
  }

  predicate DocOnly(g: Graph, d: Docs, id: Id) {
    id !in g && DocsOf(d, id) != {}
  }

  predicate Conflicting(g: Graph, d: Docs, id: Id) {
    id in g && DocsOf(d, id) != {} && !Matched(g, d, id)
  }

  predicate HealableGraph(g: Graph, d: Docs, id: Id) {
    GraphOnly(g, d, id) && GraphRowUsable(id, g[id])
  }

  predicate HealableDoc(g: Graph, d: Docs, id: Id) {
    DocOnly(g, d, id) && |DocsOf(d, id)| == 1 && forall k :: k in d && k.id == id ==> DocRowUsable(k, d[k])
  }

  // ---------------------------------------------------------------- diagnosis

  datatype GraphFinding = GraphFinding(id: Id, nodeType: string, space: Option<string>, healable: bool)
  datatype DocFinding = DocFinding(id: Id, space: Option<string>, healable: bool)

  datatype Report = Report(graphOnly: seq<GraphFinding>, docOnly: seq<DocFinding>, conflicts: seq<Id>, duplicates: nat)

  datatype Entry = Entry(space: string, nodeType: Value)

  /** The documents of one id in stream order. */
  function EntriesOf(stream: seq<DocKey>, d: Docs, id: Id): seq<Entry>
    requires forall k :: k in stream ==> k in d
  {
    if stream == [] then []
    else
      var last := stream[|stream| - 1];
      EntriesOf(stream[..|stream| - 1], d, id) + if last.id == id then [Entry(last.space, d[last].nodeType)] else []
  }

  function KeysAmong(stream: seq<DocKey>, id: Id): set<DocKey> {
    set k | k in stream && k.id == id
  }

  lemma KeysSnoc(stream: seq<DocKey>, k: DocKey, id: Id)
    requires k !in stream
    ensures KeysAmong(stream + [k], id) == KeysAmong(stream, id) + if k.id == id then {k} else {}
    ensures |KeysAmong(stream + [k], id)| == |KeysAmong(stream, id)| + if k.id == id then 1 else 0
  {
    assert KeysAmong(stream + [k], id) == KeysAmong(stream, id) + if k.id == id then {k} else {};
  }

  lemma {:induction false} EntriesSize(stream: seq<DocKey>, d: Docs, id: Id)
    requires Distinct(stream) && forall k :: k in stream ==> k in d
    ensures |EntriesOf(stream, d, id)| == |KeysAmong(stream, id)|
  {
    hide KeysAmong;
    if stream == [] {
      assert KeysAmong([], id) == {} by { NoKeys(id); }
    } else {
      var n := |stream| - 1;
      EntriesSize(stream[..n], d, id);
      assert stream == stream[..n] + [stream[n]];
      KeysSnoc(stream[..n], stream[n], id);
    }
  }

  lemma NoKeys(id: Id)
    ensures KeysAmong([], id) == {}
  {
  }

  lemma {:induction false} EntriesMembers(stream: seq<DocKey>, d: Docs, id: Id, e: Entry)
    requires forall k :: k in stream ==> k in d
    ensures e in EntriesOf(stream, d, id) <==>
      DocKey(e.space, id) in stream && d[DocKey(e.space, id)].nodeType == e.nodeType
  {
    if stream != [] {
      var n := |stream| - 1;
      EntriesMembers(stream[..n], d, id, e);
      assert stream == stream[..n] + [stream[n]];
    }
  }

  /** The entries are the documents of the id, one each. */
  predicate EntriesRight(entries: seq<Entry>, d: Docs, id: Id) {
    && |entries| == |DocsOf(d, id)|
    && (forall e :: e in entries ==> DocKey(e.space, id) in d && d[DocKey(e.space, id)].nodeType == e.nodeType)
    && (forall k :: k in d && k.id == id ==> Entry(k.space, d[k].nodeType) in entries)
  }

  predicate GraphFindingRight(f: GraphFinding, g: Graph, d: Docs) {
    GraphOnly(g, d, f.id) && f == GraphFinding(f.id, g[f.id].nodeType, g[f.id].space, HealableGraph(g, d, f.id))
  }

  predicate DocFindingRight(f: DocFinding, g: Graph, d: Docs) {
    && DocOnly(g, d, f.id) && (f.healable <==> HealableDoc(g, d, f.id))
    && (f.healable ==> f.space.Some? && DocKey(f.space.value, f.id) in d)
  }

  /** The ids the findings speak of, once each. */
  ghost predicate NamesGraph(fs: seq<GraphFinding>, ids: set<Id>) {
    && (forall i, j :: 0 <= i < j < |fs| ==> fs[i].id != fs[j].id)
    && (forall id :: id in ids <==> exists f :: f in fs && f.id == id)
  }

  ghost predicate NamesDocs(fs: seq<DocFinding>, ids: set<Id>) {
    && (forall i, j :: 0 <= i < j < |fs| ==> fs[i].id != fs[j].id)
    && (forall id :: id in ids <==> exists f :: f in fs && f.id == id)
  }

  /** Each id is in exactly the list its state calls for, once, with the right verdict. */
  ghost predicate Reports(r: Report, g: Graph, d: Docs, ids: set<Id>) {
    && NamesGraph(r.graphOnly, GraphOnlyIds(g, d, ids))
    && NamesDocs(r.docOnly, DocOnlyIds(g, d, ids))
    && Distinct(r.conflicts) && Elements(r.conflicts) == ConflictIds(g, d, ids)
    && (forall f :: f in r.graphOnly ==> GraphFindingRight(f, g, d))
    && (forall f :: f in r.docOnly ==> DocFindingRight(f, g, d))
    && r.duplicates == |Duplicated(d, ids)|
  }

  function GraphOnlyIds(g: Graph, d: Docs, ids: set<Id>): set<Id> {
    set id | id in ids && GraphOnly(g, d, id)
  }

  function DocOnlyIds(g: Graph, d: Docs, ids: set<Id>): set<Id> {
    set id | id in ids && DocOnly(g, d, id)
  }

  function ConflictIds(g: Graph, d: Docs, ids: set<Id>): set<Id> {
    set id | id in ids && Conflicting(g, d, id)
  }

  function Duplicated(d: Docs, ids: set<Id>): set<Id> {
    set id | id in ids && |DocsOf(d, id)| >= 2
  }

  lemma OneOrMany(d: Docs, id: Id, entries: seq<Entry>)
    requires EntriesRight(entries, d, id)
    ensures entries != [] ==> DocKey(entries[0].space, id) in d
    ensures |entries| == 1 ==> DocsOf(d, id) == {DocKey(entries[0].space, id)}
  {
    if entries != [] { assert entries[0] in entries; }
    if |entries| == 1 {
      forall k | k in d && k.id == id
        ensures k == DocKey(entries[0].space, id)
      {
        assert Entry(k.space, d[k].nodeType) in entries;
      }
    }
  }

  /** _classify_both without a conflict is a match; a duplicated id always mismatches. */
  lemma BothIsMatchedOrNot(g: Graph, d: Docs, id: Id, entries: seq<Entry>)
    requires id in g && entries != [] && EntriesRight(entries, d, id)
    ensures (forall e :: e in entries ==> Some(e.space) == g[id].space) && entries[0].nodeType == VStr(g[id].nodeType)
       <==> Matched(g, d, id)
    ensures (forall e :: e in entries ==> Some(e.space) == g[id].space) ==> |entries| == 1
  {
    OneOrMany(d, id, entries);
    if forall e :: e in entries ==> Some(e.space) == g[id].space {
      forall k | k in d && k.id == id
        ensures k == DocKey(entries[0].space, id)
      {
        assert Entry(k.space, d[k].nodeType) in entries && entries[0] in entries;
      }
      assert DocsOf(d, id) == {DocKey(entries[0].space, id)};
    }
    if Matched(g, d, id) {
      forall e | e in entries
        ensures Some(e.space) == g[id].space && e.nodeType == VStr(g[id].nodeType)
      {
        assert DocKey(e.space, id) in d;
      }
    }
  }

  function AllIds(g: Graph, d: Docs): set<Id> {
    g.Keys + set k | k in d :: k.id
  }

  /** The four states cover every id of either store, and no id is in two of them. */
  lemma StatesPartition(g: Graph, d: Docs, id: Id)
    ensures id in AllIds(g, d) <==> GraphOnly(g, d, id) || DocOnly(g, d, id) || Conflicting(g, d, id) || Matched(g, d, id)
    ensures !(GraphOnly(g, d, id) && DocOnly(g, d, id)) && !(Conflicting(g, d, id) && Matched(g, d, id))
    ensures GraphOnly(g, d, id) || DocOnly(g, d, id) ==> !Conflicting(g, d, id) && !Matched(g, d, id)
  {
    if DocsOf(d, id) != {} {
      var k :| k in DocsOf(d, id);
      assert k in d && k.id == id;
    }
    if k :| k in d && k.id == id { assert k in DocsOf(d, id); }
  }

  lemma NoEntriesYet(d: Docs)
    ensures forall id :: EntriesOf([], d, id) == []
  {
  }

  lemma EntriesSnoc(stream: seq<DocKey>, n: nat, d: Docs, id: Id)
    requires n < |stream| && forall k :: k in stream ==> k in d
    ensures EntriesOf(stream[..n + 1], d, id) ==
      if stream[n].id == id then EntriesOf(stream[..n], d, id) + [Entry(stream[n].space, d[stream[n]].nodeType)]
      else EntriesOf(stream[..n], d, id)
  {
    assert stream[..n + 1][..n] == stream[..n];
    assert EntriesOf(stream[..n], d, id) + [] == EntriesOf(stream[..n], d, id);
  }

  /** doc_by_id: every id's documents in stream order. */
  method GroupDocs(d: Docs, stream: seq<DocKey>) returns (byId: map<Id, seq<Entry>>)
    requires Distinct(stream) && Elements(stream) == d.Keys
    ensures forall id :: id in byId <==> DocsOf(d, id) != {}
    ensures forall id :: id in byId ==> byId[id] != [] && EntriesRight(byId[id], d, id)
  {
    hide DocsOf, EntriesRight, EntriesOf, Distinct;
    byId := map[];
    assert forall k :: k in stream ==> k in Elements(stream);
    NoEntriesYet(d);
    for n := 0 to |stream|
      invariant forall id :: (if id in byId then byId[id] else []) == EntriesOf(stream[..n], d, id)
      invariant forall id :: id in byId ==> byId[id] != []
    {
      var k := stream[n];
      ghost var before := byId;
      byId := byId[k.id := (if k.id in byId then byId[k.id] else []) + [Entry(k.space, d[k].nodeType)]];
      forall id
        ensures (if id in byId then byId[id] else []) == EntriesOf(stream[..n + 1], d, id)
      {
        EntriesSnoc(stream, n, d, id);
        assert (if id in before then before[id] else []) == EntriesOf(stream[..n], d, id);
      }
    }
    assert stream[..|stream|] == stream;
    forall id
      ensures id in byId <==> DocsOf(d, id) != {}
      ensures id in byId ==> EntriesRight(byId[id], d, id)
    {
      GroupIsRight(d, stream, id);
      EntriesCount(EntriesOf(stream, d, id), d, id);
    }
  }

  lemma EntriesCount(entries: seq<Entry>, d: Docs, id: Id)
    requires EntriesRight(entries, d, id)
    ensures entries == [] <==> DocsOf(d, id) == {}
  {
  }

  lemma GroupIsRight(d: Docs, stream: seq<DocKey>, id: Id)
    requires Distinct(stream) && Elements(stream) == d.Keys
    ensures forall k :: k in stream ==> k in d
    ensures EntriesRight(EntriesOf(stream, d, id), d, id)
  {
    assert forall k :: k in stream <==> k in Elements(stream);
    EntriesSize(stream, d, id);
    assert KeysAmong(stream, id) == DocsOf(d, id);
    forall e
      ensures e in EntriesOf(stream, d, id) <==>
        DocKey(e.space, id) in stream && d[DocKey(e.space, id)].nodeType == e.nodeType
    {
      EntriesMembers(stream, d, id, e);
    }
  }

  lemma NamesGraphAdd(fs: seq<GraphFinding>, ids: set<Id>, f: GraphFinding)
    requires NamesGraph(fs, ids) && f.id !in ids
    ensures NamesGraph(fs + [f], ids + {f.id})
  {
    forall id
      ensures id in ids + {f.id} <==> exists h :: h in fs + [f] && h.id == id
    {
      if id == f.id { assert f in fs + [f]; }
      if h :| h in fs && h.id == id { assert h in fs + [f]; }
    }
    forall i | 0 <= i < |fs|
      ensures fs[i].id != f.id
    {
      assert fs[i] in fs;
    }
  }

  lemma NamesDocsAdd(fs: seq<DocFinding>, ids: set<Id>, f: DocFinding)
    requires NamesDocs(fs, ids) && f.id !in ids
    ensures NamesDocs(fs + [f], ids + {f.id})
  {
    forall id
      ensures id in ids + {f.id} <==> exists h :: h in fs + [f] && h.id == id
    {
      if id == f.id { assert f in fs + [f]; }
      if h :| h in fs && h.id == id { assert h in fs + [f]; }
    }
    forall i | 0 <= i < |fs|
      ensures fs[i].id != f.id
    {
      assert fs[i] in fs;
    }
  }

  function Plus(ids: set<Id>, id: Id, yes: bool): set<Id> {
    if yes then ids + {id} else ids
  }

  lemma OneMoreListed(g: Graph, d: Docs, ids: set<Id>, id: Id)
    ensures GraphOnlyIds(g, d, ids + {id}) == Plus(GraphOnlyIds(g, d, ids), id, GraphOnly(g, d, id))
    ensures DocOnlyIds(g, d, ids + {id}) == Plus(DocOnlyIds(g, d, ids), id, DocOnly(g, d, id))
    ensures ConflictIds(g, d, ids + {id}) == Plus(ConflictIds(g, d, ids), id, Conflicting(g, d, id))
  {
    hide GraphOnly, DocOnly, Conflicting, DocsOf;
  }

  lemma OneMoreDuplicate(d: Docs, ids: set<Id>, id: Id)
    requires id !in ids
    ensures |Duplicated(d, ids + {id})| == |Duplicated(d, ids)| + if |DocsOf(d, id)| >= 2 then 1 else 0
  {
    hide DocsOf;
    assert Duplicated(d, ids + {id}) == Plus(Duplicated(d, ids), id, |DocsOf(d, id)| >= 2);
  }

  /** How one more id extends the lists that must name it. */
  lemma OneMoreId(g: Graph, d: Docs, ids: set<Id>, id: Id)
    requires id !in ids
    ensures GraphOnlyIds(g, d, ids + {id}) == Plus(GraphOnlyIds(g, d, ids), id, GraphOnly(g, d, id))
    ensures DocOnlyIds(g, d, ids + {id}) == Plus(DocOnlyIds(g, d, ids), id, DocOnly(g, d, id))
    ensures ConflictIds(g, d, ids + {id}) == Plus(ConflictIds(g, d, ids), id, Conflicting(g, d, id))
    ensures |Duplicated(d, ids + {id})| == |Duplicated(d, ids)| + if |DocsOf(d, id)| >= 2 then 1 else 0
    ensures id !in GraphOnlyIds(g, d, ids) && id !in DocOnlyIds(g, d, ids) && id !in ConflictIds(g, d, ids)
  {
    OneMoreListed(g, d, ids, id);
    OneMoreDuplicate(d, ids, id);
  }

  lemma OnlyGraphHasNoDocs(g: Graph, d: Docs, id: Id)
    requires GraphOnly(g, d, id)
    ensures |DocsOf(d, id)| == 0
  {
  }

  lemma AddGraphOnly(r: Report, g: Graph, d: Docs, ids: set<Id>, id: Id)
    requires Reports(r, g, d, ids) && id !in ids && GraphOnly(g, d, id)
    ensures Reports(r.(graphOnly := r.graphOnly + [GraphFinding(id, g[id].nodeType, g[id].space, GraphRowUsable(id, g[id]))]), g, d, ids + {id})
  {
    hide Conflicting, NamesGraph, NamesDocs, DocFindingRight, GraphOnlyIds, DocOnlyIds, ConflictIds, Duplicated;
    OneMoreId(g, d, ids, id);
    StatesPartition(g, d, id);
    OnlyGraphHasNoDocs(g, d, id);
    var f := GraphFinding(id, g[id].nodeType, g[id].space, GraphRowUsable(id, g[id]));
    NamesGraphAdd(r.graphOnly, GraphOnlyIds(g, d, ids), f);
  }

  lemma AddDocOnly(r: Report, g: Graph, d: Docs, ids: set<Id>, id: Id, f: DocFinding)
    requires Reports(r, g, d, ids) && id !in ids && DocOnly(g, d, id) && f.id == id && DocFindingRight(f, g, d)
    ensures Reports(r.(docOnly := r.docOnly + [f], duplicates := r.duplicates + if |DocsOf(d, id)| >= 2 then 1 else 0), g, d, ids + {id})
  {
    hide DocsOf, GraphOnly, DocOnly, Conflicting, NamesGraph, NamesDocs, GraphFindingRight, DocFindingRight, GraphOnlyIds,
      DocOnlyIds, ConflictIds, Duplicated;
    OneMoreId(g, d, ids, id);
    StatesPartition(g, d, id);
    NamesDocsAdd(r.docOnly, DocOnlyIds(g, d, ids), f);
  }

  lemma AddConflict(r: Report, g: Graph, d: Docs, ids: set<Id>, id: Id)
    requires Reports(r, g, d, ids) && id !in ids && Conflicting(g, d, id)
    ensures Reports(r.(conflicts := r.conflicts + [id], duplicates := r.duplicates + if |DocsOf(d, id)| >= 2 then 1 else 0), g, d, ids + {id})
  {
    hide DocsOf, GraphOnly, DocOnly, Conflicting, NamesGraph, NamesDocs, GraphFindingRight, DocFindingRight, GraphOnlyIds,
      DocOnlyIds, ConflictIds, Duplicated;
    OneMoreId(g, d, ids, id);
    StatesPartition(g, d, id);
    assert id !in Elements(r.conflicts);
    assert Elements(r.conflicts + [id]) == Elements(r.conflicts) + {id};
  }

  lemma AddMatched(r: Report, g: Graph, d: Docs, ids: set<Id>, id: Id)
    requires Reports(r, g, d, ids) && id !in ids && Matched(g, d, id) && |DocsOf(d, id)| < 2
    ensures Reports(r, g, d, ids + {id})
  {
    hide DocsOf, GraphOnly, DocOnly, Conflicting, NamesGraph, NamesDocs, GraphFindingRight, DocFindingRight, GraphOnlyIds,
      DocOnlyIds, ConflictIds, Duplicated;
    OneMoreId(g, d, ids, id);
    StatesPartition(g, d, id);
  }

  /** The body of diagnose's loop for one id. */
  method Classify(g: Graph, d: Docs, id: Id, entries: seq<Entry>, r: Report, ghost ids: set<Id>) returns (r': Report)
    requires Reports(r, g, d, ids) && id !in ids && id in AllIds(g, d) && EntriesRight(entries, d, id)
    ensures Reports(r', g, d, ids + {id})
  {
    hide Reports;
    OneOrMany(d, id, entries);
    EntriesCount(entries, d, id);
    StatesPartition(g, d, id);
    if id in g && entries == [] {
      AddGraphOnly(r, g, d, ids, id);
      r' := r.(graphOnly := r.graphOnly + [GraphFinding(id, g[id].nodeType, g[id].space, GraphRowUsable(id, g[id]))]);
    } else if id !in g {
      var f, more := DocFinding(id, None, false), 1;
      if |entries| == 1 {
        var k := DocKey(entries[0].space, id);
        f, more := DocFinding(id, Some(k.space), DocRowUsable(k, d[k])), 0;
      }
      AddDocOnly(r, g, d, ids, id, f);
      r' := r.(docOnly := r.docOnly + [f], duplicates := r.duplicates + more);
    } else {
      BothIsMatchedOrNot(g, d, id, entries);
      if exists e :: e in entries && Some(e.space) != g[id].space {
        AddConflict(r, g, d, ids, id);
        r' := r.(conflicts := r.conflicts + [id], duplicates := r.duplicates + if |entries| > 1 then 1 else 0);
      } else if entries[0].nodeType != VStr(g[id].nodeType) {
        AddConflict(r, g, d, ids, id);
        r' := r.(conflicts := r.conflicts + [id], duplicates := r.duplicates + 0);
      } else {
        AddMatched(r, g, d, ids, id);
        r' := r;
      }
    }
  }

  lemma TakeId(all: set<Id>, todo: set<Id>, id: Id)
    requires todo <= all && id in todo
    ensures all - (todo - {id}) == (all - todo) + {id} && |todo - {id}| < |todo| && id in all && id !in all - todo
  {
  }

  lemma EmptyReport(g: Graph, d: Docs)
    ensures Reports(Report([], [], [], 0), g, d, {})
  {
    assert Duplicated(d, {}) == {} && ConflictIds(g, d, {}) == {};
  }

  lemma AllIdsAre(g: Graph, d: Docs, documented: set<Id>)
    requires forall id :: id in documented <==> DocsOf(d, id) != {}
    ensures g.Keys + documented == AllIds(g, d)
  {
    forall id
      ensures id in g.Keys + documented <==> id in AllIds(g, d)
    {
      StatesPartition(g, d, id);
    }
  }

  lemma NoEntries(d: Docs, id: Id)
    ensures DocsOf(d, id) == {} ==> EntriesRight([], d, id)
  {
    if DocsOf(d, id) == {} {
      assert forall k :: k in d && k.id == id ==> k in DocsOf(d, id);
    }
  }

  /**
   * diagnose: every id of either store is graph-only, doc-only, conflicting or matched, in that
   * list once, and duplicates counts exactly the ids with two documents or more.
   */
  method Diagnose(g: Graph, d: Docs, stream: seq<DocKey>) returns (r: Report)
    requires Distinct(stream) && Elements(stream) == d.Keys
    ensures Reports(r, g, d, AllIds(g, d))
  {
    hide *;
    var byId := GroupDocs(d, stream);
    r := Report([], [], [], 0);
    var todo := g.Keys + byId.Keys;
    ghost var all := AllIds(g, d);
    EmptyReport(g, d);
    AllIdsAre(g, d, byId.Keys);
    assert all - all == {} && all - {} == all;
    while todo != {}
      invariant todo <= all && Reports(r, g, d, all - todo)
      decreases |todo|
    {
      var id :| id in todo;
      NoEntries(d, id);
      TakeId(all, todo, id);
      r := Classify(g, d, id, if id in byId then byId[id] else [], r, all - todo);
      todo := todo - {id};
    }
  }

  // ------------------------------------------------------------------ healing

  datatype Outcome = Healed | SkippedExists | SkippedConflict | SkippedRejected | Raised

  const GRAPH_FIELDS: set<string> := {"id", "node_id", "node_type", "space", "space_id", "pack_id"}

  /** The document written back for a usable graph row: its own properties and its pack. */
  function Backfilled(r: GraphRow): DocRow
    requires r.props.Dict?
  {
    var f := r.props.fields;
    var own := map key | key in f && key !in GRAPH_FIELDS :: f[key];
    DocRow(VStr(r.nodeType), Dict(if "pack_id" in f && f["pack_id"].VStr? then own["pack_id" := f["pack_id"]] else own, true))
  }

  /**
   * The document holds the graph row's type, its string pack, and every other property under its
   * own name; what the columns say is not repeated.
   */
  ghost predicate DocCarries(r: GraphRow, row: DocRow) {
    && r.props.Dict? && row.props.Dict? && row.props.encodable && row.nodeType == VStr(r.nodeType)
    && var f, f' := r.props.fields, row.props.fields;
    && (forall key :: key in {"id", "node_id", "node_type", "space", "space_id"} ==> key !in f')
    && (if "pack_id" in f && f["pack_id"].VStr? then "pack_id" in f' && f'["pack_id"] == f["pack_id"] else "pack_id" !in f')
    && (forall key :: key !in {"id", "node_id", "node_type", "space", "space_id", "pack_id"} ==>
          (key in f' <==> key in f) && (key in f ==> f'[key] == f[key]))
  }

  /** The graph row holds the document's type and properties, under the id and the space of its key. */
  ghost predicate GraphCarries(k: DocKey, row: DocRow, r: GraphRow) {
    && row.props.Dict? && r.props.Dict? && VStr(r.nodeType) == row.nodeType
    && var f, f' := row.props.fields, r.props.fields;
    && "id" in f' && f'["id"] == VStr(k.id.text)
    && (if "space" in f' && f'["space"].VStr? && f'["space"].s != "" then f'["space"].s == k.space else r.space == Some(k.space))
    && (r.space in {None, Some("")} || r.space == Some(k.space))
    && (forall key :: key !in {"id", "space"} ==> (key in f' <==> key in f) && (key in f ==> f'[key] == f[key]))
  }

  lemma BackfilledCarries(r: GraphRow)
    requires r.props.Dict?
    ensures DocCarries(r, Backfilled(r))
  {
  }

  lemma PreparedCarries(k: DocKey, row: DocRow)
    requires row.nodeType.VStr? && Prepare(row.nodeType.s, k.id, row.props, k.space).Some?
    ensures var props := Prepare(row.nodeType.s, k.id, row.props, k.space).value;
      && GraphCarries(k, row, GraphRow(row.nodeType.s, Some(k.space), Dict(props, true)))
      && forall r: GraphRow :: r.props.Dict? ==> (SameNode(r, row.nodeType.s, k.space, props) <==> GraphCarries(k, row, r))
  {
    var props := Prepare(row.nodeType.s, k.id, row.props, k.space).value;
    forall r: GraphRow | r.props.Dict?
      ensures SameNode(r, row.nodeType.s, k.space, props) <==> GraphCarries(k, row, r)
    {
      SameNodeCarries(k, row, r, props);
    }
  }

  lemma SameNodeCarries(k: DocKey, row: DocRow, r: GraphRow, props: map<string, Value>)
    requires row.nodeType.VStr? && r.props.Dict? && Prepare(row.nodeType.s, k.id, row.props, k.space) == Some(props)
    ensures SameNode(r, row.nodeType.s, k.space, props) <==> GraphCarries(k, row, r)
  {
    if SameNode(r, row.nodeType.s, k.space, props) { SameIsCarried(k, row, r, props); }
    if GraphCarries(k, row, r) { CarriedIsSame(k, row, r, props); }
  }

  lemma SameIsCarried(k: DocKey, row: DocRow, r: GraphRow, props: map<string, Value>)
    requires row.nodeType.VStr? && r.props.Dict? && Prepare(row.nodeType.s, k.id, row.props, k.space) == Some(props)
    requires SameNode(r, row.nodeType.s, k.space, props)
    ensures GraphCarries(k, row, r)
  {
    assert Merged(r)["space"] == VStr(k.space) && Merged(r)["id"] == VStr(k.id.text);
    assert forall key :: key !in {"id", "space"} ==> (key in Merged(r) <==> key in r.props.fields);
  }

  lemma CarriedIsSame(k: DocKey, row: DocRow, r: GraphRow, props: map<string, Value>)
    requires row.nodeType.VStr? && r.props.Dict? && Prepare(row.nodeType.s, k.id, row.props, k.space) == Some(props)
    requires GraphCarries(k, row, r)
    ensures SameNode(r, row.nodeType.s, k.space, props)
  {
    assert props == row.props.fields["id" := VStr(k.id.text)]["space" := VStr(k.space)];
    assert "space" in Merged(r) && Merged(r)["space"] == VStr(k.space);
    forall key
      ensures key in Merged(r) <==> key in props
      ensures key in props ==> Merged(r)[key] == props[key]
    {
      if key != "space" { assert key in Merged(r) <==> key in r.props.fields; }
    }
    assert Merged(r) == props;
    assert {"space"} <= props.Keys by { assert "space" in props.Keys; }
  }

  /** The stored properties with the space column folded in. */
  function Merged(r: GraphRow): map<string, Value>
    requires r.props.Dict?
  {
    var f := r.props.fields;
    if "space" in f && f["space"].VStr? && f["space"].s != "" then f
    else if r.space.Some? then f["space" := VStr(r.space.value)] else f
  }

  /** upsert_node on an existing row: the digests agree. */
  predicate SameNode(r: GraphRow, nodeType: string, space: string, props: map<string, Value>)
    requires r.props.Dict?
  {
    && r.nodeType == nodeType && Merged(r) == props
    && (if r.space.Some? && r.space.value != "" then r.space.value == space else props.Keys >= {"space"} && props["space"] == VStr(space))
  }

  class Stores {
    var graph: Graph
    var docs: Docs
    const quiet: bool // nobody else writes

    constructor (graph: Graph, docs: Docs, quiet: bool)
      ensures this.graph == graph && this.docs == docs && this.quiet == quiet
    {
      this.graph, this.docs, this.quiet := graph, docs, quiet;
    }

    /** Whatever other processes do between two calls of this tool. */
    method Others()
      modifies this
      ensures quiet ==> graph == old(graph) && docs == old(docs)
    {
      if !quiet { graph, docs := *, *; }
    }
  }

  /**
   * _backfill_one. before and after are the documents around its one write: that write adds at
   * most one row, under a key that had none, and the graph is not written at all. The new document
   * carries the graph row it read.
   */
  method BackfillOne(st: Stores, f: GraphFinding) returns (outcome: Outcome, ghost before: Docs, ghost after: Docs, ghost read: Option<GraphRow>)
    modifies st
    ensures Submap(before, after) && st.docs == after
    ensures outcome.Healed? ==> f.space.Some? && var k := DocKey(f.space.value, f.id);
      && k !in before && after.Keys == before.Keys + {k} && after[k].nodeType == VStr(f.nodeType)
      && read.Some? && read.value.space == f.space && DocCarries(read.value, after[k])
    ensures !outcome.Healed? ==> after == before
    ensures outcome in {Healed, SkippedExists, SkippedRejected}
    ensures outcome.SkippedRejected? <==>
      !(read.Some? && GraphRowUsable(f.id, read.value) && read.value.space == f.space && read.value.nodeType == f.nodeType)
    ensures !outcome.SkippedRejected? ==> f.space.Some? && (outcome.SkippedExists? <==> DocKey(f.space.value, f.id) in before)
    ensures st.quiet ==> st.graph == old(st.graph) && before == old(st.docs)
    ensures st.quiet ==> read == if f.id in st.graph then Some(st.graph[f.id]) else None
    ensures st.quiet && GraphFindingRight(f, old(st.graph), old(st.docs)) && f.healable ==> outcome.Healed?
  {
    st.Others();
    before, after, read := st.docs, st.docs, None;
    if f.id !in st.graph { return SkippedRejected, before, after, read; }
    var current := st.graph[f.id];
    read := Some(current);
    if !GraphRowUsable(f.id, current) { return SkippedRejected, before, after, read; }
    if current.space != f.space || current.nodeType != f.nodeType { return SkippedRejected, before, after, read; }
    var row := Backfilled(current);
    BackfilledCarries(current);
    st.Others();
    var k := DocKey(current.space.value, f.id);
    before, after := st.docs, st.docs;
    if k in st.docs {
      NoDocs(st.docs, f.id, k);
      return SkippedExists, before, after, read;
    }
    st.docs := st.docs[k := row];
    after := st.docs;
    outcome := Healed;
  }

  lemma NoDocs(d: Docs, id: Id, k: DocKey)
    requires k in d && k.id == id
    ensures DocsOf(d, id) != {}
  {
    assert k in DocsOf(d, id);
  }

  /**
   * _promote_one: likewise, its one write adds at most one graph row, for an id that had none. Healed
   * means that the row there, new or not, carries the document it read.
   */
  method PromoteOne(st: Stores, f: DocFinding) returns (outcome: Outcome, ghost before: Graph, ghost after: Graph, ghost read: Option<DocRow>)
    modifies st
    ensures Submap(before, after) && st.graph == after
    ensures after.Keys <= before.Keys + {f.id}
    ensures !outcome.Healed? ==> after == before
    ensures outcome.Healed? ==> f.id in after && f.space.Some? && (f.id !in before ==> after[f.id].space == f.space)
    ensures outcome.Healed? ==> read.Some? && GraphCarries(DocKey(f.space.value, f.id), read.value, after[f.id])
    ensures outcome.Healed? && f.id !in before ==> after[f.id].props.encodable
    ensures outcome in {Healed, SkippedConflict, SkippedRejected, Raised}
    ensures outcome.SkippedRejected? <==> !(f.space.Some? && read.Some? && DocRowUsable(DocKey(f.space.value, f.id), read.value))
    ensures outcome.Raised? <==> !outcome.SkippedRejected? && f.id in before && before[f.id].props.NotADict?
    ensures outcome.SkippedConflict? <==>
      && !outcome.SkippedRejected? && !outcome.Raised?
      && f.id in before && !GraphCarries(DocKey(f.space.value, f.id), read.value, before[f.id])
    ensures st.quiet ==> st.docs == old(st.docs) && before == old(st.graph)
    ensures st.quiet && read.Some? ==> f.space.Some? && DocKey(f.space.value, f.id) in st.docs && read.value == st.docs[DocKey(f.space.value, f.id)]
    ensures st.quiet && read.None? ==> f.space.None? || DocsOf(st.docs, f.id) != {DocKey(f.space.value, f.id)}
    ensures st.quiet && DocFindingRight(f, old(st.graph), old(st.docs)) && f.healable ==>
      outcome.Healed? && VStr(after[f.id].nodeType) == old(st.docs)[DocKey(f.space.value, f.id)].nodeType
  {
    st.Others();
    before, after, read := st.graph, st.graph, None;
    var rows := DocsOf(st.docs, f.id);
    if f.space.None? || |rows| != 1 || DocKey(f.space.value, f.id) !in rows {
      return SkippedRejected, before, after, read;
    }
    var k := DocKey(f.space.value, f.id);
    var row := st.docs[k];
    read := Some(row);
    if !PackUsable(row.props) || !row.nodeType.VStr? { return SkippedRejected, before, after, read; }
    var props := Prepare(row.nodeType.s, f.id, row.props, f.space.value);
    if props.None? { return SkippedRejected, before, after, read; }
    PreparedCarries(k, row);
    st.Others();
    before, after := st.graph, st.graph;
    if f.id in st.graph {
      var stored := st.graph[f.id];
      if stored.props.NotADict? { return Raised, before, after, read; }
      return if SameNode(stored, row.nodeType.s, f.space.value, props.value) then Healed else SkippedConflict, before, after, read;
    }
    st.graph := st.graph[f.id := GraphRow(row.nodeType.s, f.space, Dict(props.value, true))];
    after := st.graph;
    outcome := Healed;
  }

  // -------------------------------------------------------- a run left alone

  /** Both stores say the same about an id as before. */
  predicate SameAt(g: Graph, d: Docs, g': Graph, d': Docs, id: Id) {
    && (id in g <==> id in g') && (id in g ==> g[id] == g'[id])
    && DocsOf(d, id) == DocsOf(d', id) && forall k :: k in d && k.id == id ==> k in d' && d[k] == d'[k]
  }

  lemma StatesAreLocal(g: Graph, d: Docs, g': Graph, d': Docs, id: Id)
    requires SameAt(g, d, g', d', id)
    ensures HealableGraph(g, d, id) == HealableGraph(g', d', id)
    ensures HealableDoc(g, d, id) == HealableDoc(g', d', id)
    ensures Matched(g, d, id) == Matched(g', d', id)
    ensures forall f: GraphFinding :: f.id == id ==> GraphFindingRight(f, g, d) == GraphFindingRight(f, g', d')
    ensures forall f: DocFinding :: f.id == id ==> DocFindingRight(f, g, d) == DocFindingRight(f, g', d')
  {
    assert forall k :: k in d' && k.id == id ==> k in DocsOf(d', id);
    assert forall k :: k in d && k.id == id ==> k in DocsOf(d, id);
  }

  lemma MatchedIsSettled(g: Graph, d: Docs, id: Id)
    requires Matched(g, d, id)
    ensures !HealableGraph(g, d, id) && !HealableDoc(g, d, id)
  {
  }

  /** The graph row has its document, and the document has its graph row. */
  ghost predicate DocHealed(r: GraphRow, d: Docs, id: Id) {
    r.space.Some? && DocKey(r.space.value, id) in d && DocCarries(r, d[DocKey(r.space.value, id)])
  }

  ghost predicate GraphHealed(d0: Docs, g: Graph, id: Id) {
    id in g && forall k :: k in d0 && k.id == id ==> GraphCarries(k, d0[k], g[id])
  }

  /** Where a quiet run stands: finished ids match, all others are untouched. */
  ghost predicate HealedSoFar(g0: Graph, d0: Docs, g: Graph, d: Docs, done: set<Id>) {
    && (forall id :: id in done ==> Matched(g, d, id) && (HealableGraph(g0, d0, id) || HealableDoc(g0, d0, id)))
    && (forall id :: id !in done ==> SameAt(g0, d0, g, d, id))
  }

  lemma BackfillAdvances(g0: Graph, d0: Docs, g: Graph, d: Docs, done: set<Id>, f: GraphFinding, row: DocRow)
    requires HealedSoFar(g0, d0, g, d, done) && f.id !in done
    requires GraphFindingRight(f, g0, d0) && f.healable && row.nodeType == VStr(f.nodeType)
    ensures HealedSoFar(g0, d0, g, d[DocKey(f.space.value, f.id) := row], done + {f.id})
  {
    var k := DocKey(f.space.value, f.id);
    var d' := d[k := row];
    assert SameAt(g0, d0, g, d, f.id);
    assert k in DocsOf(d', f.id);
    forall x | x in d' && x.id == f.id
      ensures x == k
    {
      if x in d { NoDocs(d, f.id, x); }
    }
    forall id | id != f.id
      ensures DocsOf(d', id) == DocsOf(d, id)
    {
    }
  }

  lemma PromotionAdvances(g0: Graph, d0: Docs, g: Graph, d: Docs, done: set<Id>, f: DocFinding, row: GraphRow)
    requires HealedSoFar(g0, d0, g, d, done) && f.id !in done
    requires DocFindingRight(f, g0, d0) && f.healable
    requires row.space == f.space && VStr(row.nodeType) == d0[DocKey(f.space.value, f.id)].nodeType
    ensures HealedSoFar(g0, d0, g[f.id := row], d, done + {f.id})
  {
    var k := DocKey(f.space.value, f.id);
    assert SameAt(g0, d0, g, d, f.id);
    assert k in DocsOf(d0, f.id) && |DocsOf(d0, f.id)| == 1;
    forall x | x in d && x.id == f.id
      ensures x == k
    {
      assert x in DocsOf(d, f.id);
      OnlyMember(DocsOf(d0, f.id), x, k);
    }
  }

  /** Every finished id has a row that carries what the other store knew of it. */
  ghost predicate Carried(g0: Graph, d0: Docs, g: Graph, d: Docs, done: set<Id>) {
    && (forall id :: id in done && HealableGraph(g0, d0, id) ==> DocHealed(g0[id], d, id))
    && (forall id :: id in done && HealableDoc(g0, d0, id) ==> GraphHealed(d0, g, id))
  }

  lemma DocCarried(g0: Graph, d0: Docs, g: Graph, d: Docs, done: set<Id>, f: GraphFinding, row: DocRow)
    requires Carried(g0, d0, g, d, done) && GraphFindingRight(f, g0, d0) && f.space.Some? && DocCarries(g0[f.id], row)
    ensures Carried(g0, d0, g, d[DocKey(f.space.value, f.id) := row], done + {f.id})
  {
    hide DocCarries, GraphHealed, DocsOf, GraphRowUsable;
  }

  lemma GraphCarried(g0: Graph, d0: Docs, g: Graph, d: Docs, done: set<Id>, f: DocFinding, row: GraphRow)
    requires Carried(g0, d0, g, d, done) && DocFindingRight(f, g0, d0) && f.healable
    requires GraphCarries(DocKey(f.space.value, f.id), d0[DocKey(f.space.value, f.id)], row)
    ensures Carried(g0, d0, g[f.id := row], d, done + {f.id})
  {
    var k := DocKey(f.space.value, f.id);
    assert k in DocsOf(d0, f.id);
    forall x | x in d0 && x.id == f.id
      ensures x == k
    {
      assert x in DocsOf(d0, f.id);
      OnlyMember(DocsOf(d0, f.id), x, k);
    }
    hide GraphCarries, DocHealed, DocRowUsable, GraphRowUsable, DocsOf;
  }

  lemma NotDoneIsSame(g0: Graph, d0: Docs, g: Graph, d: Docs, done: set<Id>, id: Id)
    requires HealedSoFar(g0, d0, g, d, done) && id !in done
    ensures (id in g <==> id in g0) && (id in g ==> g[id] == g0[id])
  {
    assert SameAt(g0, d0, g, d, id);
  }

  lemma OnlyMember<T>(s: set<T>, a: T, b: T)
    requires a in s && b in s && |s| == 1
    ensures a == b
  {
    assert s == {b} + (s - {b}) && |s - {b}| == 0;
  }

  /** A store just before and just after a write of the tool, and the id it was for. */
  datatype Write =
    | ToDocs(id: Id, docsBefore: Docs, docsAfter: Docs)
    | ToGraph(id: Id, graphBefore: Graph, graphAfter: Graph)
  {
    /** Every row is still there, unchanged, and any new one is of this id. */
    predicate Adds() {
      match this
      case ToDocs(id, before, after) => Submap(before, after) && forall k :: k in after && k !in before ==> k.id == id
      case ToGraph(id, before, after) => Submap(before, after) && forall k :: k in after && k !in before ==> k == id
    }
  }

  /**
   * heal: graph-only findings first, then, if asked for, doc-only ones. Whatever others write in
   * between, each write of the tool only adds rows of the id it is for. If nobody else writes,
   * every healable finding is healed, a healed id matches afterwards and its new row carries what the
   * other store knew of it, everything else is as it was, and nothing healable is left.
   */
  method Heal(st: Stores, r: Report, promote: bool) returns (outcomes: seq<Outcome>, ghost writes: seq<Write>)
    requires Reports(r, st.graph, st.docs, AllIds(st.graph, st.docs))
    modifies st
    ensures |writes| == |outcomes| && forall w :: w in writes ==> w.Adds()
    ensures !promote ==> forall w :: w in writes ==> w.ToDocs?
    ensures st.quiet ==>
      && (forall o :: o in outcomes ==> o.Healed?)
      && (forall id :: !HealableGraph(st.graph, st.docs, id) && (promote ==> !HealableDoc(st.graph, st.docs, id)))
      && exists done :: HealedSoFar(old(st.graph), old(st.docs), st.graph, st.docs, done)
           && Carried(old(st.graph), old(st.docs), st.graph, st.docs, done)
  {
    hide GraphFindingRight, DocFindingRight, HealedSoFar, Carried, DocCarries, GraphCarries, HealableGraph, HealableDoc, Matched,
      SameAt, DocsOf, AllIds, GraphRowUsable, DocRowUsable;
    ghost var g0, d0, done := st.graph, st.docs, {};
    outcomes, writes := [], [];
    NothingHealed(g0, d0);
    for n := 0 to |r.graphOnly|
      invariant |writes| == |outcomes| && forall w :: w in writes ==> w.ToDocs? && w.Adds()
      invariant st.quiet ==> HealedSoFar(g0, d0, st.graph, st.docs, done) && Carried(g0, d0, st.graph, st.docs, done)
      invariant st.quiet ==> forall o :: o in outcomes ==> o.Healed?
      invariant st.quiet ==> forall i :: 0 <= i < |r.graphOnly| ==> (r.graphOnly[i].id in done <==> i < n && r.graphOnly[i].healable)
      invariant st.quiet ==> forall id :: id in done ==> exists i :: 0 <= i < n && r.graphOnly[i].id == id
    {
      var f := r.graphOnly[n];
      assert f in r.graphOnly;
      if f.healable {
        ghost var g, d := st.graph, st.docs;
        var outcome;
        ghost var before, after, read;
        if st.quiet { StillRight(g0, d0, g, d, done, f.id); }
        outcome, before, after, read := BackfillOne(st, f);
        outcomes, writes := outcomes + [outcome], writes + [ToDocs(f.id, before, after)];
        if st.quiet {
          ghost var k := DocKey(f.space.value, f.id);
          assert after == before[k := after[k]];
          BackfillAdvances(g0, d0, g, d, done, f, after[k]);
          NotDoneIsSame(g0, d0, g, d, done, f.id);
          DocCarried(g0, d0, g, d, done, f, after[k]);
          done := done + {f.id};
        }
      }
    }
    if promote {
      DisjointFindings(r, g0, d0);
      for n := 0 to |r.docOnly|
        invariant |writes| == |outcomes| && forall w :: w in writes ==> w.Adds()
        invariant st.quiet ==> HealedSoFar(g0, d0, st.graph, st.docs, done) && Carried(g0, d0, st.graph, st.docs, done)
        invariant st.quiet ==> forall o :: o in outcomes ==> o.Healed?
        invariant st.quiet ==> forall i :: 0 <= i < |r.graphOnly| && r.graphOnly[i].healable ==> r.graphOnly[i].id in done
        invariant st.quiet ==> forall i :: 0 <= i < |r.docOnly| ==> (r.docOnly[i].id in done <==> i < n && r.docOnly[i].healable)
      {
        var f := r.docOnly[n];
        assert f in r.docOnly;
        if f.healable {
          ghost var g, d := st.graph, st.docs;
          var outcome;
          ghost var before, after, read;
          if st.quiet {
            StillRight(g0, d0, g, d, done, f.id);
            PromotionFits(g0, d0, g, d, done, f);
          }
          outcome, before, after, read := PromoteOne(st, f);
          outcomes, writes := outcomes + [outcome], writes + [ToGraph(f.id, before, after)];
          if st.quiet {
            assert after == before[f.id := after[f.id]];
            PromotionAdvances(g0, d0, g, d, done, f, after[f.id]);
            GraphCarried(g0, d0, g, d, done, f, after[f.id]);
            done := done + {f.id};
          }
        }
      }
    }
    if st.quiet { NothingLeft(r, g0, d0, st.graph, st.docs, done, promote); }
  }

  lemma DisjointFindings(r: Report, g: Graph, d: Docs)
    requires Reports(r, g, d, AllIds(g, d))
    ensures forall i, j :: 0 <= i < |r.graphOnly| && 0 <= j < |r.docOnly| ==> r.graphOnly[i].id != r.docOnly[j].id
  {
    forall i, j | 0 <= i < |r.graphOnly| && 0 <= j < |r.docOnly|
      ensures r.graphOnly[i].id != r.docOnly[j].id
    {
      assert GraphFindingRight(r.graphOnly[i], g, d) && DocFindingRight(r.docOnly[j], g, d);
    }
  }

  lemma PromotionFits(g0: Graph, d0: Docs, g: Graph, d: Docs, done: set<Id>, f: DocFinding)
    requires HealedSoFar(g0, d0, g, d, done) && f.id !in done && DocFindingRight(f, g0, d0) && f.healable
    ensures f.id !in g && f.space.Some? && DocKey(f.space.value, f.id) in d0 && DocKey(f.space.value, f.id) in d
    ensures d[DocKey(f.space.value, f.id)] == d0[DocKey(f.space.value, f.id)]
  {
    assert SameAt(g0, d0, g, d, f.id);
  }

  lemma HealableIsListed(r: Report, g: Graph, d: Docs, id: Id)
    requires Reports(r, g, d, AllIds(g, d))
    ensures HealableGraph(g, d, id) ==> exists i :: 0 <= i < |r.graphOnly| && r.graphOnly[i].id == id && r.graphOnly[i].healable
    ensures HealableDoc(g, d, id) ==> exists i :: 0 <= i < |r.docOnly| && r.docOnly[i].id == id && r.docOnly[i].healable
  {
    StatesPartition(g, d, id);
    if HealableGraph(g, d, id) {
      assert id in GraphOnlyIds(g, d, AllIds(g, d));
      var f :| f in r.graphOnly && f.id == id;
      assert GraphFindingRight(f, g, d);
    }
    if HealableDoc(g, d, id) {
      assert id in DocOnlyIds(g, d, AllIds(g, d));
      var f :| f in r.docOnly && f.id == id;
      assert DocFindingRight(f, g, d);
    }
  }

  lemma NothingLeft(r: Report, g0: Graph, d0: Docs, g: Graph, d: Docs, done: set<Id>, promote: bool)
    requires Reports(r, g0, d0, AllIds(g0, d0)) && HealedSoFar(g0, d0, g, d, done)
    requires forall i :: 0 <= i < |r.graphOnly| && r.graphOnly[i].healable ==> r.graphOnly[i].id in done
    requires promote ==> forall i :: 0 <= i < |r.docOnly| && r.docOnly[i].healable ==> r.docOnly[i].id in done
    ensures forall id :: !HealableGraph(g, d, id) && (promote ==> !HealableDoc(g, d, id))
  {
    forall id
      ensures !HealableGraph(g, d, id) && (promote ==> !HealableDoc(g, d, id))
    {
      if id in done {
        MatchedIsSettled(g, d, id);
      } else {
        StatesAreLocal(g0, d0, g, d, id);
        HealableIsListed(r, g0, d0, id);
      }
    }
  }

  lemma NothingHealed(g: Graph, d: Docs)
    ensures HealedSoFar(g, d, g, d, {}) && Carried(g, d, g, d, {})
  {
  }

  lemma StillRight(g0: Graph, d0: Docs, g: Graph, d: Docs, done: set<Id>, id: Id)
    requires HealedSoFar(g0, d0, g, d, done) && id !in done
    ensures forall f: GraphFinding :: f.id == id ==> GraphFindingRight(f, g0, d0) == GraphFindingRight(f, g, d)
    ensures forall f: DocFinding :: f.id == id ==> DocFindingRight(f, g0, d0) == DocFindingRight(f, g, d)
  {
    StatesAreLocal(g0, d0, g, d, id);
  }
}
