/**
 * The one decision function of the space backfill: which space, if any, a document or
 * vector record without a valid one receives.
 */
module SpaceDecision {
  import opened Basics
  import opened PythonValues

  const EVIDENCE_SPACE: string := "evidence"

  /** A value of one metadata key; numbers, bools, lists and objects are not told apart. */
  datatype Value = VNull | VStr(s: string) | VOther(id: nat)

  /** A parsed metadata object; dumps says whether it can be written back as JSON text. */
  datatype Meta = Meta(fields: map<string, Value>, dumps: bool)

  /** A stored JSON column. */
  datatype Column = SqlNull | EmptyText | Object(meta: Meta) | Corrupt

  function Get(m: Meta, key: string): Value {
    if key in m.fields then m.fields[key] else VNull
  }

  /** parse_meta: NULL and empty text read as an empty object. */
  function ParseMeta(c: Column): Option<Meta> {
    match c
    case SqlNull => Some(Meta(map[], true))
    case EmptyText => Some(Meta(map[], true))
    case Object(m) => Some(m)
    case Corrupt => None
  }

  /** parse_graph_properties: empty text is corrupt here. */
  function ParseProps(c: Column): Option<Meta> {
    if c.Object? then Some(c.meta) else None
  }

  // ------------------------------------------------------------------- spaces

  datatype Kind = KNull | KNonString | KEmpty | KContainer | KValid

  /** What str.lstrip removes. */
  predicate IsBlank(c: char) {
    || '\t' <= c <= '\r' || '\U{1C}' <= c <= ' ' || c == '\U{85}' || c == '\U{A0}' || c == '\U{1680}'
    || '\U{2000}' <= c <= '\U{200A}' || c == '\U{2028}' || c == '\U{2029}' || c == '\U{202F}'
    || c == '\U{205F}' || c == '\U{3000}'
  }

  function Lstrip(s: string): (r: string)
    ensures |r| <= |s| && r == s[|s| - |r|..]
    ensures r != "" ==> !IsBlank(r[0])
    ensures forall i :: 0 <= i < |s| - |r| ==> IsBlank(s[i])
  {
    if s != "" && IsBlank(s[0]) then Lstrip(s[1..]) else s
  }

  predicate ContainerLike(s: string) {
    var r := Lstrip(s);
    r != "" && (r[0] == '[' || r[0] == '{')
  }

  predicate ValidSpace(s: string) {
    s != "" && !ContainerLike(s)
  }

  /** The valid space of a value, or why there is none. */
  function ValueKind(v: Value): (r: (Option<string>, Kind))
    ensures r.0.Some? <==> r.1.KValid?
    ensures r.0.Some? ==> v == VStr(r.0.value) && ValidSpace(r.0.value)
    ensures v.VStr? && ValidSpace(v.s) ==> r.0 == Some(v.s)
    ensures (r.1.KNull? <==> v == VNull) && (r.1.KNonString? <==> v.VOther?) && (r.1.KEmpty? <==> v == VStr(""))
  {
    match v
    case VNull => (None, KNull)
    case VOther(_) => (None, KNonString)
    case VStr(s) =>
      if s == "" then (None, KEmpty)
      else if ContainerLike(s) then (None, KContainer)
      else (Some(s), KValid)
  }

  /** Only the first character that is not blank decides. */
  lemma ContainerLikeWitness(s: string, i: nat)
    requires i < |s| && !IsBlank(s[i]) && forall j :: 0 <= j < i ==> IsBlank(s[j])
    ensures ContainerLike(s) <==> s[i] == '[' || s[i] == '{'
  {
    var r := Lstrip(s);
    assert |s| - |r| == i;
  }

  // -------------------------------------------------------------------- packs

  datatype Pack = InvalidPack | PackIs(s: string)

  function PackOf(meta: Option<Meta>): Pack {
    match meta
    case None => InvalidPack
    case Some(m) =>
      match Get(m, "pack_id")
      case VNull => PackIs("")
      case VStr(s) => PackIs(s)
      case VOther(_) => InvalidPack
  }

  function StrOrNone(v: Value): Option<string> {
    if v.VStr? && v.s != "" then Some(v.s) else None
  }

  // --------------------------------------------------------------- the graph

  datatype GraphRow = GraphRow(id: PyVal, spaceColumn: Value, props: Column)

  /** What one graph row says about its id. */
  datatype GraphFact = GraphFact(propsBad: bool, space: Option<string>, pack: Option<string>)

  datatype GraphEntry = GraphEntry(fact: GraphFact, ambiguous: bool)

  function FactOf(row: GraphRow): (f: GraphFact)
    ensures f.space.Some? ==> ValidSpace(f.space.value)
  {
    match ParseProps(row.props)
    case None => GraphFact(true, None, None)
    case Some(m) =>
      var own := ValueKind(Get(m, "space")).0;
      GraphFact(false, if own.Some? then own else ValueKind(row.spaceColumn).0, StrOrNone(Get(m, "pack_id")))
  }

  // ------------------------------------------------------------ the decision

  datatype Class =
    | SkipValid | ApplyGraph | ApplySourceDefault
    | HoldBadMeta | HoldPackInvalid | HoldPackPartitionMismatch
    | HoldGraphAmbiguous | HoldGraphPropsBad | HoldGraphSpaceMissing | HoldPackMissing | HoldPackDisagrees
    | HoldDocPairPackDiffers | HoldDocPairHeld | HoldOrphan
  {
    predicate Applies() {
      ApplyGraph? || ApplySourceDefault?
    }

    predicate Holds() {
      !SkipValid? && !Applies()
    }
  }

  datatype Decision = Decision(cls: Class, space: Option<string>)

  /** A document row as vectors see it: its pack, and its space unless it is held. */
  datatype DocEntry = DocEntry(pack: Pack, space: Option<string>)

  datatype StoreName = DocStore | VectorStore

  function MappedDecision(g: GraphEntry, pack: string, allow: bool): Decision {
    if g.ambiguous then Decision(HoldGraphAmbiguous, None)
    else if g.fact.propsBad then Decision(HoldGraphPropsBad, None)
    else if g.fact.space.None? then Decision(HoldGraphSpaceMissing, None)
    else if (pack == "" || g.fact.pack.None?) && !allow then Decision(HoldPackMissing, None)
    else if pack != "" && g.fact.pack.Some? && pack != g.fact.pack.value then Decision(HoldPackDisagrees, None)
    else Decision(ApplyGraph, g.fact.space)
  }

  function Decide(store: StoreName, meta: Option<Meta>, partition: Option<string>,
                  g: Option<GraphEntry>, doc: Option<DocEntry>, allow: bool): Decision
  {
    if meta.None? then Decision(HoldBadMeta, None)
    else
      var valid := ValueKind(Get(meta.value, "space")).0;
      if valid.Some? then Decision(SkipValid, valid)
      else if PackOf(meta).InvalidPack? then Decision(HoldPackInvalid, None)
      else
        var own := PackOf(meta).s;
        var pack := if store.DocStore? then own else if partition.Some? then partition.value else "";
        if own != pack then Decision(HoldPackPartitionMismatch, None)
        else if g.Some? then MappedDecision(g.value, pack, allow)
        else if store.DocStore? then Decision(ApplySourceDefault, Some(EVIDENCE_SPACE))
        else if doc.Some? then
          if doc.value.pack != PackIs(pack) then Decision(HoldDocPairPackDiffers, None)
          else if doc.value.space.None? then Decision(HoldDocPairHeld, None)
          else Decision(ApplySourceDefault, doc.value.space)
        else if StrOrNone(Get(meta.value, "source_id")).Some? then Decision(ApplySourceDefault, Some(EVIDENCE_SPACE))
        else Decision(HoldOrphan, None)
  }

  /** The graph and document entries carry only valid spaces. */
  predicate GoodEntries(g: Option<GraphEntry>, doc: Option<DocEntry>) {
    && (g.Some? && g.value.fact.space.Some? ==> ValidSpace(g.value.fact.space.value))
    && (doc.Some? && doc.value.space.Some? ==> ValidSpace(doc.value.space.value))
  }

  /** A readable record with a usable pack and no valid space: the ones the table below is about. */
  predicate Needs(store: StoreName, meta: Option<Meta>, partition: Option<string>) {
    && meta.Some? && ValueKind(Get(meta.value, "space")).0.None? && PackOf(meta).PackIs?
    && (store.VectorStore? ==> PackOf(meta).s == if partition.Some? then partition.value else "")
  }

  /** The record and the graph row name a pack and it is the same, or one is missing and that is allowed. */
  predicate PacksAgree(pack: string, g: GraphEntry, allow: bool) {
    if pack == "" || g.fact.pack.None? then allow else g.fact.pack == Some(pack)
  }

  /**
   * The documented table, row by row and without an order of its own: under which circumstances
   * each class is decided, and with which space.
   */
  lemma DecisionTable(store: StoreName, meta: Option<Meta>, partition: Option<string>,
                      g: Option<GraphEntry>, doc: Option<DocEntry>, allow: bool)
    ensures var d := Decide(store, meta, partition, g, doc, allow);
      var c := d.cls;
      var bare := meta.Some? && ValueKind(Get(meta.value, "space")).0.None?;
      var needs := Needs(store, meta, partition);
      var mapped := needs && g.Some? && !g.value.ambiguous && !g.value.fact.propsBad;
      var paired := needs && store.VectorStore? && g.None? && doc.Some?;
      var alone := needs && store.VectorStore? && g.None? && doc.None?;
      var sourced := meta.Some? && StrOrNone(Get(meta.value, "source_id")).Some?;
      && (c.HoldBadMeta? <==> meta.None?)
      && (c.SkipValid? <==> meta.Some? && !bare)
      && (c.HoldPackInvalid? <==> bare && PackOf(meta).InvalidPack?)
      && (c.HoldPackPartitionMismatch? <==> bare && PackOf(meta).PackIs? && !needs)
      && (c.HoldGraphAmbiguous? <==> needs && g.Some? && g.value.ambiguous)
      && (c.HoldGraphPropsBad? <==> needs && g.Some? && !g.value.ambiguous && g.value.fact.propsBad)
      && (c.HoldGraphSpaceMissing? <==> mapped && g.value.fact.space.None?)
      && (c.ApplyGraph? <==> mapped && g.value.fact.space.Some? && PacksAgree(PackOf(meta).s, g.value, allow))
      && (c.HoldPackMissing? <==> mapped && g.value.fact.space.Some? && !allow && (PackOf(meta).s == "" || g.value.fact.pack.None?))
      && (c.HoldPackDisagrees? <==> mapped && g.value.fact.space.Some? && PackOf(meta).s != ""
                                    && g.value.fact.pack.Some? && g.value.fact.pack.value != PackOf(meta).s)
      && (c.HoldDocPairPackDiffers? <==> paired && doc.value.pack != PackOf(meta))
      && (c.HoldDocPairHeld? <==> paired && doc.value.pack == PackOf(meta) && doc.value.space.None?)
      && (c.HoldOrphan? <==> alone && !sourced)
      && (c.ApplySourceDefault? <==>
            || (needs && store.DocStore? && g.None?)
            || (paired && doc.value.pack == PackOf(meta) && doc.value.space.Some?)
            || (alone && sourced))
      && (c.SkipValid? ==> d.space.Some? && Get(meta.value, "space") == VStr(d.space.value))
      && (c.ApplyGraph? ==> d.space == g.value.fact.space)
      && (c.ApplySourceDefault? ==> d.space == if paired then doc.value.space else Some("evidence"))
      && (c.Holds() ==> d.space == None)
  {
    hide Get;
  }

  /** The pack of a record: its string, or the empty one where the key is missing or null. */
  lemma PackExactly(meta: Option<Meta>, pack: string)
    ensures PackOf(meta) == PackIs(pack) <==>
      && meta.Some?
      && (if "pack_id" in meta.value.fields && meta.value.fields["pack_id"] != VNull
          then meta.value.fields["pack_id"] == VStr(pack) else pack == "")
    ensures PackOf(meta).InvalidPack? <==>
      meta.None? || ("pack_id" in meta.value.fields && meta.value.fields["pack_id"].VOther?)
  {
  }

  /** The characters str.lstrip removes, one by one. */
  lemma BlankExactly(c: char)
    ensures IsBlank(c) <==> c as int in {
      0x09, 0x0A, 0x0B, 0x0C, 0x0D, 0x1C, 0x1D, 0x1E, 0x1F, 0x20, 0x85, 0xA0, 0x1680,
      0x2000, 0x2001, 0x2002, 0x2003, 0x2004, 0x2005, 0x2006, 0x2007, 0x2008, 0x2009, 0x200A,
      0x2028, 0x2029, 0x202F, 0x205F, 0x3000}
  {
  }

  /** The graph space of a readable row: a valid property wins, else a valid column; its pack: a string that is not empty. */
  lemma GraphSpaceOf(row: GraphRow, space: string)
    ensures FactOf(row).propsBad <==> !row.props.Object?
    ensures row.props.Object? ==>
      var own := Get(row.props.meta, "space");
      (FactOf(row).space == Some(space) <==>
        ValidSpace(space) && (own == VStr(space) || (ValueKind(own).0.None? && row.spaceColumn == VStr(space))))
    ensures FactOf(row).pack == Some(space) <==> row.props.Object? && Get(row.props.meta, "pack_id") == VStr(space) && space != ""
  {
  }

  /** Skipped and applied records have a valid space, held ones have none. */
  lemma DecidedSpaceIsValid(store: StoreName, meta: Option<Meta>, partition: Option<string>,
                            g: Option<GraphEntry>, doc: Option<DocEntry>, allow: bool)
    requires GoodEntries(g, doc)
    ensures var d := Decide(store, meta, partition, g, doc, allow);
      && (d.space.Some? <==> !d.cls.Holds())
      && (d.space.Some? ==> ValidSpace(d.space.value))
  {
    hide ValidSpace, ValueKind, PackOf, Get;
    EvidenceIsValid();
  }

  lemma EvidenceIsValid()
    ensures ValidSpace(EVIDENCE_SPACE)
  {
    assert Lstrip(EVIDENCE_SPACE) == EVIDENCE_SPACE;
  }

  /**
   * Packs gate every space that comes from another record: without --allow-pack-missing the
   * record and the graph node, or the record and its document, carry the same pack; with it
   * they never carry two different ones.
   */
  lemma SpacesStayInTheirPack(store: StoreName, meta: Option<Meta>, partition: Option<string>,
                              g: Option<GraphEntry>, doc: Option<DocEntry>, allow: bool)
    ensures var d := Decide(store, meta, partition, g, doc, allow);
      && (d.cls.ApplyGraph? ==>
            && g.Some? && !g.value.ambiguous && d.space == g.value.fact.space
            && ((allow && (PackOf(meta) == PackIs("") || g.value.fact.pack.None?))
                || (g.value.fact.pack.Some? && PackOf(meta) == PackIs(g.value.fact.pack.value))))
      && (d.cls.ApplySourceDefault? && store.VectorStore? && doc.Some? ==>
            d.space == doc.value.space && PackOf(meta) == doc.value.pack)
      && (d.cls.Applies() && store.VectorStore? ==>
            PackOf(meta) == PackIs(if partition.Some? then partition.value else ""))
  {
  }

  // ----------------------------------------------------------------- writing

  function WithSpace(m: Meta, space: string): Meta {
    m.(fields := m.fields["space" := VStr(space)])
  }

  function DocEntryOf(meta: Option<Meta>, d: Decision): DocEntry {
    DocEntry(PackOf(meta), if d.cls.Holds() then None else d.space)
  }

  /** A written record is skipped by every later decision, whatever the graph or its document says. */
  lemma WrittenIsSkipped(m: Meta, space: string, store: StoreName, partition: Option<string>,
                         g: Option<GraphEntry>, doc: Option<DocEntry>, allow: bool)
    requires ValidSpace(space)
    ensures Decide(store, Some(WithSpace(m, space)), partition, g, doc, allow) == Decision(SkipValid, Some(space))
    ensures PackOf(Some(WithSpace(m, space))) == PackOf(Some(m))
    ensures WithSpace(m, space).dumps == m.dumps
  {
    assert Get(WithSpace(m, space), "pack_id") == Get(m, "pack_id");
  }
}
