/**
 * The attribution of every document row to a registered pack: exact graph twin, fallback
 * twin, inference from the row itself, default; packs are registered before any row is written.
 */
module PackAttribution {
  import opened Basics

  datatype Id = Id(text: string)

  type Pack = string
  type Owner = nat

  const DEFAULT_PACK: Pack := "default"

  /** A JSON pack_id; other values have a truth value and a text, str(value). */
  datatype Value = Absent | Str(s: string) | Other(truthy: bool, text: string)

  datatype PackClass = Missing | Valid | Malformed

  /** _classify_pack_id; absent stands for the missing key and for null. */
  function Classify(v: Value): PackClass {
    match v
    case Absent => Missing
    case Str(s) => if s == "" then Missing else Valid
    case Other(_, _) => Malformed
  }

  /** A properties column: hint is the pack a path in it names, if any. */
  datatype Props = NotADict | Dict(pack: Value, hint: Option<Pack>)

  predicate Truthy(v: Value) {
    (v.Str? && v.s != "") || (v.Other? && v.truthy)
  }

  function TextOf(v: Value): string
    requires Truthy(v)
  {
    if v.Str? then v.s else v.text
  }

  /** resolve_row_pack_id: existing, inferred from the properties, from the id, assumed. */
  function Resolve(p: Props, idHint: Option<Pack>, presumed: Option<Pack>): Option<Pack> {
    if p.NotADict? then None
    else if Truthy(p.pack) then Some(TextOf(p.pack))
    else if p.hint.Some? then p.hint
    else if idHint.Some? then idHint
    else presumed
  }

  // ------------------------------------------------------------------- stores

  datatype GraphRow = GraphRow(id: Id, space: Option<string>, props: Props)

  /** A document row; sources have no space and no twin. */
  datatype DocRow = DocRow(space: Option<string>, id: Id, props: Props)

  /** The SQL predicate of rows to backfill: no pack_id, null or empty; a non-object has none either. */
  predicate Lacks(p: Props) {
    p.NotADict? || Classify(p.pack).Missing?
  }

  predicate Blank(space: Option<string>) {
    space.None? || space.value == ""
  }

  /** What ids say by themselves. */
  type IdHint = Id -> Option<Pack>

  /** The pack a graph row contributes: as stored, or as the graph backfill would resolve it. */
  function GraphPack(r: GraphRow, hints: IdHint, actual: bool): Option<Pack> {
    if actual then (if r.props.Dict? && Truthy(r.props.pack) then Some(TextOf(r.props.pack)) else None)
    else Resolve(r.props, hints(r.id), Some(DEFAULT_PACK))
  }

  function ExactPacks(graph: seq<GraphRow>, hints: IdHint, actual: bool, space: Option<string>, id: Id): set<Pack> {
    set r | r in graph && r.id == id && r.space == space && GraphPack(r, hints, actual).Some? :: GraphPack(r, hints, actual).value
  }

  function FallbackPacks(graph: seq<GraphRow>, hints: IdHint, actual: bool, id: Id): set<Pack> {
    set r | r in graph && r.id == id && Blank(r.space) && GraphPack(r, hints, actual).Some? :: GraphPack(r, hints, actual).value
  }

  /** One dictionary of twins: no pack, one pack, or packs that disagree. */
  datatype Twin = NoTwin | OneTwin(pack: Pack) | Ambiguous

  function TwinOf(packs: set<Pack>): Twin {
    if packs == {} then NoTwin
    else if exists p :: p in packs && packs == {p} then (var p :| p in packs && packs == {p}; OneTwin(p))
    else Ambiguous
  }

  datatype Target = Keeps | Excluded | Gets(pack: Pack)

  /** What the row itself and the default decide. */
  function OwnTarget(p: Props, idHint: Option<Pack>): Target {
    if p.NotADict? then Excluded
    else match Resolve(p, idHint, None)
      case Some(pack) => Gets(pack)
      case None => Gets(DEFAULT_PACK)
  }

  function NodeTarget(graph: seq<GraphRow>, hints: IdHint, actual: bool, row: DocRow): Target {
    if !Lacks(row.props) then Keeps
    else match TwinOf(ExactPacks(graph, hints, actual, row.space, row.id))
      case Ambiguous => Excluded
      case OneTwin(pack) => Gets(pack)
      case NoTwin =>
        match TwinOf(FallbackPacks(graph, hints, actual, row.id))
        case Ambiguous => Excluded
        case OneTwin(pack) => Gets(pack)
        case NoTwin => OwnTarget(row.props, hints(row.id))
  }

  function SourceTarget(hints: IdHint, row: DocRow): Target {
    if !Lacks(row.props) then Keeps else OwnTarget(row.props, hints(row.id))
  }

  // ------------------------------------------------- the targets, row by row

  /** A properties object without a pack_id, or with a null or empty one, or no object at all. */
  predicate Unlabelled(p: Props) {
    p.NotADict? || p.pack == Absent || p.pack == Str("")
  }

  /** The stored pack of a graph row; a value that is no string counts with its text if it is true. */
  predicate Carries(g: GraphRow, pack: Pack) {
    g.props.Dict? && ((g.props.pack == Str(pack) && pack != "") || g.props.pack == Other(true, pack))
  }

  /** Some graph row of the same id and space carries the pack. */
  ghost predicate ExactTwin(graph: seq<GraphRow>, row: DocRow, pack: Pack) {
    exists g :: g in graph && g.id == row.id && g.space == row.space && Carries(g, pack)
  }

  /** Some graph row of the same id and of no space carries the pack. */
  ghost predicate FallbackTwin(graph: seq<GraphRow>, row: DocRow, pack: Pack) {
    exists g :: g in graph && g.id == row.id && g.space in {None, Some("")} && Carries(g, pack)
  }

  /** What a row gets that no twin decides: the pack its properties name, else the one its id names, else default. */
  predicate OwnTabled(hints: IdHint, row: DocRow, t: Target) {
    if row.props.NotADict? then t == Excluded
    else if row.props.hint.Some? then t == Gets(row.props.hint.value)
    else if hints(row.id).Some? then t == Gets(hints(row.id).value)
    else t == Gets("default")
  }

  /** The documented order: exact twin, fallback twin, the row itself; twins that disagree exclude the row. */
  ghost predicate NodeTabled(graph: seq<GraphRow>, hints: IdHint, row: DocRow, t: Target) {
    if !Unlabelled(row.props) then t == Keeps
    else if exists p, q :: p != q && ExactTwin(graph, row, p) && ExactTwin(graph, row, q) then t == Excluded
    else if exists p :: ExactTwin(graph, row, p) then t.Gets? && ExactTwin(graph, row, t.pack)
    else if exists p, q :: p != q && FallbackTwin(graph, row, p) && FallbackTwin(graph, row, q) then t == Excluded
    else if exists p :: FallbackTwin(graph, row, p) then t.Gets? && FallbackTwin(graph, row, t.pack)
    else OwnTabled(hints, row, t)
  }

  lemma TwinExactly(packs: set<Pack>)
    ensures TwinOf(packs).Ambiguous? <==> exists p, q :: p != q && p in packs && q in packs
    ensures TwinOf(packs).OneTwin? ==> TwinOf(packs).pack in packs
    ensures TwinOf(packs).NoTwin? <==> forall p :: p !in packs
  {
    if packs != {} {
      var p :| p in packs;
      if forall q :: q in packs ==> q == p { assert packs == {p}; }
    }
  }

  lemma ExactByRows(graph: seq<GraphRow>, hints: IdHint, row: DocRow, p: Pack)
    ensures p in ExactPacks(graph, hints, true, row.space, row.id) <==> ExactTwin(graph, row, p)
    ensures p in FallbackPacks(graph, hints, true, row.id) <==> FallbackTwin(graph, row, p)
  {
    forall g: GraphRow
      ensures GraphPack(g, hints, true) == Some(p) <==> Carries(g, p)
    {
    }
  }

  /** The target of a document row, in terms of the stored graph rows. */
  lemma TargetTable(graph: seq<GraphRow>, hints: IdHint, row: DocRow)
    ensures NodeTabled(graph, hints, row, NodeTarget(graph, hints, true, row))
  {
    forall p
      ensures p in ExactPacks(graph, hints, true, row.space, row.id) <==> ExactTwin(graph, row, p)
      ensures p in FallbackPacks(graph, hints, true, row.id) <==> FallbackTwin(graph, row, p)
    {
      ExactByRows(graph, hints, row, p);
    }
    TwinExactly(ExactPacks(graph, hints, true, row.space, row.id));
    TwinExactly(FallbackPacks(graph, hints, true, row.id));
    hide ExactPacks, FallbackPacks, TwinOf, ExactTwin, FallbackTwin;
  }

  /** The target of a source row, which has no twin. */
  lemma SourceTable(hints: IdHint, row: DocRow)
    ensures if !Unlabelled(row.props) then SourceTarget(hints, row) == Keeps else OwnTabled(hints, row, SourceTarget(hints, row))
  {
  }

  // --------------------------------------------- preview and assignment agree

  /** A graph row the backfill has dealt with: it carries a pack, or it is no object. */
  predicate Attributed(r: GraphRow) {
    r.props.NotADict? || Truthy(r.props.pack)
  }

  ghost predicate GraphAttributed(graph: seq<GraphRow>) {
    forall r :: r in graph ==> Attributed(r)
  }

  /** For a single row, prediction and reading agree exactly when the backfill has dealt with it. */
  lemma PredictionMatchesReading(r: GraphRow, hints: IdHint)
    ensures GraphPack(r, hints, false) == GraphPack(r, hints, true) <==> Attributed(r)
  {
  }

  /** So once the graph is backfilled, the preview of step 3.5 is what step 4 assigns. */
  lemma PreviewIsAssignment(graph: seq<GraphRow>, hints: IdHint, row: DocRow)
    requires GraphAttributed(graph)
    ensures NodeTarget(graph, hints, false, row) == NodeTarget(graph, hints, true, row)
  {
    forall r | r in graph
      ensures GraphPack(r, hints, false) == GraphPack(r, hints, true)
    {
      PredictionMatchesReading(r, hints);
    }
    assert ExactPacks(graph, hints, false, row.space, row.id) == ExactPacks(graph, hints, true, row.space, row.id);
    assert FallbackPacks(graph, hints, false, row.id) == FallbackPacks(graph, hints, true, row.id);
  }

  /** What the graph says about a document's key: its exact twin, else its fallback twin. */
  function TwinAt(graph: seq<GraphRow>, hints: IdHint, actual: bool, space: Option<string>, id: Id): Twin {
    var exact := TwinOf(ExactPacks(graph, hints, actual, space, id));
    if exact.NoTwin? then TwinOf(FallbackPacks(graph, hints, actual, id)) else exact
  }

  ghost predicate TwinsAgree(graph: seq<GraphRow>, hints: IdHint) {
    forall space, id :: TwinAt(graph, hints, false, space, id) == TwinAt(graph, hints, true, space, id)
  }

  ghost predicate PreviewHolds(graph: seq<GraphRow>, hints: IdHint) {
    forall row :: NodeTarget(graph, hints, false, row) == NodeTarget(graph, hints, true, row)
  }

  /** Two different twins send some document to two different targets. */
  lemma DifferentTwinsShow(graph: seq<GraphRow>, hints: IdHint, space: Option<string>, id: Id)
    requires TwinAt(graph, hints, false, space, id) != TwinAt(graph, hints, true, space, id)
    ensures !PreviewHolds(graph, hints)
  {
    hide ExactPacks, FallbackPacks, TwinOf;
    var list := DocRow(space, id, NotADict);
    var bare := DocRow(space, id, Dict(Absent, None));
    assert NodeTarget(graph, hints, false, list) != NodeTarget(graph, hints, true, list)
        || NodeTarget(graph, hints, false, bare) != NodeTarget(graph, hints, true, bare);
  }

  /** The preview is the assignment for every document exactly if prediction and reading see the same twins. */
  lemma PreviewReadsTheTwins(graph: seq<GraphRow>, hints: IdHint)
    ensures PreviewHolds(graph, hints) <==> TwinsAgree(graph, hints)
  {
    hide ExactPacks, FallbackPacks, TwinOf;
    if TwinsAgree(graph, hints) {
      forall row: DocRow
        ensures NodeTarget(graph, hints, false, row) == NodeTarget(graph, hints, true, row)
      {
        assert TwinAt(graph, hints, false, row.space, row.id) == TwinAt(graph, hints, true, row.space, row.id);
      }
    } else {
      var space, id :| TwinAt(graph, hints, false, space, id) != TwinAt(graph, hints, true, space, id);
      DifferentTwinsShow(graph, hints, space, id);
    }
  }

  /** node_id is the primary key of the graph's nodes. */
  ghost predicate UniqueIds(graph: seq<GraphRow>) {
    forall i, j :: 0 <= i < j < |graph| ==> graph[i].id != graph[j].id
  }

  /** Where node ids are unique, the preview is the assignment exactly if the graph is backfilled. */
  lemma PreviewNeedsTheBackfill(graph: seq<GraphRow>, hints: IdHint)
    requires UniqueIds(graph)
    ensures PreviewHolds(graph, hints) <==> GraphAttributed(graph)
  {
    if GraphAttributed(graph) {
      forall row: DocRow
        ensures NodeTarget(graph, hints, false, row) == NodeTarget(graph, hints, true, row)
      {
        PreviewIsAssignment(graph, hints, row);
      }
    } else {
      var r :| r in graph && !Attributed(r);
      var p := GraphPack(r, hints, false).value;
      LonelyRow(graph, hints, false, r);
      LonelyRow(graph, hints, true, r);
      assert ExactPacks(graph, hints, false, r.space, r.id) == {p};
      assert ExactPacks(graph, hints, true, r.space, r.id) == {} && FallbackPacks(graph, hints, true, r.id) == {};
      DifferentTwinsShow(graph, hints, r.space, r.id);
    }
  }

  lemma LonelyRow(graph: seq<GraphRow>, hints: IdHint, actual: bool, r: GraphRow)
    requires UniqueIds(graph) && r in graph
    ensures var own := if GraphPack(r, hints, actual).Some? then {GraphPack(r, hints, actual).value} else {};
      && ExactPacks(graph, hints, actual, r.space, r.id) == own
      && FallbackPacks(graph, hints, actual, r.id) <= own
  {
    forall q | q in graph && q.id == r.id
      ensures q == r
    {
    }
  }

  /** Without the graph backfill they can part: the preview names the graph's pack, step 4 the row's own. */
  lemma UnattributedGraphMisleads(hints: IdHint, id: Id, x: Pack, y: Pack)
    requires x != y
    ensures var graph := [GraphRow(id, Some("concept"), Dict(Absent, Some(x)))];
      var row := DocRow(Some("concept"), id, Dict(Absent, Some(y)));
      NodeTarget(graph, hints, false, row) == Gets(x) && NodeTarget(graph, hints, true, row) == Gets(y)
  {
    var graph := [GraphRow(id, Some("concept"), Dict(Absent, Some(x)))];
    assert graph[0] in graph;
    assert ExactPacks(graph, hints, false, Some("concept"), id) == {x};
    assert ExactPacks(graph, hints, true, Some("concept"), id) == {};
    assert FallbackPacks(graph, hints, true, id) == {};
  }

  // ---------------------------------------------------------- the twin tables

  datatype TwinKey = TwinKey(space: Option<string>, id: Id)

  /** The twin dictionaries: packs seen under the full key, and under the id alone in blank spaces. */
  datatype Twins = Twins(exact: map<TwinKey, set<Pack>>, fallback: map<Id, set<Pack>>)

  function Seen<K>(m: map<K, set<Pack>>, k: K): set<Pack> {
    if k in m then m[k] else {}
  }

  /** The dictionaries hold, for every wanted id, exactly what the graph rows say. */
  ghost predicate TwinsRight(t: Twins, graph: seq<GraphRow>, hints: IdHint, ids: set<Id>, actual: bool) {
    forall id :: id in ids ==>
      && Seen(t.fallback, id) == FallbackPacks(graph, hints, actual, id)
      && forall space :: Seen(t.exact, TwinKey(space, id)) == ExactPacks(graph, hints, actual, space, id)
  }

  lemma PacksSnoc(graph: seq<GraphRow>, n: nat, hints: IdHint, actual: bool, space: Option<string>, id: Id)
    requires n < |graph|
    ensures var r, pack := graph[n], GraphPack(graph[n], hints, actual);
      && ExactPacks(graph[..n + 1], hints, actual, space, id) == ExactPacks(graph[..n], hints, actual, space, id)
           + (if r.id == id && r.space == space && pack.Some? then {pack.value} else {})
      && FallbackPacks(graph[..n + 1], hints, actual, id) == FallbackPacks(graph[..n], hints, actual, id)
           + (if r.id == id && Blank(r.space) && pack.Some? then {pack.value} else {})
  {
    assert graph[..n + 1] == graph[..n] + [graph[n]];
  }

  lemma NoPacks(hints: IdHint, actual: bool)
    ensures forall id :: FallbackPacks([], hints, actual, id) == {}
    ensures forall space, id :: ExactPacks([], hints, actual, space, id) == {}
  {
  }

  /** The loop of _graph_twin_pack_map. */
  method CollectTwins(graph: seq<GraphRow>, hints: IdHint, ids: set<Id>, actual: bool) returns (t: Twins)
    ensures TwinsRight(t, graph, hints, ids, actual)
  {
    hide GraphPack, ExactPacks, FallbackPacks;
    t := Twins(map[], map[]);
    NoPacks(hints, actual);
    for n := 0 to |graph|
      invariant TwinsRight(t, graph[..n], hints, ids, actual)
    {
      var r, pack := graph[n], GraphPack(graph[n], hints, actual);
      ghost var before := t;
      if r.id in ids && pack.Some? {
        var key := TwinKey(r.space, r.id);
        t := t.(exact := t.exact[key := Seen(t.exact, key) + {pack.value}]);
        if Blank(r.space) {
          t := t.(fallback := t.fallback[r.id := Seen(t.fallback, r.id) + {pack.value}]);
        }
      }
      forall id | id in ids
        ensures Seen(t.fallback, id) == FallbackPacks(graph[..n + 1], hints, actual, id)
        ensures forall space :: Seen(t.exact, TwinKey(space, id)) == ExactPacks(graph[..n + 1], hints, actual, space, id)
      {
        forall space
          ensures Seen(t.exact, TwinKey(space, id)) == ExactPacks(graph[..n + 1], hints, actual, space, id)
        {
          PacksSnoc(graph, n, hints, actual, space, id);
          assert Seen(before.exact, TwinKey(space, id)) == ExactPacks(graph[..n], hints, actual, space, id);
        }
        PacksSnoc(graph, n, hints, actual, None, id);
      }
    }
    assert graph[..|graph|] == graph;
  }

  /** The targets of the node rows, read off the dictionaries. */
  method NodeTargets(rows: seq<DocRow>, graph: seq<GraphRow>, hints: IdHint, actual: bool) returns (targets: seq<Target>)
    ensures |targets| == |rows|
    ensures forall i :: 0 <= i < |rows| ==> targets[i] == NodeTarget(graph, hints, actual, rows[i])
  {
    var wanted := set r | r in rows && Lacks(r.props) :: r.id;
    var t := CollectTwins(graph, hints, wanted, actual);
    targets := [];
    for n := 0 to |rows|
      invariant |targets| == n
      invariant forall i :: 0 <= i < n ==> targets[i] == NodeTarget(graph, hints, actual, rows[i])
    {
      var row := rows[n];
      var target := Keeps;
      if Lacks(row.props) {
        assert row in rows && row.id in wanted;
        var exact, fallback := TwinOf(Seen(t.exact, TwinKey(row.space, row.id))), TwinOf(Seen(t.fallback, row.id));
        if exact.Ambiguous? {
          target := Excluded;
        } else if exact.OneTwin? {
          target := Gets(exact.pack);
        } else if fallback.Ambiguous? {
          target := Excluded;
        } else if fallback.OneTwin? {
          target := Gets(fallback.pack);
        } else {
          target := OwnTarget(row.props, hints(row.id));
        }
      }
      targets := targets + [target];
    }
  }

  method SourceTargets(rows: seq<DocRow>, hints: IdHint) returns (targets: seq<Target>)
    ensures |targets| == |rows|
    ensures forall i :: 0 <= i < |rows| ==> targets[i] == SourceTarget(hints, rows[i])
  {
    targets := [];
    for n := 0 to |rows|
      invariant |targets| == n
      invariant forall i :: 0 <= i < n ==> targets[i] == SourceTarget(hints, rows[i])
    {
      targets := targets + [SourceTarget(hints, rows[n])];
    }
  }

  // ----------------------------------------------------------- writing a table

  datatype RowKey = RowKey(space: Option<string>, id: Id)

  function KeyOf(r: DocRow): RowKey {
    RowKey(r.space, r.id)
  }

  ghost predicate Keyed(rows: seq<DocRow>) {
    forall i, j :: 0 <= i < j < |rows| ==> KeyOf(rows[i]) != KeyOf(rows[j])
  }

  /**
   * json_set of pack_id, as SQLite has it: it finds no place for the key in a value that is no
   * object, and changes nothing. PostgreSQL's || makes an array of such a value instead.
   */
  function WithPack(r: DocRow, pack: Pack): DocRow {
    if r.props.Dict? then r.(props := r.props.(pack := Str(pack))) else r
  }

  function Assigned(rows: seq<DocRow>, targets: seq<Target>): seq<DocRow>
    requires |targets| == |rows|
  {
    seq(|rows|, i requires 0 <= i < |rows| => if targets[i].Gets? then WithPack(rows[i], targets[i].pack) else rows[i])
  }

  /** Only rows without a pack get one. */
  ghost predicate Fitting(rows: seq<DocRow>, targets: seq<Target>) {
    |targets| == |rows| && forall i :: 0 <= i < |rows| && targets[i].Gets? ==>
      Lacks(rows[i].props) && targets[i].pack != ""
  }

  /** UPDATE ... WHERE missing AND primary key IN (chunk). */
  function Update(rows: seq<DocRow>, chunk: seq<RowKey>, pack: Pack): seq<DocRow> {
    seq(|rows|, i requires 0 <= i < |rows| => if Lacks(rows[i].props) && KeyOf(rows[i]) in chunk then WithPack(rows[i], pack) else rows[i])
  }

  /** SELECT COUNT(*) with the same predicate. */
  function Matching(rows: seq<DocRow>, chunk: seq<RowKey>): set<nat> {
    set i: nat | i < |rows| && Lacks(rows[i].props) && KeyOf(rows[i]) in chunk
  }

  const CHUNK: nat := 200

  /** The keys that go to one pack, in scan order. */
  function Group(rows: seq<DocRow>, targets: seq<Target>, pack: Pack): seq<RowKey>
    requires |targets| == |rows|
  {
    if rows == [] then []
    else
      var n := |rows| - 1;
      Group(rows[..n], targets[..n], pack) + if targets[n] == Gets(pack) then [KeyOf(rows[n])] else []
  }

  lemma GroupSnoc(rows: seq<DocRow>, targets: seq<Target>, n: nat, pack: Pack)
    requires |targets| == |rows| && n < |rows|
    ensures Group(rows[..n + 1], targets[..n + 1], pack) ==
      if targets[n] == Gets(pack) then Group(rows[..n], targets[..n], pack) + [KeyOf(rows[n])] else Group(rows[..n], targets[..n], pack)
  {
    assert rows[..n + 1][..n] == rows[..n] && targets[..n + 1][..n] == targets[..n];
    assert Group(rows[..n], targets[..n], pack) + [] == Group(rows[..n], targets[..n], pack);
  }

  /** A key is in the group of a pack exactly if its row goes to that pack. */
  lemma {:induction false} GroupHas(rows: seq<DocRow>, targets: seq<Target>, pack: Pack, k: RowKey, n: nat)
    requires |targets| == |rows| && n <= |rows|
    ensures k in Group(rows[..n], targets[..n], pack) <==> exists i :: 0 <= i < n && KeyOf(rows[i]) == k && targets[i] == Gets(pack)
  {
    hide Group, KeyOf;
    if n == 0 {
      EmptyGroup(rows, targets, pack);
    } else {
      GroupHas(rows, targets, pack, k, n - 1);
      GroupSnoc(rows, targets, n - 1, pack);
    }
  }

  lemma EmptyGroup(rows: seq<DocRow>, targets: seq<Target>, pack: Pack)
    requires |targets| == |rows|
    ensures Group(rows[..0], targets[..0], pack) == []
  {
  }

  lemma {:induction false} GroupDistinct(rows: seq<DocRow>, targets: seq<Target>, pack: Pack, n: nat)
    requires |targets| == |rows| && Keyed(rows) && n <= |rows|
    ensures Distinct(Group(rows[..n], targets[..n], pack))
  {
    hide Group, KeyOf;
    if n == 0 {
      EmptyGroup(rows, targets, pack);
    } else {
      GroupDistinct(rows, targets, pack, n - 1);
      GroupSnoc(rows, targets, n - 1, pack);
      GroupHas(rows, targets, pack, KeyOf(rows[n - 1]), n - 1);
      assert KeyOf(rows[n - 1]) !in Group(rows[..n - 1], targets[..n - 1], pack);
    }
  }

  lemma GroupMembers(rows: seq<DocRow>, targets: seq<Target>, pack: Pack)
    requires |targets| == |rows| && Keyed(rows)
    ensures Distinct(Group(rows, targets, pack))
    ensures forall k :: k in Group(rows, targets, pack) <==> exists i :: 0 <= i < |rows| && KeyOf(rows[i]) == k && targets[i] == Gets(pack)
  {
    hide Group, KeyOf;
    assert rows[..|rows|] == rows && targets[..|rows|] == targets;
    GroupDistinct(rows, targets, pack, |rows|);
    forall k
      ensures k in Group(rows, targets, pack) <==> exists i :: 0 <= i < |rows| && KeyOf(rows[i]) == k && targets[i] == Gets(pack)
    {
      GroupHas(rows, targets, pack, k, |rows|);
    }
  }

  /** The table once the rows with these keys have been written. */
  function AfterKeys(rows: seq<DocRow>, targets: seq<Target>, done: set<RowKey>): seq<DocRow>
    requires |targets| == |rows|
  {
    seq(|rows|, i requires 0 <= i < |rows| =>
      if KeyOf(rows[i]) in done && targets[i].Gets? then WithPack(rows[i], targets[i].pack) else rows[i])
  }

  /** A chunk of one group, none of it written yet. */
  ghost predicate Pending(rows: seq<DocRow>, targets: seq<Target>, done: set<RowKey>, chunk: seq<RowKey>, pack: Pack) {
    && |targets| == |rows| && Distinct(chunk) && Elements(chunk) !! done
    && forall k :: k in chunk ==> exists i :: 0 <= i < |rows| && KeyOf(rows[i]) == k && targets[i] == Gets(pack)
  }

  lemma PendingRow(rows: seq<DocRow>, targets: seq<Target>, done: set<RowKey>, chunk: seq<RowKey>, pack: Pack, i: nat)
    requires Keyed(rows) && Fitting(rows, targets) && Pending(rows, targets, done, chunk, pack) && i < |rows| && KeyOf(rows[i]) in chunk
    ensures targets[i] == Gets(pack) && AfterKeys(rows, targets, done)[i] == rows[i] && Lacks(rows[i].props)
  {
    var j :| 0 <= j < |rows| && KeyOf(rows[j]) == KeyOf(rows[i]) && targets[j] == Gets(pack);
    assert i == j;
    assert KeyOf(rows[i]) in Elements(chunk);
  }

  lemma UpdateWritesChunk(rows: seq<DocRow>, targets: seq<Target>, done: set<RowKey>, chunk: seq<RowKey>, pack: Pack)
    requires Keyed(rows) && Fitting(rows, targets) && Pending(rows, targets, done, chunk, pack)
    ensures Update(AfterKeys(rows, targets, done), chunk, pack) == AfterKeys(rows, targets, done + Elements(chunk))
  {
    forall i | 0 <= i < |rows|
      ensures Update(AfterKeys(rows, targets, done), chunk, pack)[i] == AfterKeys(rows, targets, done + Elements(chunk))[i]
    {
      assert KeyOf(AfterKeys(rows, targets, done)[i]) == KeyOf(rows[i]);
      assert KeyOf(rows[i]) in chunk <==> KeyOf(rows[i]) in Elements(chunk);
      if KeyOf(rows[i]) in chunk { PendingRow(rows, targets, done, chunk, pack, i); }
    }
  }

  lemma MatchingSnoc(rows: seq<DocRow>, chunk: seq<RowKey>, k: RowKey, i: nat)
    requires Keyed(rows) && k !in chunk && i < |rows| && KeyOf(rows[i]) == k && Lacks(rows[i].props)
    ensures Matching(rows, chunk + [k]) == Matching(rows, chunk) + {i} && i !in Matching(rows, chunk)
  {
  }

  lemma {:induction false} MatchingSize(rows: seq<DocRow>, chunk: seq<RowKey>)
    requires Keyed(rows) && Distinct(chunk)
    requires forall k :: k in chunk ==> exists i: nat :: i < |rows| && KeyOf(rows[i]) == k && Lacks(rows[i].props)
    ensures |Matching(rows, chunk)| == |chunk|
  {
    if chunk == [] {
      assert Matching(rows, chunk) == {};
    } else {
      var n := |chunk| - 1;
      var k := chunk[n];
      assert forall j :: j in chunk[..n] ==> j in chunk;
      assert k in chunk && chunk == chunk[..n] + [k] && k !in chunk[..n];
      var i: nat :| i < |rows| && KeyOf(rows[i]) == k && Lacks(rows[i].props);
      hide Matching, KeyOf, Lacks, Keyed;
      MatchingSize(rows, chunk[..n]);
      MatchingSnoc(rows, chunk[..n], k, i);
    }
  }

  /** The count before the update is the size of the chunk: the abort is for concurrent writers only. */
  lemma ExpectedCount(rows: seq<DocRow>, targets: seq<Target>, done: set<RowKey>, chunk: seq<RowKey>, pack: Pack)
    requires Keyed(rows) && Fitting(rows, targets) && Pending(rows, targets, done, chunk, pack)
    ensures |Matching(AfterKeys(rows, targets, done), chunk)| == |chunk|
  {
    var now := AfterKeys(rows, targets, done);
    forall i | 0 <= i < |rows|
      ensures KeyOf(now[i]) == KeyOf(rows[i])
    {
    }
    forall k | k in chunk
      ensures exists i: nat :: i < |now| && KeyOf(now[i]) == k && Lacks(now[i].props)
    {
      var i :| 0 <= i < |rows| && KeyOf(rows[i]) == k && targets[i] == Gets(pack);
      PendingRow(rows, targets, done, chunk, pack, i);
      assert KeyOf(now[i]) == k && Lacks(now[i].props);
    }
    MatchingSize(now, chunk);
  }

  function Excludeds(targets: seq<Target>): nat {
    if targets == [] then 0 else Excludeds(targets[..|targets| - 1]) + if targets[|targets| - 1].Excluded? then 1 else 0
  }

  /** The grouping loop of _backfill_doc_table. */
  method GroupByPack(rows: seq<DocRow>, targets: seq<Target>) returns (byPack: map<Pack, seq<RowKey>>, excluded: nat)
    requires |targets| == |rows|
    ensures forall p :: (if p in byPack then byPack[p] else []) == Group(rows, targets, p)
    ensures excluded == Excludeds(targets)
  {
    hide Group, KeyOf;
    byPack, excluded := map[], 0;
    forall p ensures Group(rows[..0], targets[..0], p) == [] { EmptyGroup(rows, targets, p); }
    for n := 0 to |rows|
      invariant forall p :: (if p in byPack then byPack[p] else []) == Group(rows[..n], targets[..n], p)
      invariant excluded == Excludeds(targets[..n])
    {
      assert targets[..n + 1][..n] == targets[..n];
      ghost var before := byPack;
      match targets[n] {
        case Keeps =>
        case Excluded => excluded := excluded + 1;
        case Gets(p) => byPack := byPack[p := (if p in byPack then byPack[p] else []) + [KeyOf(rows[n])]];
      }
      forall p
        ensures (if p in byPack then byPack[p] else []) == Group(rows[..n + 1], targets[..n + 1], p)
      {
        GroupSnoc(rows, targets, n, p);
        assert (if p in before then before[p] else []) == Group(rows[..n], targets[..n], p);
      }
    }
    assert rows[..|rows|] == rows && targets[..|targets|] == targets;
  }

  /** The steps a run still has after one more; None for a run that nobody kills. */
  function Spend(life: Option<nat>): (left: Option<nat>)
    requires life != Some(0)
    ensures left.None? <==> life.None?
  {
    match life
    case None => None
    case Some(n) => Some(n - 1)
  }

  /** The writing loop: group by group, chunk by chunk, each counted before it is written; killed between any two. */
  method WriteGroup(rows: seq<DocRow>, targets: seq<Target>, now: seq<DocRow>, pack: Pack, keys: seq<RowKey>, life: Option<nat>,
                    ghost done: set<RowKey>)
    returns (now': seq<DocRow>, aborted: bool, killed: bool, left: Option<nat>, ghost done': set<RowKey>)
    requires Keyed(rows) && Fitting(rows, targets) && now == AfterKeys(rows, targets, done)
    requires Pending(rows, targets, done, keys, pack)
    ensures !aborted && now' == AfterKeys(rows, targets, done')
    ensures !killed ==> done' == done + Elements(keys)
    ensures (left.None? <==> life.None?) && (killed ==> left == Some(0))
  {
    now', aborted, killed, left, done' := now, false, false, life, done;
    var at := 0;
    assert done + Elements(keys[..0]) == done;
    while at < |keys|
      invariant at <= |keys| && done' == done + Elements(keys[..at]) && (left.None? <==> life.None?)
      invariant now' == AfterKeys(rows, targets, done')
    {
      if left == Some(0) { return now', false, true, left, done'; }
      left := Spend(left);
      var end := if at + CHUNK < |keys| then at + CHUNK else |keys|;
      var chunk := keys[at..end];
      ChunkIsPending(rows, targets, done, keys, pack, at, end);
      ExpectedCount(rows, targets, done', chunk, pack);
      if |Matching(now', chunk)| != |chunk| { return now', true, false, left, done'; }
      UpdateWritesChunk(rows, targets, done', chunk, pack);
      now' := Update(now', chunk, pack);
      at := end;
      done' := done + Elements(keys[..at]);
    }
    assert keys[..|keys|] == keys;
  }

  lemma ChunkIsPending(rows: seq<DocRow>, targets: seq<Target>, done: set<RowKey>, keys: seq<RowKey>, pack: Pack, at: nat, end: nat)
    requires Pending(rows, targets, done, keys, pack) && at <= end <= |keys|
    ensures Pending(rows, targets, done + Elements(keys[..at]), keys[at..end], pack)
    ensures done + Elements(keys[..end]) == done + Elements(keys[..at]) + Elements(keys[at..end])
  {
    assert keys[..end] == keys[..at] + keys[at..end];
    forall k | k in keys[at..end]
      ensures k in keys && k !in keys[..at]
    {
      var i :| 0 <= i < end - at && keys[at..end][i] == k;
      assert keys[at + i] == k;
    }
    assert forall k :: k in Elements(keys[at..end]) ==> k in Elements(keys);
  }

  /** Every row is as it was or has its target. */
  ghost predicate PartlyAssigned(rows': seq<DocRow>, rows: seq<DocRow>, targets: seq<Target>) {
    && |targets| == |rows| == |rows'|
    && forall i :: 0 <= i < |rows| ==> rows'[i] == rows[i] || rows'[i] == Assigned(rows, targets)[i]
  }

  /** _backfill_doc_table: every row gets its target, no other row is touched, and no chunk aborts. */
  method BackfillTable(rows: seq<DocRow>, targets: seq<Target>, life: Option<nat>)
    returns (rows': seq<DocRow>, excluded: nat, aborted: bool, killed: bool, left: Option<nat>)
    requires Keyed(rows) && Fitting(rows, targets)
    ensures !aborted && PartlyAssigned(rows', rows, targets)
    ensures !killed ==> rows' == Assigned(rows, targets) && excluded == Excludeds(targets)
    ensures (left.None? <==> life.None?) && (killed ==> left == Some(0))
  {
    var byPack;
    byPack, excluded := GroupByPack(rows, targets);
    rows', aborted, killed, left := rows, false, false, life;
    ghost var done: set<RowKey> := {};
    assert AfterKeys(rows, targets, {}) == rows;
    var todo := byPack.Keys;
    EveryTargetHasAGroup(rows, targets);
    while todo != {}
      invariant todo <= byPack.Keys && rows' == AfterKeys(rows, targets, done) && !aborted && !killed && (left.None? <==> life.None?)
      invariant forall i :: 0 <= i < |rows| && targets[i].Gets? ==> (KeyOf(rows[i]) in done <==> targets[i].pack !in todo)
      decreases |todo|
    {
      var pack :| pack in todo;
      var keys := byPack[pack];
      GroupIsPending(rows, targets, done, pack, todo);
      ghost var done';
      rows', aborted, killed, left, done' := WriteGroup(rows, targets, rows', pack, keys, left, done);
      if killed { return; }
      WroteGroup(rows, targets, done, pack, todo);
      done := done';
      todo := todo - {pack};
    }
    assert rows' == Assigned(rows, targets);
  }

  lemma EveryTargetHasAGroup(rows: seq<DocRow>, targets: seq<Target>)
    requires Keyed(rows) && |targets| == |rows|
    ensures forall i :: 0 <= i < |rows| && targets[i].Gets? ==> Group(rows, targets, targets[i].pack) != []
  {
    forall i | 0 <= i < |rows| && targets[i].Gets?
      ensures Group(rows, targets, targets[i].pack) != []
    {
      GroupMembers(rows, targets, targets[i].pack);
      assert KeyOf(rows[i]) in Group(rows, targets, targets[i].pack);
    }
  }

  lemma GroupIsPending(rows: seq<DocRow>, targets: seq<Target>, done: set<RowKey>, pack: Pack, todo: set<Pack>)
    requires Keyed(rows) && |targets| == |rows| && pack in todo
    requires forall i :: 0 <= i < |rows| && targets[i].Gets? ==> (KeyOf(rows[i]) in done <==> targets[i].pack !in todo)
    ensures Pending(rows, targets, done, Group(rows, targets, pack), pack)
  {
    GroupMembers(rows, targets, pack);
  }

  lemma WroteGroup(rows: seq<DocRow>, targets: seq<Target>, done: set<RowKey>, pack: Pack, todo: set<Pack>)
    requires Keyed(rows) && |targets| == |rows| && pack in todo
    requires forall i :: 0 <= i < |rows| && targets[i].Gets? ==> (KeyOf(rows[i]) in done <==> targets[i].pack !in todo)
    ensures var done' := done + Elements(Group(rows, targets, pack));
      forall i :: 0 <= i < |rows| && targets[i].Gets? ==> (KeyOf(rows[i]) in done' <==> targets[i].pack !in todo - {pack})
  {
    GroupMembers(rows, targets, pack);
    forall i | 0 <= i < |rows| && targets[i].Gets?
      ensures KeyOf(rows[i]) in Group(rows, targets, pack) <==> targets[i].pack == pack
    {
      if KeyOf(rows[i]) in Group(rows, targets, pack) {
        var j :| 0 <= j < |rows| && KeyOf(rows[j]) == KeyOf(rows[i]) && targets[j] == Gets(pack);
        assert i == j;
      }
    }
  }

  // -------------------------------------------------------------- the pipeline

  predicate GoodHint(h: Option<Pack>) {
    h.Some? ==> h.value != ""
  }

  /** Path inference gives a pack name or nothing. */
  ghost predicate GoodHints(hints: IdHint, graph: seq<GraphRow>, rows: seq<DocRow>) {
    && (forall id :: GoodHint(hints(id)))
    && (forall r :: r in graph && r.props.Dict? ==>
          GoodHint(r.props.hint) && (r.props.pack.Other? && r.props.pack.truthy ==> r.props.pack.text != ""))
    && (forall r :: r in rows && r.props.Dict? ==> GoodHint(r.props.hint))
  }

  /** backfill_pack_ids over the graph, with the default pack assumed. */
  function BackfilledRow(r: GraphRow, hints: IdHint): GraphRow {
    match Resolve(r.props, hints(r.id), Some(DEFAULT_PACK))
    case Some(pack) => if Truthy(r.props.pack) then r else r.(props := r.props.(pack := Str(pack)))
    case None => r
  }

  function BackfilledGraph(graph: seq<GraphRow>, hints: IdHint): seq<GraphRow> {
    seq(|graph|, i requires 0 <= i < |graph| => BackfilledRow(graph[i], hints))
  }

  /** The row carries the pack now and is otherwise the same; a value that is no object cannot. */
  predicate GivenPack(row: DocRow, row': DocRow, pack: Pack) {
    row' == if row.props.NotADict? then row else DocRow(row.space, row.id, Dict(Str(pack), row.props.hint))
  }

  /** How a document row ends in a run that went through. */
  ghost predicate NodeSettled(graph: seq<GraphRow>, hints: IdHint, row: DocRow, row': DocRow) {
    exists t :: NodeTabled(graph, hints, row, t) && if t.Gets? then GivenPack(row, row', t.pack) else row' == row
  }

  ghost predicate SourceSettled(hints: IdHint, row: DocRow, row': DocRow) {
    if !Unlabelled(row.props) || row.props.NotADict? then row' == row
    else exists t :: OwnTabled(hints, row, t) && t.Gets? && GivenPack(row, row', t.pack)
  }

  ghost predicate NodesSettled(graph: seq<GraphRow>, hints: IdHint, rows: seq<DocRow>, rows': seq<DocRow>) {
    |rows'| == |rows| && forall i :: 0 <= i < |rows| ==> NodeSettled(graph, hints, rows[i], rows'[i])
  }

  ghost predicate SourcesSettled(hints: IdHint, rows: seq<DocRow>, rows': seq<DocRow>) {
    |rows'| == |rows| && forall i :: 0 <= i < |rows| ==> SourceSettled(hints, rows[i], rows'[i])
  }

  lemma AssignedIsSettled(graph: seq<GraphRow>, hints: IdHint, nodes: seq<DocRow>, sources: seq<DocRow>)
    ensures NodesSettled(graph, hints, nodes, Assigned(nodes, NodeTargetsOf(graph, hints, nodes)))
    ensures SourcesSettled(hints, sources, Assigned(sources, SourceTargetsOf(hints, sources)))
  {
    hide NodeTabled, NodeTarget;
    forall i | 0 <= i < |nodes|
      ensures NodeSettled(graph, hints, nodes[i], Assigned(nodes, NodeTargetsOf(graph, hints, nodes))[i])
    {
      TargetTable(graph, hints, nodes[i]);
    }
    forall i | 0 <= i < |sources|
      ensures SourceSettled(hints, sources[i], Assigned(sources, SourceTargetsOf(hints, sources))[i])
    {
      SourceTable(hints, sources[i]);
    }
  }

  /** A row without a pack that no graph row knows and nothing names ends in the default pack. */
  lemma NobodyKnowsIt(graph: seq<GraphRow>, hints: IdHint, row: DocRow, row': DocRow)
    requires NodeSettled(graph, hints, row, row')
    requires row.props.Dict? && row.props.pack in {Absent, Str("")} && row.props.hint.None? && hints(row.id).None?
    requires forall g :: g in graph ==> g.id != row.id
    ensures row' == DocRow(row.space, row.id, Dict(Str("default"), None))
  {
  }

  /** A backfilled graph row: unchanged if it has a pack or is no object, else named by its properties, its id, or default. */
  lemma BackfilledTable(r: GraphRow, hints: IdHint)
    ensures BackfilledRow(r, hints) ==
      if r.props.NotADict? || (exists pack :: Carries(r, pack)) then r
      else GraphRow(r.id, r.space, Dict(
        Str(if r.props.hint.Some? then r.props.hint.value else if hints(r.id).Some? then hints(r.id).value else "default"), r.props.hint))
  {
    if r.props.Dict? && Truthy(r.props.pack) { assert Carries(r, TextOf(r.props.pack)); }
  }

  lemma BackfillAttributes(graph: seq<GraphRow>, rows: seq<DocRow>, hints: IdHint)
    requires GoodHints(hints, graph, rows)
    ensures GraphAttributed(BackfilledGraph(graph, hints)) && GoodHints(hints, BackfilledGraph(graph, hints), rows)
  {
    var g := BackfilledGraph(graph, hints);
    forall r | r in g
      ensures Attributed(r)
      ensures r.props.Dict? ==> GoodHint(r.props.hint) && (r.props.pack.Other? && r.props.pack.truthy ==> r.props.pack.text != "")
    {
      var i :| 0 <= i < |g| && g[i] == r;
      assert graph[i] in graph;
    }
  }

  lemma {:induction false} GraphPacksAreNames(graph: seq<GraphRow>, hints: IdHint, actual: bool, rows: seq<DocRow>, space: Option<string>, id: Id)
    requires GoodHints(hints, graph, rows)
    ensures "" !in ExactPacks(graph, hints, actual, space, id) && "" !in FallbackPacks(graph, hints, actual, id)
  {
    forall r | r in graph && GraphPack(r, hints, actual).Some?
      ensures GraphPack(r, hints, actual).value != ""
    {
      assert r.props.Dict?;
    }
  }

  /** Every target names a pack, and only rows without one get it. */
  lemma TargetsFit(graph: seq<GraphRow>, hints: IdHint, actual: bool, rows: seq<DocRow>, row: DocRow)
    requires GoodHints(hints, graph, rows) && row in rows
    ensures SourceTarget(hints, row).Gets? ==> SourceTarget(hints, row).pack != "" && row.props.Dict? && Lacks(row.props)
    ensures NodeTarget(graph, hints, actual, row).Gets? ==> NodeTarget(graph, hints, actual, row).pack != "" && Lacks(row.props)
  {
    GraphPacksAreNames(graph, hints, actual, rows, row.space, row.id);
  }

  /** The row carries a pack that the registry knows. */
  predicate Labelled(r: DocRow, registry: map<Pack, Owner>) {
    r.props.Dict? && r.props.pack.Str? && r.props.pack.s != "" && r.props.pack.s in registry
  }

  function NodeTargetsOf(graph: seq<GraphRow>, hints: IdHint, rows: seq<DocRow>): (t: seq<Target>)
    ensures |t| == |rows|
  {
    seq(|rows|, i requires 0 <= i < |rows| => NodeTarget(graph, hints, true, rows[i]))
  }

  /** The targets the preview predicts, from the packs graph rows are to receive. */
  function PreviewOf(graph: seq<GraphRow>, hints: IdHint, rows: seq<DocRow>): (t: seq<Target>)
    ensures |t| == |rows|
  {
    seq(|rows|, i requires 0 <= i < |rows| => NodeTarget(graph, hints, false, rows[i]))
  }

  function SourceTargetsOf(hints: IdHint, rows: seq<DocRow>): (t: seq<Target>)
    ensures |t| == |rows|
  {
    seq(|rows|, i requires 0 <= i < |rows| => SourceTarget(hints, rows[i]))
  }

  function ValidPacks(rows: seq<DocRow>): set<Pack> {
    set r | r in rows && r.props.Dict? && Classify(r.props.pack).Valid? :: r.props.pack.s
  }

  function PacksOf(targets: seq<Target>): set<Pack> {
    set t | t in targets && t.Gets? :: t.pack
  }

  predicate NoMalformed(rows: seq<DocRow>) {
    forall r :: r in rows && r.props.Dict? ==> !Classify(r.props.pack).Malformed?
  }

  predicate GraphClean(graph: seq<GraphRow>) {
    forall r :: r in graph ==> r.props.Dict?
  }

  /** What the gating stages report as neither skipped nor short of a row. */
  predicate Clean(graph: seq<GraphRow>, nodes: seq<DocRow>, sources: seq<DocRow>, targets: seq<Target>, sourceTargets: seq<Target>, scope: bool) {
    && scope && GraphClean(graph) && NoMalformed(nodes) && NoMalformed(sources)
    && Excludeds(targets) == 0 && Excludeds(sourceTargets) == 0
  }

  lemma {:induction false} NoneExcluded(targets: seq<Target>)
    requires Excludeds(targets) == 0
    ensures forall i :: 0 <= i < |targets| ==> !targets[i].Excluded?
  {
    if targets != [] {
      var n := |targets| - 1;
      NoneExcluded(targets[..n]);
      forall i | 0 <= i < |targets|
        ensures !targets[i].Excluded?
      {
        if i < n { assert targets[..n][i] == targets[i]; }
      }
    }
  }

  /**
   * A run is clean exactly if everything was in scope, every graph row is an object, no document or
   * source has a pack that is no string, and none is excluded.
   */
  lemma CleanByRows(graph: seq<GraphRow>, nodes: seq<DocRow>, sources: seq<DocRow>, targets: seq<Target>, sourceTargets: seq<Target>, scope: bool)
    ensures Clean(graph, nodes, sources, targets, sourceTargets, scope) <==>
      && scope && (forall r :: r in graph ==> r.props.Dict?)
      && (forall r :: r in nodes + sources && r.props.Dict? ==> r.props.pack == Absent || r.props.pack.Str?)
      && Excluded !in targets && Excluded !in sourceTargets
  {
    CountedExactly(targets);
    CountedExactly(sourceTargets);
    assert forall r :: r in nodes + sources <==> r in nodes || r in sources;
  }

  lemma {:induction false} CountedExactly(targets: seq<Target>)
    ensures Excludeds(targets) == 0 <==> Excluded !in targets
  {
    if targets != [] {
      var n := |targets| - 1;
      CountedExactly(targets[..n]);
      assert targets == targets[..n] + [targets[n]];
      assert Excluded in targets <==> Excluded in targets[..n] || targets[n] == Excluded;
    }
  }

  ghost predicate Proper(rows: seq<DocRow>, targets: seq<Target>) {
    Fitting(rows, targets) && forall i :: 0 <= i < |rows| ==> (targets[i].Keeps? <==> !Lacks(rows[i].props))
  }

  lemma TargetsAreProper(graph: seq<GraphRow>, hints: IdHint, nodes: seq<DocRow>, sources: seq<DocRow>)
    requires GoodHints(hints, graph, nodes + sources)
    ensures Proper(nodes, NodeTargetsOf(graph, hints, nodes)) && Proper(sources, SourceTargetsOf(hints, sources))
  {
    hide GraphPack, ExactPacks, FallbackPacks, TwinOf, GoodHints;
    forall i | 0 <= i < |nodes|
      ensures NodeTarget(graph, hints, true, nodes[i]).Keeps? <==> !Lacks(nodes[i].props)
      ensures NodeTarget(graph, hints, true, nodes[i]).Gets? ==> Lacks(nodes[i].props) && NodeTarget(graph, hints, true, nodes[i]).pack != ""
    {
      assert nodes[i] in nodes + sources;
      TargetsFit(graph, hints, true, nodes + sources, nodes[i]);
    }
    forall i | 0 <= i < |sources|
      ensures SourceTarget(hints, sources[i]).Keeps? <==> !Lacks(sources[i].props)
      ensures SourceTarget(hints, sources[i]).Gets? ==> Lacks(sources[i].props) && SourceTarget(hints, sources[i]).pack != ""
    {
      assert sources[i] in nodes + sources;
      TargetsFit(graph, hints, true, nodes + sources, sources[i]);
    }
  }

  /** With every pack registered: changed rows are labelled; in a clean table all rows are, except those that are no object. */
  lemma FinalRows(rows: seq<DocRow>, targets: seq<Target>, registry: map<Pack, Owner>)
    requires Proper(rows, targets) && PacksOf(targets) <= registry.Keys && ValidPacks(rows) <= registry.Keys
    ensures forall i :: 0 <= i < |rows| && Assigned(rows, targets)[i] != rows[i] ==> Labelled(Assigned(rows, targets)[i], registry)
    ensures NoMalformed(rows) && Excludeds(targets) == 0 ==>
      forall i :: 0 <= i < |rows| ==> (Labelled(Assigned(rows, targets)[i], registry) <==> rows[i].props.Dict?)
  {
    if Excludeds(targets) == 0 { NoneExcluded(targets); }
    forall i | 0 <= i < |rows|
      ensures Assigned(rows, targets)[i] != rows[i] ==> Labelled(Assigned(rows, targets)[i], registry)
      ensures NoMalformed(rows) && Excludeds(targets) == 0 ==> (Labelled(Assigned(rows, targets)[i], registry) <==> rows[i].props.Dict?)
    {
      assert rows[i] in rows && targets[i] in targets;
      if targets[i].Gets? { assert targets[i].pack in PacksOf(targets); }
      if !Lacks(rows[i].props) && Classify(rows[i].props.pack).Valid? { assert rows[i].props.pack.s in ValidPacks(rows); }
    }
  }

  /** A source that is no object never gets a target, so in a clean run every source is labelled. */
  lemma CleanSourcesAreObjects(hints: IdHint, rows: seq<DocRow>)
    requires Excludeds(SourceTargetsOf(hints, rows)) == 0
    ensures forall i :: 0 <= i < |rows| ==> rows[i].props.Dict?
  {
    NoneExcluded(SourceTargetsOf(hints, rows));
    forall i | 0 <= i < |rows|
      ensures rows[i].props.Dict?
    {
      assert SourceTargetsOf(hints, rows)[i] == SourceTarget(hints, rows[i]);
    }
  }

  lemma PreviewsAgree(graph: seq<GraphRow>, hints: IdHint, rows: seq<DocRow>)
    requires GraphAttributed(graph)
    ensures PreviewOf(graph, hints, rows) == NodeTargetsOf(graph, hints, rows)
  {
    forall i | 0 <= i < |rows|
      ensures PreviewOf(graph, hints, rows)[i] == NodeTargetsOf(graph, hints, rows)[i]
    {
      PreviewIsAssignment(graph, hints, rows[i]);
    }
  }

  /** The rows that differ carry a pack that the registry knows. */
  ghost predicate ChangesLabelled(rows': seq<DocRow>, rows: seq<DocRow>, registry: map<Pack, Owner>) {
    |rows'| == |rows| && forall i :: 0 <= i < |rows| && rows'[i] != rows[i] ==> Labelled(rows'[i], registry)
  }

  /** Every graph row is as it was or backfilled. */
  ghost predicate PartlyBackfilled(graph': seq<GraphRow>, graph: seq<GraphRow>, hints: IdHint) {
    |graph'| == |graph| && forall i :: 0 <= i < |graph| ==> graph'[i] == graph[i] || graph'[i] == BackfilledRow(graph[i], hints)
  }

  lemma NotYetBackfilled(graph: seq<GraphRow>, hints: IdHint)
    ensures PartlyBackfilled(graph, graph, hints)
  {
  }

  lemma BackfilledSome(graph: seq<GraphRow>, k: nat, hints: IdHint)
    requires k <= |graph|
    ensures PartlyBackfilled(BackfilledGraph(graph[..k], hints) + graph[k..], graph, hints)
  {
  }

  lemma NothingAssigned(nodes: seq<DocRow>, sources: seq<DocRow>, graph: seq<GraphRow>, hints: IdHint, registry: map<Pack, Owner>)
    ensures PartlyAssigned(nodes, nodes, NodeTargetsOf(graph, hints, nodes)) && ChangesLabelled(nodes, nodes, registry)
    ensures PartlyAssigned(sources, sources, SourceTargetsOf(hints, sources)) && ChangesLabelled(sources, sources, registry)
    ensures PartlyBackfilled(graph, graph, hints) && Submap(registry, registry)
  {
    NotYetBackfilled(graph, hints);
  }

  lemma ProperFits(rows: seq<DocRow>, targets: seq<Target>)
    requires Proper(rows, targets)
    ensures Fitting(rows, targets)
  {
  }

  lemma PartlyLabelled(rows': seq<DocRow>, rows: seq<DocRow>, targets: seq<Target>, registry: map<Pack, Owner>)
    requires PartlyAssigned(rows', rows, targets)
    requires forall i :: 0 <= i < |rows| && Assigned(rows, targets)[i] != rows[i] ==> Labelled(Assigned(rows, targets)[i], registry)
    ensures ChangesLabelled(rows', rows, registry)
  {
  }

  /** In the middle of a registration: old entries stay, new ones belong to the owner, todo is what is missing. */
  ghost predicate Registering(registry0: map<Pack, Owner>, registry: map<Pack, Owner>, todo: set<Pack>, packs: set<Pack>, owner: Owner) {
    && Submap(registry0, registry) && todo == packs - registry.Keys && registry.Keys <= registry0.Keys + packs
    && forall p :: p in registry && p !in registry0 ==> registry[p] == owner
  }

  lemma RegisteringStarts(registry: map<Pack, Owner>, packs: set<Pack>, owner: Owner)
    ensures Registering(registry, registry, packs - registry.Keys, packs, owner)
  {
  }

  lemma RegisterOne(registry0: map<Pack, Owner>, registry: map<Pack, Owner>, todo: set<Pack>, packs: set<Pack>, owner: Owner, p: Pack)
    requires Registering(registry0, registry, todo, packs, owner) && p in todo
    ensures Registering(registry0, registry[p := owner], todo - {p}, packs, owner)
  {
  }

  lemma RegisteringSoFar(registry0: map<Pack, Owner>, registry: map<Pack, Owner>, todo: set<Pack>, packs: set<Pack>, owner: Owner)
    requires Registering(registry0, registry, todo, packs, owner)
    ensures Submap(registry0, registry) && registry.Keys <= registry0.Keys + packs
    ensures todo == {} ==> registry.Keys == registry0.Keys + packs
    ensures forall p :: p in registry && p !in registry0 ==> registry[p] == owner
  {
    assert todo == {} ==> packs <= registry.Keys + (packs - registry.Keys);
  }

  /** One of the packs is registered to somebody else. */
  ghost predicate Foreign(registry: map<Pack, Owner>, owner: Owner, packs: set<Pack>) {
    exists p :: p in packs && p in registry && registry[p] != owner
  }

  /** The default pack may never be somebody else's, the others only if that was accepted. */
  ghost predicate Refuses(registry: map<Pack, Owner>, owner: Owner, packs: set<Pack>, accept: bool) {
    Foreign(registry, owner, {"default"}) || (!accept && Foreign(registry, owner, packs))
  }

  /** What was added belongs to the owner. */
  ghost predicate OwnAdded(registry: map<Pack, Owner>, registry': map<Pack, Owner>, owner: Owner) {
    Submap(registry, registry') && forall p :: p in registry' && p !in registry ==> registry'[p] == owner
  }

  lemma ForeignStays(registry: map<Pack, Owner>, registry': map<Pack, Owner>, owner: Owner, packs: set<Pack>)
    requires OwnAdded(registry, registry', owner)
    ensures Foreign(registry', owner, packs) <==> Foreign(registry, owner, packs)
  {
  }

  lemma OwnAddedTwice(a: map<Pack, Owner>, b: map<Pack, Owner>, c: map<Pack, Owner>, owner: Owner)
    requires OwnAdded(a, b, owner) && OwnAdded(b, c, owner)
    ensures OwnAdded(a, c, owner)
  {
  }

  /** A registration after others refuses what the first registry would have made it refuse. */
  lemma NextRegistration(a: map<Pack, Owner>, b: map<Pack, Owner>, c: map<Pack, Owner>, owner: Owner, packs: set<Pack>)
    requires OwnAdded(a, b, owner) && OwnAdded(b, c, owner)
    ensures OwnAdded(a, c, owner) && (Foreign(b, owner, packs) <==> Foreign(a, owner, packs))
  {
    OwnAddedTwice(a, b, c, owner);
    ForeignStays(a, b, owner, packs);
  }

  lemma ForeignInEither(registry: map<Pack, Owner>, owner: Owner, a: set<Pack>, b: set<Pack>)
    ensures Foreign(registry, owner, a + b) <==> Foreign(registry, owner, a) || Foreign(registry, owner, b)
  {
    assert forall p :: p in a || p in b <==> p in a + b;
  }

  /** The packs a run registers: the default, those of the graph, and those the documents carry or are to receive. */
  function Needed(graph: seq<GraphRow>, hints: IdHint, edgePacks: set<Pack>, nodes: seq<DocRow>, sources: seq<DocRow>): set<Pack> {
    {"default"} + (GraphPacks(graph, hints) + edgePacks)
    + (ValidPacks(nodes) + ValidPacks(sources) + PacksOf(PreviewOf(graph, hints, nodes)) + PacksOf(SourceTargetsOf(hints, sources)))
  }

  function GraphAfter(graph: seq<GraphRow>, hints: IdHint, inScope: bool): seq<GraphRow> {
    if inScope then BackfilledGraph(graph, hints) else graph
  }

  /** Every pack a graph row carries is registered. */
  ghost predicate GraphPacksKnown(graph: seq<GraphRow>, registry: map<Pack, Owner>) {
    forall g, pack :: g in graph && Carries(g, pack) ==> pack in registry
  }

  /** With the needed packs registered, those of the graph and of every target are. */
  lemma AllAreKnown(graph: seq<GraphRow>, hints: IdHint, edgePacks: set<Pack>, nodes: seq<DocRow>, sources: seq<DocRow>,
                    registry: map<Pack, Owner>)
    requires Needed(graph, hints, edgePacks, nodes, sources) <= registry.Keys
    ensures "default" in registry && edgePacks <= registry.Keys && GraphPacksKnown(graph, registry)
    ensures ValidPacks(nodes) <= registry.Keys && ValidPacks(sources) <= registry.Keys
    ensures PacksOf(SourceTargetsOf(hints, sources)) <= registry.Keys
    ensures GraphAttributed(graph) ==> PacksOf(NodeTargetsOf(graph, hints, nodes)) <= registry.Keys
  {
    assert "default" in {"default"};
    if GraphAttributed(graph) { PreviewsAgree(graph, hints, nodes); }
    hide ValidPacks, PacksOf, GraphAttributed, NodeTargetsOf, PreviewOf;
    forall g, pack | g in graph && Carries(g, pack)
      ensures pack in registry
    {
      assert GraphPack(g, hints, true) == Some(pack);
      assert pack in GraphPacks(graph, hints);
    }
  }

  /** How an attempt to register packs ends. */
  datatype Registration = Registered | Refused | Died

  /** How a run ends: with an exit code, or killed between two commits. */
  datatype Exit = Killed | Code(n: int)

  class Stores {
    var registry: map<Pack, Owner>
    var graph: seq<GraphRow>
    var nodes: seq<DocRow>
    var sources: seq<DocRow>

    constructor (registry: map<Pack, Owner>, graph: seq<GraphRow>, nodes: seq<DocRow>, sources: seq<DocRow>)
      ensures this.registry == registry && this.graph == graph && this.nodes == nodes && this.sources == sources
    {
      this.registry, this.graph, this.nodes, this.sources := registry, graph, nodes, sources;
    }

    /**
     * The foreign-owner gate and _register_pack_id_candidates: refuse a pack that someone else
     * owns, unless accepted; else register what is missing, one pack at a time.
     */
    method Register(owner: Owner, packs: set<Pack>, accept: bool, life: Option<nat>) returns (end: Registration, left: Option<nat>)
      modifies this`registry
      ensures end.Refused? <==> !accept && Foreign(old(registry), owner, packs)
      ensures OwnAdded(old(registry), registry, owner) && (end.Refused? ==> registry == old(registry))
      ensures registry.Keys <= old(registry).Keys + packs
      ensures end.Registered? ==> registry.Keys == old(registry).Keys + packs
      ensures (left.None? <==> life.None?) && (end.Died? ==> left == Some(0))
    {
      hide Registering;
      left := life;
      var foreign := set p | p in packs && p in registry && registry[p] != owner;
      assert forall p :: p in packs && p in registry && registry[p] != owner <==> p in foreign;
      if foreign != {} && !accept { return Refused, left; }
      var todo := packs - registry.Keys;
      ghost var registry0 := registry;
      RegisteringStarts(registry0, packs, owner);
      while todo != {}
        invariant Registering(registry0, registry, todo, packs, owner) && (left.None? <==> life.None?)
        decreases |todo|
      {
        if left == Some(0) {
          RegisteringSoFar(registry0, registry, todo, packs, owner);
          return Died, left;
        }
        left := Spend(left);
        var p :| p in todo;
        RegisterOne(registry0, registry, todo, packs, owner, p);
        registry := registry[p := owner];
        todo := todo - {p};
      }
      RegisteringSoFar(registry0, registry, todo, packs, owner);
      end := Registered;
    }

    /** The three registrations: nothing but the registry and the graph is touched, and what they leave is enough for the documents. */
    method RegisterAll(owner: Owner, hints: IdHint, edgePacks: set<Pack>, graphInScope: bool, accept: bool, life: Option<nat>)
      returns (end: Registration, sourceTargets: seq<Target>, left: Option<nat>)
      requires GoodHints(hints, graph, nodes + sources)
      modifies this`registry, this`graph
      ensures OwnAdded(old(registry), registry, owner) && PartlyBackfilled(graph, old(graph), hints)
      ensures !graphInScope ==> graph == old(graph)
      ensures (left.None? <==> life.None?) && (end.Died? ==> left == Some(0))
      ensures var needed := Needed(GraphAfter(old(graph), hints, graphInScope), hints, edgePacks, nodes, sources);
        && registry.Keys <= old(registry).Keys + needed && (end.Registered? ==> registry.Keys == old(registry).Keys + needed)
        && (!end.Died? ==> (end.Refused? <==> Refuses(old(registry), owner, needed, accept)))
      ensures end.Registered? ==>
        && GoodHints(hints, graph, nodes + sources) && sourceTargets == SourceTargetsOf(hints, sources)
        && graph == GraphAfter(old(graph), hints, graphInScope) && (graphInScope ==> GraphAttributed(graph))
    {
      hide NodeTarget, SourceTarget, GoodHints, Lacks, GraphPack, ExactPacks, FallbackPacks, PacksOf, ValidPacks, GraphAttributed,
        BackfilledGraph, Submap, PartlyBackfilled, GraphPacks, Foreign, OwnAdded;
      ghost var registry0 := registry;
      ghost var after := GraphAfter(graph, hints, graphInScope);
      ghost var graphPacks := GraphPacks(after, hints) + edgePacks;
      ghost var docPacks := ValidPacks(nodes) + ValidPacks(sources) + PacksOf(PreviewOf(after, hints, nodes))
        + PacksOf(SourceTargetsOf(hints, sources));
      ForeignInEither(registry, owner, {"default"} + graphPacks, docPacks);
      ForeignInEither(registry, owner, {"default"}, graphPacks);
      assert {DEFAULT_PACK} == {"default"};
      sourceTargets := [];
      NotYetBackfilled(graph, hints);
      end, left := Register(owner, {DEFAULT_PACK}, false, life);
      if !end.Registered? { return; }
      if graphInScope {
        BackfillAttributes(graph, nodes + sources, hints);
        if left.Some? && left.value < |graph| {
          BackfilledSome(graph, left.value, hints);
          graph := BackfilledGraph(graph[..left.value], hints) + graph[left.value..];
          return Died, sourceTargets, Some(0);
        }
        if left.Some? { left := Some(left.value - |graph|); }
        BackfilledSome(graph, |graph|, hints);
        assert graph[..|graph|] == graph && BackfilledGraph(graph, hints) + [] == BackfilledGraph(graph, hints);
        graph := BackfilledGraph(graph, hints);
      }
      ghost var registry1 := registry;
      end, left := Register(owner, GraphPacks(graph, hints) + edgePacks, accept, left);
      NextRegistration(registry0, registry1, registry, owner, GraphPacks(graph, hints) + edgePacks);
      if !end.Registered? { return; }
      ghost var registry2 := registry;
      var preview := NodeTargets(nodes, graph, hints, false);
      assert preview == PreviewOf(graph, hints, nodes);
      sourceTargets := SourceTargets(sources, hints);
      assert sourceTargets == SourceTargetsOf(hints, sources);
      var packs := ValidPacks(nodes) + ValidPacks(sources) + PacksOf(preview) + PacksOf(sourceTargets);
      end, left := Register(owner, packs, accept, left);
      NextRegistration(registry0, registry2, registry, owner, packs);
    }

    /**
     * main with --apply: default pack, graph backfill, graph packs, document packs, then the
     * documents. The graph backfill itself is taken from its contract. However the run ends, a
     * row that it changed carries a pack that is registered at that moment.
     */
    method Migrate(owner: Owner, hints: IdHint, edgePacks: set<Pack>, edgesSkipped: bool, graphInScope: bool, accept: bool, life: Option<nat>)
      returns (exit: Exit)
      requires Keyed(nodes) && Keyed(sources) && GoodHints(hints, graph, nodes + sources)
      modifies this
      ensures exit in {Killed, Code(0), Code(1), Code(3)} && OwnAdded(old(registry), registry, owner)
      ensures life.None? ==> exit != Killed
      ensures var needed := Needed(GraphAfter(old(graph), hints, graphInScope), hints, edgePacks, old(nodes), old(sources));
        && registry.Keys <= old(registry).Keys + needed && (exit in {Code(0), Code(3)} ==> registry.Keys == old(registry).Keys + needed)
        && (exit != Killed ==> (exit == Code(1) <==> Refuses(old(registry), owner, needed, accept)))
      ensures PartlyBackfilled(graph, old(graph), hints) && (!graphInScope ==> graph == old(graph))
      ensures PartlyAssigned(nodes, old(nodes), NodeTargetsOf(graph, hints, old(nodes)))
      ensures PartlyAssigned(sources, old(sources), SourceTargetsOf(hints, old(sources)))
      ensures nodes != old(nodes) && graphInScope ==> graph == BackfilledGraph(old(graph), hints)
      ensures sources != old(sources) ==> nodes == Assigned(old(nodes), NodeTargetsOf(graph, hints, old(nodes)))
      ensures exit == Code(1) ==> nodes == old(nodes) && sources == old(sources)
      ensures exit in {Code(0), Code(3)} ==> (graphInScope ==> graph == BackfilledGraph(old(graph), hints))
      ensures exit in {Code(0), Code(3)} ==> nodes == Assigned(old(nodes), NodeTargetsOf(graph, hints, old(nodes)))
      ensures exit in {Code(0), Code(3)} ==> sources == Assigned(old(sources), SourceTargetsOf(hints, old(sources)))
      ensures exit in {Code(0), Code(3)} ==> "default" in registry && edgePacks <= registry.Keys && GraphPacksKnown(graph, registry)
      ensures exit in {Code(0), Code(3)} ==> NodesSettled(graph, hints, old(nodes), nodes) && SourcesSettled(hints, old(sources), sources)
      ensures exit in {Code(0), Code(3)} ==> (exit == Code(0) <==>
        Clean(graph, old(nodes), old(sources), NodeTargetsOf(graph, hints, old(nodes)), SourceTargetsOf(hints, old(sources)),
              graphInScope && !edgesSkipped))
      ensures graphInScope ==> ChangesLabelled(nodes, old(nodes), registry)
      ensures ChangesLabelled(sources, old(sources), registry)
      ensures exit == Code(0) ==> forall i :: 0 <= i < |sources| ==> Labelled(sources[i], registry)
      ensures exit == Code(0) ==> forall i :: 0 <= i < |nodes| ==> (Labelled(nodes[i], registry) <==> old(nodes)[i].props.Dict?)
    {
      hide NodeTarget, SourceTarget, Keyed, GoodHints, Lacks, GraphPack, ExactPacks, FallbackPacks, Labelled, PacksOf, ValidPacks,
        GraphAttributed, BackfilledGraph, Submap, NoMalformed, GraphClean, Excludeds, Fitting, PartlyBackfilled, PartlyAssigned,
        Assigned, ChangesLabelled, Proper, NodesSettled, SourcesSettled, GraphPacksKnown, Needed, Refuses, OwnAdded, GraphPacks;
      NothingAssigned(nodes, sources, graph, hints, registry);
      var end, sourceTargets, left := RegisterAll(owner, hints, edgePacks, graphInScope, accept, life);
      NothingAssigned(nodes, sources, graph, hints, registry);
      if end.Refused? { return Code(1); }
      if end.Died? { return Killed; }
      AllAreKnown(graph, hints, edgePacks, nodes, sources, registry);
      var targets := NodeTargets(nodes, graph, hints, true);
      assert targets == NodeTargetsOf(graph, hints, nodes);
      TargetsAreProper(graph, hints, nodes, sources);
      ProperFits(nodes, targets);
      ProperFits(sources, sourceTargets);
      FinalRows(sources, sourceTargets, registry);
      if graphInScope { FinalRows(nodes, targets, registry); }
      AssignedIsSettled(graph, hints, nodes, sources);
      var tidy := graphInScope && !edgesSkipped && GraphClean(graph) && NoMalformed(nodes) && NoMalformed(sources);
      var excluded, excludedSources, aborted, killed;
      nodes, excluded, aborted, killed, left := BackfillTable(nodes, targets, left);
      if graphInScope { PartlyLabelled(nodes, old(nodes), targets, registry); }
      if killed { return Killed; }
      sources, excludedSources, aborted, killed, left := BackfillTable(sources, sourceTargets, left);
      PartlyLabelled(sources, old(sources), sourceTargets, registry);
      if killed { return Killed; }
      exit := Code(if tidy && excluded == 0 && excludedSources == 0 then 0 else 3);
      if exit == Code(0) { CleanSourcesAreObjects(hints, old(sources)); }
    }

    /**
     * Any number of runs with the graph in scope, each killed after any number of steps. Rows
     * are untouched or final, and those changed carry a registered pack; once a run went through,
     * the stores are those of a single uninterrupted run. A run that nobody kills goes through, if
     * foreign packs are accepted and the default pack is not foreign.
     */
    method MigrateRepeatedly(owner: Owner, hints: IdHint, edgePacks: set<Pack>, edgesSkipped: bool, accept: bool, lives: seq<Option<nat>>)
      returns (exits: seq<Exit>)
      requires Keyed(nodes) && Keyed(sources) && GoodHints(hints, graph, nodes + sources)
      modifies this
      ensures |exits| == |lives| && OwnAdded(old(registry), registry, owner)
      ensures accept && !Foreign(old(registry), owner, {"default"}) ==>
        forall i :: 0 <= i < |lives| && lives[i].None? ==> exits[i] in {Code(0), Code(3)}
      ensures var final := NodeTargetsOf(BackfilledGraph(old(graph), hints), hints, old(nodes));
        && PartlyAssigned(nodes, old(nodes), final)
        && PartlyAssigned(sources, old(sources), SourceTargetsOf(hints, old(sources)))
        && (Code(0) in exits || Code(3) in exits ==>
              nodes == Assigned(old(nodes), final) && sources == Assigned(old(sources), SourceTargetsOf(hints, old(sources))))
      ensures Code(0) in exits || Code(3) in exits ==>
        NodesSettled(BackfilledGraph(old(graph), hints), hints, old(nodes), nodes) && SourcesSettled(hints, old(sources), sources)
      ensures ChangesLabelled(nodes, old(nodes), registry) && ChangesLabelled(sources, old(sources), registry)
      ensures Code(0) in exits ==> forall i :: 0 <= i < |sources| ==> Labelled(sources[i], registry)
      ensures Code(0) in exits ==> |nodes| == |old(nodes)|
      ensures Code(0) in exits ==> forall i :: 0 <= i < |nodes| && old(nodes)[i].props.Dict? ==> Labelled(nodes[i], registry)
    {
      hide NodeTarget, SourceTarget, Keyed, GoodHints, Lacks, Labelled, BackfilledGraph, Submap, PartlyBackfilled, PartlyAssigned,
        Assigned, ChangesLabelled, Clean, NodesSettled, SourcesSettled;
      ghost var start := State(registry, graph, nodes, sources);
      StartsAlong(start, hints);
      AssignedIsSettled(BackfilledGraph(graph, hints), hints, nodes, sources);
      exits := [];
      for i := 0 to |lives|
        invariant |exits| == i && OwnAdded(start.registry, registry, owner)
        invariant accept && !Foreign(start.registry, owner, {"default"}) ==>
          forall j :: 0 <= j < i && lives[j].None? ==> exits[j] in {Code(0), Code(3)}
        invariant Along(start, State(registry, graph, nodes, sources), hints)
        invariant Code(0) in exits || Code(3) in exits ==> Finished(start, State(registry, graph, nodes, sources), hints)
        invariant Code(0) in exits ==> AllLabelled(start, State(registry, graph, nodes, sources))
        invariant Code(0) in exits ==> Finished(start, State(registry, graph, nodes, sources), hints)
      {
        ghost var before := State(registry, graph, nodes, sources);
        var exit := Migrate(owner, hints, edgePacks, edgesSkipped, true, accept, lives[i]);
        NextRegistration(start.registry, before.registry, registry, owner, {"default"});
        SameLength(before.nodes, nodes, NodeTargetsOf(graph, hints, before.nodes));
        OneMoreRun(start, before, State(registry, graph, nodes, sources), exit, hints);
        exits := exits + [exit];
      }
    }
  }

  // ------------------------------------------------------------ repeated runs

  datatype State = State(registry: map<Pack, Owner>, graph: seq<GraphRow>, nodes: seq<DocRow>, sources: seq<DocRow>)

  /** A backfilled row is not changed again. */
  lemma BackfilledOnce(a: seq<GraphRow>, b: seq<GraphRow>, c: seq<GraphRow>, rows: seq<DocRow>, hints: IdHint)
    requires GoodHints(hints, a, rows) && PartlyBackfilled(b, a, hints) && PartlyBackfilled(c, b, hints)
    ensures PartlyBackfilled(c, a, hints) && BackfilledGraph(b, hints) == BackfilledGraph(a, hints)
  {
    forall i | 0 <= i < |a|
      ensures BackfilledRow(BackfilledRow(a[i], hints), hints) == BackfilledRow(a[i], hints)
    {
      assert a[i] in a;
    }
  }

  /** Assigning again, to rows some of which have their target already, ends where assigning once does. */
  lemma AssignedAgain(rows: seq<DocRow>, rows': seq<DocRow>, rows'': seq<DocRow>, targets: seq<Target>, targets': seq<Target>)
    requires Fitting(rows, targets) && PartlyAssigned(rows', rows, targets) && PartlyAssigned(rows'', rows', targets')
    requires forall i :: 0 <= i < |rows| && rows'[i] == rows[i] ==> targets'[i] == targets[i]
    requires forall i :: 0 <= i < |rows| && !Lacks(rows'[i].props) ==> targets'[i].Keeps?
    ensures PartlyAssigned(rows'', rows, targets)
    ensures rows'' == Assigned(rows', targets') ==> rows'' == Assigned(rows, targets)
    ensures rows' == Assigned(rows, targets) ==> rows'' == rows'
  {
    forall i | 0 <= i < |rows|
      ensures Assigned(rows', targets')[i] == Assigned(rows, targets)[i]
      ensures rows'[i] == Assigned(rows, targets)[i] ==> rows''[i] == rows'[i]
    {
      if rows'[i] != rows[i] { assert targets[i].Gets? && !Lacks(rows'[i].props); }
    }
  }

  /** Writing packs changes neither keys nor hints. */
  lemma ShapeStays(rows: seq<DocRow>, rows': seq<DocRow>, targets: seq<Target>)
    requires PartlyAssigned(rows', rows, targets)
    ensures Keyed(rows) ==> Keyed(rows')
    ensures forall r :: r in rows' && r.props.Dict? ==> exists q :: q in rows && q.props.Dict? && q.props.hint == r.props.hint
    ensures forall i :: 0 <= i < |rows| ==> (rows'[i].props.Dict? <==> rows[i].props.Dict?)
  {
    forall i | 0 <= i < |rows|
      ensures KeyOf(rows'[i]) == KeyOf(rows[i])
      ensures rows'[i].props.Dict? <==> rows[i].props.Dict?
      ensures rows'[i].props.Dict? ==> rows[i].props.hint == rows'[i].props.hint
    {
    }
    forall r | r in rows' && r.props.Dict?
      ensures exists q :: q in rows && q.props.Dict? && q.props.hint == r.props.hint
    {
      var i :| 0 <= i < |rows'| && rows'[i] == r;
      assert rows[i] in rows;
    }
  }

  lemma HintsStayGood(hints: IdHint, a: State, b: State, targets: seq<Target>, sourceTargets: seq<Target>)
    requires GoodHints(hints, a.graph, a.nodes + a.sources) && PartlyBackfilled(b.graph, a.graph, hints)
    requires PartlyAssigned(b.nodes, a.nodes, targets) && PartlyAssigned(b.sources, a.sources, sourceTargets)
    ensures GoodHints(hints, b.graph, b.nodes + b.sources)
  {
    ShapeStays(a.nodes, b.nodes, targets);
    ShapeStays(a.sources, b.sources, sourceTargets);
    hide PartlyAssigned;
    forall r | r in b.nodes + b.sources && r.props.Dict?
      ensures GoodHint(r.props.hint)
    {
      if r in b.nodes {
        var q :| q in a.nodes && q.props.Dict? && q.props.hint == r.props.hint;
        assert q in a.nodes + a.sources;
      } else {
        var q :| q in a.sources && q.props.Dict? && q.props.hint == r.props.hint;
        assert q in a.nodes + a.sources;
      }
    }
    forall r | r in b.graph && r.props.Dict?
      ensures GoodHint(r.props.hint) && (r.props.pack.Other? && r.props.pack.truthy ==> r.props.pack.text != "")
    {
      var i :| 0 <= i < |b.graph| && b.graph[i] == r;
      assert a.graph[i] in a.graph;
    }
  }

  lemma LabelsStay(rows: seq<DocRow>, rows': seq<DocRow>, rows'': seq<DocRow>, registry: map<Pack, Owner>, registry': map<Pack, Owner>)
    requires ChangesLabelled(rows', rows, registry) && ChangesLabelled(rows'', rows', registry') && Submap(registry, registry')
    ensures ChangesLabelled(rows'', rows, registry')
  {
  }

  /** What one run has done, as far as the next ones need it. */
  ghost predicate RunDid(b: State, c: State, exit: Exit, hints: IdHint) {
    && Submap(b.registry, c.registry) && PartlyBackfilled(c.graph, b.graph, hints)
    && PartlyAssigned(c.nodes, b.nodes, NodeTargetsOf(c.graph, hints, b.nodes))
    && PartlyAssigned(c.sources, b.sources, SourceTargetsOf(hints, b.sources))
    && (c.nodes != b.nodes ==> c.graph == BackfilledGraph(b.graph, hints))
    && (exit in {Code(0), Code(3)} ==>
          && c.graph == BackfilledGraph(b.graph, hints)
          && c.nodes == Assigned(b.nodes, NodeTargetsOf(c.graph, hints, b.nodes))
          && c.sources == Assigned(b.sources, SourceTargetsOf(hints, b.sources)))
    && ChangesLabelled(c.nodes, b.nodes, c.registry) && ChangesLabelled(c.sources, b.sources, c.registry)
    && (exit == Code(0) ==> AllLabelled(b, c))
  }

  /** Every source, and every document node whose properties are an object, carries a registered pack. */
  ghost predicate AllLabelled(start: State, s: State) {
    && |s.nodes| == |start.nodes|
    && (forall i :: 0 <= i < |s.nodes| && start.nodes[i].props.Dict? ==> Labelled(s.nodes[i], s.registry))
    && (forall i :: 0 <= i < |s.sources| ==> Labelled(s.sources[i], s.registry))
  }

  function FinalTargets(start: State, hints: IdHint): seq<Target> {
    NodeTargetsOf(BackfilledGraph(start.graph, hints), hints, start.nodes)
  }

  /** Where any number of runs can have brought the stores. */
  ghost predicate Along(start: State, s: State, hints: IdHint) {
    && Keyed(start.nodes) && Keyed(start.sources) && GoodHints(hints, start.graph, start.nodes + start.sources)
    && Keyed(s.nodes) && Keyed(s.sources) && GoodHints(hints, s.graph, s.nodes + s.sources)
    && Submap(start.registry, s.registry) && PartlyBackfilled(s.graph, start.graph, hints)
    && PartlyAssigned(s.nodes, start.nodes, FinalTargets(start, hints))
    && PartlyAssigned(s.sources, start.sources, SourceTargetsOf(hints, start.sources))
    && ChangesLabelled(s.nodes, start.nodes, s.registry) && ChangesLabelled(s.sources, start.sources, s.registry)
  }

  ghost predicate Finished(start: State, s: State, hints: IdHint) {
    && s.nodes == Assigned(start.nodes, FinalTargets(start, hints))
    && s.sources == Assigned(start.sources, SourceTargetsOf(hints, start.sources))
  }

  lemma StartsAlong(start: State, hints: IdHint)
    requires Keyed(start.nodes) && Keyed(start.sources) && GoodHints(hints, start.graph, start.nodes + start.sources)
    ensures Along(start, start, hints)
  {
    NothingAssigned(start.nodes, start.sources, start.graph, hints, start.registry);
  }

  lemma NodesAlong(start: State, b: State, c: State, exit: Exit, hints: IdHint)
    requires Along(start, b, hints) && RunDid(b, c, exit, hints)
    ensures PartlyAssigned(c.nodes, start.nodes, FinalTargets(start, hints))
    ensures exit in {Code(0), Code(3)} ==> c.nodes == Assigned(start.nodes, FinalTargets(start, hints))
    ensures b.nodes == Assigned(start.nodes, FinalTargets(start, hints)) ==> c.nodes == b.nodes
  {
    BackfilledOnce(start.graph, b.graph, c.graph, start.nodes + start.sources, hints);
    var final := BackfilledGraph(start.graph, hints);
    BackfillAttributes(start.graph, start.nodes + start.sources, hints);
    TargetsAreProper(final, hints, start.nodes, start.sources);
    hide GoodHints, Keyed, PartlyBackfilled, BackfilledGraph, TwinOf, ExactPacks, FallbackPacks, Lacks;
    if c.graph == final {
      AssignedAgain(start.nodes, b.nodes, c.nodes, FinalTargets(start, hints), NodeTargetsOf(final, hints, b.nodes));
    }
  }

  lemma SourcesAlong(start: State, b: State, c: State, exit: Exit, hints: IdHint)
    requires Along(start, b, hints) && RunDid(b, c, exit, hints)
    ensures PartlyAssigned(c.sources, start.sources, SourceTargetsOf(hints, start.sources))
    ensures exit in {Code(0), Code(3)} ==> c.sources == Assigned(start.sources, SourceTargetsOf(hints, start.sources))
    ensures b.sources == Assigned(start.sources, SourceTargetsOf(hints, start.sources)) ==> c.sources == b.sources
  {
    TargetsAreProper(start.graph, hints, start.nodes, start.sources);
    hide GoodHints, Keyed, PartlyBackfilled, BackfilledGraph, TwinOf, ExactPacks, FallbackPacks, Lacks;
    AssignedAgain(start.sources, b.sources, c.sources, SourceTargetsOf(hints, start.sources), SourceTargetsOf(hints, b.sources));
  }

  lemma LabelledAfter(start: State, b: State, c: State, exit: Exit, hints: IdHint)
    requires Along(start, b, hints) && RunDid(b, c, exit, hints)
    requires exit == Code(0) || (AllLabelled(start, b) && Finished(start, b, hints))
    ensures AllLabelled(start, c)
  {
    ShapeStays(start.nodes, b.nodes, FinalTargets(start, hints));
    NodesAlong(start, b, c, exit, hints);
    SourcesAlong(start, b, c, exit, hints);
    hide GoodHints, Keyed, PartlyBackfilled, BackfilledGraph, ChangesLabelled, Assigned, NodeTargetsOf, SourceTargetsOf, FinalTargets;
  }

  lemma OneMoreRun(start: State, b: State, c: State, exit: Exit, hints: IdHint)
    requires Along(start, b, hints) && RunDid(b, c, exit, hints)
    ensures Along(start, c, hints)
    ensures exit in {Code(0), Code(3)} || Finished(start, b, hints) ==> Finished(start, c, hints)
    ensures exit == Code(0) || (AllLabelled(start, b) && Finished(start, b, hints)) ==> AllLabelled(start, c)
  {
    if exit == Code(0) || (AllLabelled(start, b) && Finished(start, b, hints)) { LabelledAfter(start, b, c, exit, hints); }
    NodesAlong(start, b, c, exit, hints);
    SourcesAlong(start, b, c, exit, hints);
    hide AllLabelled, GoodHints, Keyed, PartlyBackfilled, BackfilledGraph, PartlyAssigned, ChangesLabelled, Assigned,
      NodeTargetsOf, SourceTargetsOf, FinalTargets, Submap;
    BackfilledOnce(start.graph, b.graph, c.graph, start.nodes + start.sources, hints);
    HintsStayGood(hints, b, c, NodeTargetsOf(c.graph, hints, b.nodes), SourceTargetsOf(hints, b.sources));
    ShapeStays(b.nodes, c.nodes, NodeTargetsOf(c.graph, hints, b.nodes));
    ShapeStays(b.sources, c.sources, SourceTargetsOf(hints, b.sources));
    LabelsStay(start.nodes, b.nodes, c.nodes, b.registry, c.registry);
    LabelsStay(start.sources, b.sources, c.sources, b.registry, c.registry);
    SubmapTransitive(start.registry, b.registry, c.registry);
  }

  lemma SameLength(rows: seq<DocRow>, rows': seq<DocRow>, targets: seq<Target>)
    requires PartlyAssigned(rows', rows, targets)
    ensures |rows'| == |rows|
  {
  }

  function GraphPacks(graph: seq<GraphRow>, hints: IdHint): set<Pack> {
    set r | r in graph && GraphPack(r, hints, true).Some? :: GraphPack(r, hints, true).value
  }

  lemma SubmapTransitive(a: map<Pack, Owner>, b: map<Pack, Owner>, c: map<Pack, Owner>)
    requires Submap(a, b) && Submap(b, c)
    ensures Submap(a, c)
  {
  }

  /**
   * So exit 0 is not yet completeness: it is, exactly if no document's properties are a value
   * that is no object. Such a row with a graph twin counts as written and stays as it was.
   */
  lemma ExitZeroCanMissARow(graph: seq<GraphRow>, hints: IdHint, id: Id, pack: Pack)
    requires graph == [GraphRow(id, Some("concept"), Dict(Str(pack), None))] && pack != ""
    ensures var rows := [DocRow(Some("concept"), id, NotADict)];
      var targets := NodeTargetsOf(graph, hints, rows);
      && targets == [Gets(pack)] && Assigned(rows, targets) == rows
      && Clean(graph, rows, [], targets, [], true)
  {
    var rows := [DocRow(Some("concept"), id, NotADict)];
    assert graph[0] in graph;
    assert ExactPacks(graph, hints, true, Some("concept"), id) == {pack};
    assert NodeTargetsOf(graph, hints, rows) == [Gets(pack)];
    assert Excludeds([Gets(pack)]) == 0;
  }

  /** The same as a run of the pipeline: unless it is killed, it exits 0 and leaves the only document without a pack. */
  method RunCanMissARow(owner: Owner, hints: IdHint, id: Id, pack: Pack) returns (st: Stores, exit: Exit)
    requires pack != "" && forall i :: GoodHint(hints(i))
    ensures exit == Code(0)
    ensures st.nodes == [DocRow(Some("concept"), id, NotADict)] && st.sources == [] && !Labelled(st.nodes[0], st.registry)
  {
    var graph := [GraphRow(id, Some("concept"), Dict(Str(pack), None))];
    var nodes := [DocRow(Some("concept"), id, NotADict)];
    st := new Stores(map[], graph, nodes, []);
    assert BackfilledGraph(graph, hints) == graph;
    ExitZeroCanMissARow(graph, hints, id, pack);
    assert SourceTargetsOf(hints, []) == [] && Assigned([], []) == [];
    exit := st.Migrate(owner, hints, {}, false, true, false, None);
    assert st.graph[0] == graph[0] && st.graph == graph;
  }
}
