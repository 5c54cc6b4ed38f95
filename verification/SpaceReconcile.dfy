/**
 * The check after the write phase: the current stores, streamed through a fresh resolver,
 * against what the private state recorded before the first write.
 */
module SpaceReconcile {
  import opened Basics
  import opened PythonValues
  import opened SpaceDecision
  import opened SpaceResolver
  import opened SpaceBackfill

  // ------------------------------------------------------------ held records

  datatype Held = Held(key: Code, cls: Class)

  /** The held records of a store, in scan order. */
  function HeldOf(c: Context, store: StoreName, rows: seq<Row>): seq<Held> {
    if rows == [] then []
    else
      var last := rows[|rows| - 1];
      var d := Judge(c, store, last);
      HeldOf(c, store, rows[..|rows| - 1]) + if d.cls.Holds() then [Held(ResolverKey(last.id), d.cls)] else []
  }

  /** The classes held under one key, occurrence by occurrence. */
  function ClassesOf(held: seq<Held>, key: Code): seq<Class> {
    if held == [] then []
    else
      var last := held[|held| - 1];
      ClassesOf(held[..|held| - 1], key) + if last.key == key then [last.cls] else []
  }

  datatype Occurrence = Occurrence(key: Code, n: nat)

  type HeldTable = map<Occurrence, Class>

  /** The table lists the class of every occurrence of every key, and nothing else. */
  ghost predicate Lists(table: HeldTable, held: seq<Held>) {
    forall o: Occurrence ::
      && (o in table <==> o.n < |ClassesOf(held, o.key)|)
      && (o in table ==> table[o] == ClassesOf(held, o.key)[o.n])
  }

  /** held_occurrence counts what has been seen of each key. */
  ghost predicate Counts(next: map<Code, nat>, held: seq<Held>) {
    forall key :: (if key in next then next[key] else 0) == |ClassesOf(held, key)|
  }

  function Next(next: map<Code, nat>, key: Code): nat {
    if key in next then next[key] else 0
  }

  lemma ClassesSnoc(held: seq<Held>, h: Held)
    ensures forall key :: ClassesOf(held + [h], key) == ClassesOf(held, key) + if h.key == key then [h.cls] else []
  {
    assert (held + [h])[..|held|] == held;
  }

  lemma OneMoreHeld(table: HeldTable, next: map<Code, nat>, held: seq<Held>, h: Held)
    requires Lists(table, held) && Counts(next, held)
    ensures Lists(table[Occurrence(h.key, Next(next, h.key)) := h.cls], held + [h])
    ensures Counts(next[h.key := Next(next, h.key) + 1], held + [h])
    ensures Occurrence(h.key, Next(next, h.key)) !in table
  {
    ClassesSnoc(held, h);
  }

  lemma HeldSnoc(c: Context, store: StoreName, rows: seq<Row>, n: nat)
    requires n < |rows|
    ensures var d := Judge(c, store, rows[n]);
      HeldOf(c, store, rows[..n + 1])
        == if d.cls.Holds() then HeldOf(c, store, rows[..n]) + [Held(ResolverKey(rows[n].id), d.cls)]
           else HeldOf(c, store, rows[..n])
  {
    assert rows[..n + 1][..n] == rows[..n];
    assert HeldOf(c, store, rows[..n]) + [] == HeldOf(c, store, rows[..n]);
  }

  lemma NoValidSnoc(c: Context, store: StoreName, rows: seq<Row>, n: nat)
    requires n < |rows|
    ensures NoValid(rows[..n + 1]) == NoValid(rows[..n]) + if Judge(c, store, rows[n]).cls.SkipValid? then 0 else 1
  {
    assert rows[..n + 1][..n] == rows[..n];
  }

  // ------------------------------------------------------------ before and after

  /** What the state file keeps of one store: row count, records without valid space, held table. */
  datatype Before = Before(total: nat, noValid: nat, held: HeldTable)

  /** The counting part of _scan_apply_state for one store. */
  method Record(c: Context, t: Tables, store: StoreName, rows: seq<Row>) returns (before: Before)
    requires Keyed(rows, store) && Faithful(t, c)
    ensures before.total == |rows| && before.noValid == NoValid(rows)
    ensures Lists(before.held, HeldOf(c, store, rows))
  {
    hide Decide, Judge, NoValid, Lists, Counts, Faithful, HeldOf;
    var noValid, held: HeldTable, next: map<Code, nat> := 0, map[], map[];
    NothingHeld(c, store);
    for n := 0 to |rows|
      invariant noValid == NoValid(rows[..n])
      invariant Lists(held, HeldOf(c, store, rows[..n])) && Counts(next, HeldOf(c, store, rows[..n]))
    {
      var row := rows[n];
      assert row in rows;
      TablesDecideAlike(t, c, store, row);
      HeldSnoc(c, store, rows, n);
      NoValidSnoc(c, store, rows, n);
      var d := DecideBy(t, store, row, c.allow);
      if !d.cls.SkipValid? { noValid := noValid + 1; }
      if d.cls.Holds() {
        var key := ResolverKey(row.id);
        OneMoreHeld(held, next, HeldOf(c, store, rows[..n]), Held(key, d.cls));
        held := held[Occurrence(key, Next(next, key)) := d.cls];
        next := next[key := Next(next, key) + 1];
      }
    }
    assert rows[..|rows|] == rows;
    before := Before(|rows|, noValid, held);
  }

  lemma NothingHeld(c: Context, store: StoreName)
    ensures HeldOf(c, store, []) == [] && NoValid([]) == 0
    ensures Lists(map[], []) && Counts(map[], [])
  {
  }

  /** The row of a committed plan row now holds the planned space. */
  predicate HoldsSpace(rows: seq<Row>, item: Item) {
    && RawValue(item.raw).Some?
    && var at := Fetch(rows, RawValue(item.raw).value);
    && at.Some?
    && ParseMeta(rows[at.value].column).Some?
    && Get(ParseMeta(rows[at.value].column).value, "space") == VStr(item.space)
  }

  /** What an ok means for one store. */
  ghost predicate Reconciled(c: Context, store: StoreName, rows: seq<Row>, before: Before, committed: seq<Item>) {
    && |rows| == before.total
    && NoValid(rows) == before.noValid - |committed|
    && Lists(before.held, HeldOf(c, store, rows))
    && forall item :: item in committed ==> HoldsSpace(rows, item)
  }

  /** reconcile_state for one store: count, compare held occurrences, look up the committed rows. */
  method CheckStore(c: Context, t: Tables, store: StoreName, rows: seq<Row>, before: Before, committed: seq<Item>)
    returns (ok: bool)
    requires Keyed(rows, store) && Faithful(t, c)
    ensures ok <==> Reconciled(c, store, rows, before, committed)
  {
    hide Decide, Judge, NoValid, Lists, Counts, Faithful, HeldOf, DecideBy, ResolverKey, HoldsSpace;
    var noValid, seen, mismatch := 0, 0, false;
    var next: map<Code, nat> := map[];
    ghost var now: HeldTable := map[];
    assert Submap(now, before.held);
    hide Submap;
    NothingHeld(c, store);
    for n := 0 to |rows|
      invariant noValid == NoValid(rows[..n])
      invariant Lists(now, HeldOf(c, store, rows[..n])) && Counts(next, HeldOf(c, store, rows[..n]))
      invariant mismatch <==> !Submap(now, before.held)
      invariant !mismatch ==> seen == |now|
    {
      var row := rows[n];
      assert row in rows;
      TablesDecideAlike(t, c, store, row);
      HeldSnoc(c, store, rows, n);
      NoValidSnoc(c, store, rows, n);
      var d := DecideBy(t, store, row, c.allow);
      if !d.cls.SkipValid? { noValid := noValid + 1; }
      if d.cls.Holds() {
        var key := ResolverKey(row.id);
        var o := Occurrence(key, Next(next, key));
        OneMoreHeld(now, next, HeldOf(c, store, rows[..n]), Held(key, d.cls));
        if o !in before.held || before.held[o] != d.cls {
          mismatch := true;
        } else {
          seen := seen + 1;
        }
        ghost var was := now;
        now := now[o := d.cls];
        SubmapAdd(was, before.held, o, d.cls);
        next := next[key := Next(next, key) + 1];
      }
    }
    assert rows[..|rows|] == rows;
    ok := |rows| == before.total && noValid == before.noValid - |committed| && !mismatch && seen == |before.held|;
    SameHeldTable(now, before.held, HeldOf(c, store, rows));
    var landed := CheckCommitted(rows, committed);
    ok := ok && landed;
  }

  /** The look-up of the committed rows stops at the first that does not hold its space. */
  method CheckCommitted(rows: seq<Row>, committed: seq<Item>) returns (ok: bool)
    ensures ok <==> forall item :: item in committed ==> HoldsSpace(rows, item)
  {
    for n := 0 to |committed|
      invariant forall i :: 0 <= i < n ==> HoldsSpace(rows, committed[i])
    {
      if !HoldsSpace(rows, committed[n]) { return false; }
    }
    return true;
  }

  lemma SubmapAdd(a: HeldTable, b: HeldTable, o: Occurrence, cls: Class)
    requires o !in a
    ensures Submap(a[o := cls], b) <==> Submap(a, b) && o in b && b[o] == cls
    ensures |a[o := cls]| == |a| + 1
  {
    assert a[o := cls].Keys == a.Keys + {o};
    if Submap(a[o := cls], b) {
      assert o in a[o := cls];
      forall k | k in a
        ensures k in b && a[k] == b[k]
      {
        assert k in a[o := cls];
      }
    }
  }

  /** A part of the recorded table that is as large is the whole of it. */
  lemma SameHeldTable(now: HeldTable, before: HeldTable, held: seq<Held>)
    requires Lists(now, held)
    ensures Submap(now, before) && |now| == |before| <==> Lists(before, held)
  {
    if Lists(before, held) {
      assert now == before;
    }
    if Submap(now, before) && |now| == |before| {
      assert now.Keys <= before.Keys;
      SubsetOfSameSize(now.Keys, before.Keys);
      assert now == before;
    }
  }

  lemma SubsetOfSameSize<T>(a: set<T>, b: set<T>)
    requires a <= b && |a| == |b|
    ensures a == b
  {
    if a != b {
      var x :| x in b && x !in a;
      assert a <= b - {x};
      SubsetIsSmaller(a, b - {x});
    }
  }

  lemma {:induction false} SubsetIsSmaller<T>(a: set<T>, b: set<T>)
    requires a <= b
    ensures |a| <= |b|
  {
    if a != {} {
      var x :| x in a;
      SubsetIsSmaller(a - {x}, b - {x});
    }
  }

  // ------------------------------------------------- without a foreign writer

  /** Held records are the same before and after: a planned record was not held, a written one is not. */
  lemma {:induction false} HeldSurvives(c: Context, c': Context, store: StoreName, rows: seq<Row>, rows': seq<Row>)
    requires SameJudge(c, c') && OnTheWay(c, rows, rows', store)
    ensures HeldOf(c', store, rows') == HeldOf(c, store, rows)
  {
    hide Decide;
    if rows != [] {
      var n := |rows| - 1;
      HeldSurvives(c, c', store, rows[..n], rows'[..n]);
      assert Judge(c, store, rows'[n]) == Judge(c', store, rows'[n]);
      if rows'[n] != rows[n] {
        PlannedLacksSpace(c, store, rows[n]);
        TargetIsSettled(c, c, store, rows[n]);
      }
    }
  }

  lemma LandedHolds(c: Context, store: StoreName, rows: seq<Row>, rows': seq<Row>, item: Item)
    requires Keyed(rows', store) && Landed(c, store, rows, rows', item)
    ensures HoldsSpace(rows', item)
  {
    hide Decide, Judge, ItemOf, PyEq, Fetch, RawValue, RawIdentity, HasValidSpace, FromSqlite;
    var i :| 0 <= i < |rows| && Awaits(c, store, rows[i], item) && rows'[i] == Filled(rows[i], item.space);
    PlannedLacksSpace(c, store, rows[i]);
    ItemSpellsId(c, store, rows[i]);
    assert rows'[i] in rows' && rows'[i].id == rows[i].id;
    StoredIsNoBool(rows'[i].id);
    RawRoundTrip(rows'[i].id);
    FetchFinds(rows', store, i);
  }

  /** reconcile_state says ok after every run that no one else interfered with, wherever it stopped. */
  method RunAndReconcile(f: Files, allow: bool, batchSize: nat, maxBatches: Option<nat>, life: nat) returns (outcome: Outcome, ok: bool)
    requires f.Valid() && batchSize > 0
    modifies f
    ensures f.Valid()
    ensures var c := old(f.Sight(allow));
      OnTheWay(c, old(f.docs), f.docs, DocStore) && OnTheWay(c, old(f.vectors), f.vectors, VectorStore)
    ensures ok <==> !outcome.Killed?
  {
    hide Decide, Judge, NoValid, Lists, Faithful, HeldOf, Keyed, OnTheWay, SameJudge, AllWritten, Landed, HoldsSpace, SqliteIds;
    ok := false;
    var c := f.Sight(allow);
    ghost var docs0, vectors0 := f.docs, f.vectors;
    KeyedIsSqlite(f.docs, DocStore);
    var t := ScanTables(c);
    var beforeDocs := Record(c, t, DocStore, f.docs);
    var beforeVectors := Record(c, t, VectorStore, f.vectors);
    var docsDone, vectorsDone;
    outcome, docsDone, vectorsDone := Run(f, allow, batchSize, maxBatches, life);
    if outcome.Killed? { return; }
    SightOnTheWay(c, f.docs);
    HeldSurvives(c, f.Sight(allow), DocStore, docs0, f.docs);
    HeldSurvives(c, f.Sight(allow), VectorStore, vectors0, f.vectors);
    AllLandedHold(c, DocStore, docs0, f.docs, docsDone);
    AllLandedHold(c, VectorStore, vectors0, f.vectors, vectorsDone);
    OnTheWayLength(c, DocStore, docs0, f.docs);
    OnTheWayLength(c, VectorStore, vectors0, f.vectors);
    KeyedIsSqlite(f.docs, DocStore);
    var current := ScanTables(f.Sight(allow));
    var docsOk := CheckStore(f.Sight(allow), current, DocStore, f.docs, beforeDocs, docsDone);
    var vectorsOk := CheckStore(f.Sight(allow), current, VectorStore, f.vectors, beforeVectors, vectorsDone);
    ok := docsOk && vectorsOk;
  }

  lemma OnTheWayLength(c: Context, store: StoreName, rows: seq<Row>, rows': seq<Row>)
    requires OnTheWay(c, rows, rows', store)
    ensures |rows'| == |rows|
  {
  }

  lemma AllLandedHold(c: Context, store: StoreName, rows: seq<Row>, rows': seq<Row>, committed: seq<Item>)
    requires Keyed(rows', store) && forall item :: item in committed ==> Landed(c, store, rows, rows', item)
    ensures forall item :: item in committed ==> HoldsSpace(rows', item)
  {
    forall item | item in committed
      ensures HoldsSpace(rows', item)
    {
      LandedHolds(c, store, rows, rows', item);
    }
  }

  // ------------------------------------------------------------ what ok proves

  /** Some row of the identifier has this space in its metadata. */
  ghost predicate SpaceStored(rows: seq<Row>, item: Item) {
    exists i :: 0 <= i < |rows| && RawValue(item.raw).Some? && PyEq(rows[i].id, RawValue(item.raw).value)
      && rows[i].column.Object? && "space" in rows[i].column.meta.fields && rows[i].column.meta.fields["space"] == VStr(item.space)
  }

  /** Where identifiers are unique, the look-up of a committed row passes exactly if such a row is stored. */
  lemma LookUpExactly(rows: seq<Row>, store: StoreName, item: Item)
    ensures HoldsSpace(rows, item) ==> SpaceStored(rows, item)
    ensures Keyed(rows, store) && item.raw.tag != TNull && SpaceStored(rows, item) ==> HoldsSpace(rows, item)
  {
    if SpaceStored(rows, item) && Keyed(rows, store) && item.raw.tag != TNull {
      var i :| 0 <= i < |rows| && PyEq(rows[i].id, RawValue(item.raw).value)
        && rows[i].column.Object? && "space" in rows[i].column.meta.fields && rows[i].column.meta.fields["space"] == VStr(item.space);
      OneRowOfAnId(rows, store, RawValue(item.raw).value, i);
    }
  }

  lemma OneRowOfAnId(rows: seq<Row>, store: StoreName, id: PyVal, i: nat)
    requires Keyed(rows, store) && i < |rows| && PyEq(rows[i].id, id) && !id.PyNone?
    ensures Fetch(rows, id) == Some(i)
  {
    hide PyEq, FromSqlite;
    var at := Fetch(rows, id).value;
    PyEqIsEquivalence(rows[at].id, id, rows[i].id);
    PyEqIsEquivalence(rows[i].id, id, rows[at].id);
    PyEqIsEquivalence(id, rows[i].id, rows[at].id);
    PyEqIsEquivalence(id, rows[at].id, rows[i].id);
    NoneEqualsNone(rows[i].id, id);
    NoneEqualsNone(rows[at].id, id);
  }

  /**
   * An ok after any foreign writes: the counts are right, every committed row is there with its space,
   * and no held record changed its class.
   */
  lemma OkMeans(c: Context, c0: Context, store: StoreName, rows: seq<Row>, rows0: seq<Row>, before: Before, committed: seq<Item>)
    requires Lists(before.held, HeldOf(c0, store, rows0))
    requires Reconciled(c, store, rows, before, committed)
    ensures |rows| == before.total && NoValid(rows) == before.noValid - |committed|
    ensures forall item :: item in committed ==> SpaceStored(rows, item)
    ensures forall key :: ClassesOf(HeldOf(c, store, rows), key) == ClassesOf(HeldOf(c0, store, rows0), key)
  {
    forall item | item in committed
      ensures SpaceStored(rows, item)
    {
      LookUpExactly(rows, store, item);
    }
    forall key
      ensures ClassesOf(HeldOf(c, store, rows), key) == ClassesOf(HeldOf(c0, store, rows0), key)
    {
      ListedIsUnique(before.held, HeldOf(c, store, rows), HeldOf(c0, store, rows0), key);
    }
  }

  lemma ListedIsUnique(table: HeldTable, a: seq<Held>, b: seq<Held>, key: Code)
    requires Lists(table, a) && Lists(table, b)
    ensures ClassesOf(a, key) == ClassesOf(b, key)
  {
    var x, y := ClassesOf(a, key), ClassesOf(b, key);
    assert Occurrence(key, |x|) !in table && Occurrence(key, |y|) !in table;
    forall n | 0 <= n < |x| && n < |y|
      ensures x[n] == y[n]
    {
      assert table[Occurrence(key, n)] == x[n];
    }
  }
}
