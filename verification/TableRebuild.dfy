/**
 * The rebuild that adds a sign-bit column to a vector table: copy to a temporary table, drop
 * the original, recreate it and copy back, page by page, with a kill possible after any commit.
 */
module TableRebuild {
  import opened Basics

  // ------------------------------------------------------------------ node ids

  datatype Id = Id(text: string)

  /** SQLite's order on text. */
  predicate Less(a: string, b: string) {
    if b == "" then false
    else if a == "" then true
    else if a[0] != b[0] then a[0] < b[0]
    else Less(a[1..], b[1..])
  }

  lemma {:induction false} LessIsStrict(a: string, b: string)
    ensures a == b ==> !Less(a, b)
    ensures a != b ==> Less(a, b) != Less(b, a)
  {
    if a != "" && b != "" && a[0] == b[0] {
      LessIsStrict(a[1..], b[1..]);
      assert a == [a[0]] + a[1..] && b == [b[0]] + b[1..];
    }
  }

  lemma {:induction false} LessIsTransitive(a: string, b: string, c: string)
    requires Less(a, b) && Less(b, c)
    ensures Less(a, c)
  {
    if a != "" && a[0] == b[0] && b[0] == c[0] {
      LessIsTransitive(a[1..], b[1..], c[1..]);
    }
  }

  /** The ids a page query still has to read. */
  function Above(keys: set<Id>, last: string): set<Id> {
    set k | k in keys && Less(last, k.text)
  }

  /** Keyset reading starts after the empty text, so it reaches every id but the empty one. */
  lemma AboveEmpty(keys: set<Id>)
    ensures Above(keys, "") == keys - {Id("")}
  {
  }

  method Least(keys: set<Id>) returns (least: Id)
    requires keys != {}
    ensures least in keys && forall k :: k in keys && k != least ==> Less(least.text, k.text)
  {
    least :| least in keys;
    var rest := keys - {least};
    ghost var seen := {least};
    while rest != {}
      invariant least in seen && seen + rest == keys && rest !! seen
      invariant forall k :: k in seen && k != least ==> Less(least.text, k.text)
      decreases |rest|
    {
      var k :| k in rest;
      LessIsStrict(k.text, least.text);
      if Less(k.text, least.text) {
        forall j | j in seen && j != least
          ensures Less(k.text, j.text)
        {
          LessIsTransitive(k.text, least.text, j.text);
        }
        least := k;
      }
      seen, rest := seen + {k}, rest - {k};
    }
  }

  function PageSize(limit: int, available: nat): nat {
    if 0 <= limit < available then limit else available
  }

  /** The least id above a bound taken, the others are those above it. */
  lemma AboveLeast(keys: set<Id>, last: string, k: Id)
    requires k in Above(keys, last) && forall j :: j in Above(keys, last) && j != k ==> Less(k.text, j.text)
    ensures Above(keys, k.text) == Above(keys, last) - {k}
  {
    LessIsStrict(k.text, k.text);
    forall j | j in keys && Less(k.text, j.text)
      ensures Less(last, j.text)
    {
      LessIsTransitive(last, k.text, j.text);
    }
  }

  /** SELECT ... WHERE node_id > ? ORDER BY node_id LIMIT ?; a negative LIMIT is none. */
  method SelectPage(keys: set<Id>, last: string, limit: int) returns (page: seq<Id>)
    ensures Distinct(page) && Elements(page) <= Above(keys, last)
    ensures |page| == PageSize(limit, |Above(keys, last)|)
    ensures page != [] ==> Above(keys, page[|page| - 1].text) == Above(keys, last) - Elements(page)
  {
    hide Above, Less, Distinct, Elements;
    page := [];
    NothingTaken(Above(keys, last));
    var rest := Above(keys, last);
    ghost var bound := last;
    while rest != {} && (limit < 0 || |page| < limit)
      invariant Distinct(page) && Elements(page) <= Above(keys, last)
      invariant rest == Above(keys, last) - Elements(page) == Above(keys, bound)
      invariant |rest| + |page| == |Above(keys, last)|
      invariant bound == if page == [] then last else page[|page| - 1].text
      invariant limit < 0 || |page| <= limit
      decreases |rest|
    {
      var k := Least(rest);
      AboveLeast(keys, bound, k);
      TakeOne(page, Above(keys, last), k);
      page, rest, bound := page + [k], rest - {k}, k.text;
    }
  }

  lemma NothingTaken(all: set<Id>)
    ensures Distinct<Id>([]) && Elements<Id>([]) == {} && all - {} == all
  {
  }

  lemma TakeOne(page: seq<Id>, all: set<Id>, k: Id)
    requires Distinct(page) && Elements(page) <= all && k in all - Elements(page)
    ensures Distinct(page + [k]) && Elements(page + [k]) <= all
    ensures all - Elements(page + [k]) == (all - Elements(page)) - {k}
  {
    assert k in Elements(page) || k !in page;
    assert Elements(page + [k]) == Elements(page) + {k};
  }

  // ------------------------------------------------------------------- tables

  datatype Row = Row(pack: Option<string>, embedding: seq<real>, document: string, metadata: string)

  datatype Stored = Stored(row: Row, bit: Option<seq<bool>>)

  datatype Table = Table(hasBit: bool, rows: map<Id, Stored>)

  datatype Name = Original | Temporary

  /** vec_quantize_binary: the sign bits. */
  function Quantize(v: seq<real>): seq<bool> {
    seq(|v|, i requires 0 <= i < |v| => v[i] > 0.0)
  }

  function WithBit(row: Row): Stored {
    Stored(row, Some(Quantize(row.embedding)))
  }

  function RowsOf(t: Table): map<Id, Row> {
    map k | k in t.rows :: t.rows[k].row
  }

  /** The new-schema table that holds exactly these ids of the data. */
  function Copy(data: map<Id, Row>, ids: set<Id>): Table {
    Table(true, map k | k in data && k in ids :: WithBit(data[k]))
  }

  const EMPTY: Id := Id("")

  /** Commits of one copy loop. */
  function Pages(n: nat, batch: int): nat {
    if n == 0 || batch == 0 then 0
    else if batch < 0 || n <= batch then 1
    else 1 + Pages(n - batch, batch)
  }

  /** A positive batch takes as many pages as it needs, a negative one a single page, a batch of 0 none. */
  lemma {:induction false} PagesNeeded(n: nat, batch: int)
    ensures batch > 0 && n > 0 ==> (Pages(n, batch) - 1) * batch < n <= Pages(n, batch) * batch
    ensures Pages(n, batch) == 0 <==> n == 0 || batch == 0
    ensures batch < 0 && n > 0 ==> Pages(n, batch) == 1
  {
    if batch > 0 && n > batch {
      PagesNeeded(n - batch, batch);
      assert Pages(n, batch) * batch == Pages(n - batch, batch) * batch + batch;
    }
  }

  /** The row is unchanged, and its bits say which components of the vector are positive. */
  predicate Rebuilt(stored: Stored, row: Row) {
    && stored.row == row && stored.bit.Some? && |stored.bit.value| == |row.embedding|
    && forall i :: 0 <= i < |row.embedding| ==> (stored.bit.value[i] <==> row.embedding[i] > 0.0)
  }

  /** The table has the bit column and holds every row of the data, rebuilt, and no other. */
  predicate WholeTable(t: Table, data: map<Id, Row>) {
    && t.hasBit && (forall k :: k in t.rows ==> k in data) && forall k :: k in data ==> k in t.rows && Rebuilt(t.rows[k], data[k])
  }

  lemma CopyIsWhole(data: map<Id, Row>)
    ensures WholeTable(Copy(data, data.Keys), data)
  {
  }

  class Database {
    var tables: map<Name, Table>

    constructor (tables: map<Name, Table>)
      ensures this.tables == tables
    {
      this.tables := tables;
    }
  }

  /**
   * _copy_rows into an empty table. lives is the number of commits before the process is killed.
   * Pages are disjoint and cover everything above the empty text, so each row is copied once.
   */
  method CopyRows(db: Database, src: Name, dst: Name, batch: int, lives: nat) returns (killed: bool, copied: nat, left: nat)
    requires src != dst && src in db.tables && dst in db.tables
    requires db.tables[dst] == Table(true, map[])
    modifies db
    ensures var data, all := RowsOf(old(db.tables)[src]), Above(old(db.tables)[src].rows.Keys, "");
      var pages := Pages(|all|, batch);
      && killed == (lives < pages) && (!killed ==> left == lives - pages)
      && (!killed ==> db.tables == old(db.tables)[dst := Copy(data, if batch == 0 then {} else all)]
                      && copied == |db.tables[dst].rows|)
      && (killed ==> exists ids :: ids <= all && db.tables == old(db.tables)[dst := Copy(data, ids)]
                      && (batch > 0 ==> |ids| == lives * batch))
  {
    hide Copy, Above, Pages, PageSize, RowsOf, Elements, Distinct, NewRows;
    var last := "";
    copied, left := 0, lives;
    ghost var tables0 := db.tables;
    ghost var data := RowsOf(tables0[src]);
    ghost var all := Above(tables0[src].rows.Keys, "");
    ghost var ids: set<Id>, used: nat := {}, 0;
    NothingCopied(data, all);
    while true
      invariant ids <= all && Above(tables0[src].rows.Keys, last) == all - ids
      invariant db.tables == tables0[dst := Copy(data, ids)]
      invariant copied == |ids| && left == lives - used
      invariant used + Pages(|all - ids|, batch) == Pages(|all|, batch)
      invariant batch > 0 && ids != all ==> |ids| == used * batch
      invariant batch == 0 ==> ids == {}
      decreases |all - ids|
    {
      var page := SelectPage(db.tables[src].rows.Keys, last, batch);
      if page == [] {
        AllCopied(tables0[src], all, ids, batch);
        return false, copied, left;
      }
      SomeLeft(all, ids, page, batch);
      if left == 0 { return true, copied, left; }
      PageInserted(tables0[src], ids, page, all);
      PageCounted(page, all, ids, batch, used);
      db.tables := db.tables[dst := Table(true, db.tables[dst].rows + NewRows(db.tables[src], page))];
      left := left - 1;
      copied := copied + |page|;
      last := page[|page| - 1].text;
      ids, used := ids + Elements(page), used + 1;
    }
  }

  /** The rows one executemany inserts. */
  function NewRows(src: Table, page: seq<Id>): map<Id, Stored> {
    map k | k in src.rows && k in page :: WithBit(src.rows[k].row)
  }

  lemma NothingCopied(data: map<Id, Row>, all: set<Id>)
    ensures Copy(data, {}) == Table(true, map[]) && all - {} == all
  {
    assert Copy(data, {}).rows == map[];
  }

  /** No inserted id is in the target yet, and the target becomes the copy of that many more ids. */
  lemma PageInserted(src: Table, ids: set<Id>, page: seq<Id>, all: set<Id>)
    requires ids <= all && Elements(page) <= all - ids
    ensures NewRows(src, page).Keys !! Copy(RowsOf(src), ids).rows.Keys
    ensures Table(true, Copy(RowsOf(src), ids).rows + NewRows(src, page)) == Copy(RowsOf(src), ids + Elements(page))
  {
    assert Copy(RowsOf(src), ids).rows + NewRows(src, page) == Copy(RowsOf(src), ids + Elements(page)).rows;
  }

  lemma SomeLeft(all: set<Id>, ids: set<Id>, page: seq<Id>, batch: int)
    requires ids <= all && page != [] && |page| == PageSize(batch, |all - ids|)
    ensures Pages(|all - ids|, batch) > 0 && ids != all && batch != 0
  {
    assert ids == all ==> all - ids == {};
  }

  lemma SizeOfRest(all: set<Id>, ids: set<Id>)
    requires ids <= all
    ensures |all - ids| == |all| - |ids|
  {
    assert all == ids + (all - ids);
  }

  lemma AllCopied(src: Table, all: set<Id>, ids: set<Id>, batch: int)
    requires all == Above(src.rows.Keys, "") && ids <= all && PageSize(batch, |all - ids|) == 0
    requires batch == 0 ==> ids == {}
    ensures ids == if batch == 0 then {} else all
    ensures Pages(|all - ids|, batch) == 0
    ensures |Copy(RowsOf(src), ids).rows| == |ids|
  {
    if batch != 0 {
      assert all - ids == {};
    }
    assert Copy(RowsOf(src), ids).rows.Keys == ids;
  }

  lemma {:induction false} DistinctSize<T>(s: seq<T>)
    requires Distinct(s)
    ensures |Elements(s)| == |s|
  {
    if s != [] {
      var n := |s| - 1;
      DistinctSize(s[..n]);
      assert s == s[..n] + [s[n]];
      assert s[n] !in s[..n];
      assert Elements(s) == Elements(s[..n]) + {s[n]};
    }
  }

  lemma PageCounted(page: seq<Id>, all: set<Id>, ids: set<Id>, batch: int, used: nat)
    requires Distinct(page) && Elements(page) <= all - ids && ids <= all && page != []
    requires |page| == PageSize(batch, |all - ids|)
    ensures |ids + Elements(page)| == |ids| + |page|
    ensures all - (ids + Elements(page)) == all - ids - Elements(page)
    ensures |all - (ids + Elements(page))| == |all - ids| - |page|
    ensures 1 + Pages(|all - (ids + Elements(page))|, batch) == Pages(|all - ids|, batch)
    ensures batch > 0 && |ids| == used * batch && ids + Elements(page) != all ==> |ids + Elements(page)| == (used + 1) * batch
  {
    DistinctSize(page);
    SizeOfRest(all - ids, Elements(page));
    assert all - (ids + Elements(page)) == all - ids - Elements(page);
    assert ids !! Elements(page);
    if |page| == |all - ids| {
      assert |all - (ids + Elements(page))| == 0;
    } else {
      assert |page| == batch;
    }
  }

  // ------------------------------------------------------------------ one run

  datatype Result = Killed | Raised | Failed(code: int) | Pass(already: bool)

  /** The table holds the data in the new schema, every bit derived from its vector. */
  predicate Migrated(tables: map<Name, Table>, name: Name, data: map<Id, Row>) {
    name in tables && tables[name] == Copy(data, data.Keys)
  }

  /** Where any number of killed runs can leave the database. */
  ghost predicate Safe(tables: map<Name, Table>, data: map<Id, Row>) {
    if Original !in tables then Migrated(tables, Temporary, data)
    else if !tables[Original].hasBit then RowsOf(tables[Original]) == data
    else
      && (exists ids :: ids <= data.Keys && tables[Original] == Copy(data, ids))
      && (if Temporary in tables then Migrated(tables, Temporary, data) else Migrated(tables, Original, data))
  }

  /** In every safe state the original or its temporary copy holds all rows, unchanged. */
  lemma NothingIsLost(tables: map<Name, Table>, data: map<Id, Row>)
    requires Safe(tables, data)
    ensures || (Original in tables && RowsOf(tables[Original]) == data)
            || (Temporary in tables && RowsOf(tables[Temporary]) == data)
  {
    assert RowsOf(Copy(data, data.Keys)) == data;
  }

  /** A new-schema original beside a larger temporary table: the sign of an interrupted copy back. */
  predicate Interrupted(tables: map<Name, Table>) {
    && Original in tables && tables[Original].hasBit
    && Temporary in tables && |tables[Original].rows| < |tables[Temporary].rows|
  }

  /**
   * What the check for an existing bit column cannot see, and a comparison of the two tables would.
   * The count decides because nobody else writes between a kill and the rerun: rows that a server
   * inserted into the half-filled table could make up the number while others are missing.
   */
  lemma InterruptedIsIncomplete(tables: map<Name, Table>, data: map<Id, Row>)
    requires Safe(tables, data) && Original in tables && tables[Original].hasBit
    ensures RowsOf(tables[Original]) == data <==> !Interrupted(tables)
  {
    var ids :| ids <= data.Keys && tables[Original] == Copy(data, ids);
    assert tables[Original].rows.Keys == ids == RowsOf(tables[Original]).Keys;
    assert RowsOf(Copy(data, data.Keys)) == data;
    assert Copy(data, data.Keys).rows.Keys == data.Keys;
    SizeOfRest(data.Keys, ids);
    if ids != data.Keys {
      var k :| k in data.Keys - ids;
      assert |data.Keys - ids| > 0;
    }
  }

  /** Whether the copy loop reaches every row. */
  predicate Reads(data: map<Id, Row>, batch: int) {
    EMPTY !in data && (batch != 0 || data == map[])
  }

  lemma WhatIsRead(t: Table, batch: int)
    ensures var data, all := RowsOf(t), Above(t.rows.Keys, "");
      var ids := if batch == 0 then {} else all;
      && |t.rows| == |data|
      && (Reads(data, batch) ==> ids == data.Keys && all == data.Keys && |all| == |data| && |Copy(data, ids).rows| == |data|)
      && (!Reads(data, batch) ==> |Copy(data, ids).rows| < |data|)
  {
    var data, all := RowsOf(t), Above(t.rows.Keys, "");
    AboveEmpty(t.rows.Keys);
    assert data.Keys == t.rows.Keys;
    CopiedIds(data, all);
    CopiedIds(data, {});
    if EMPTY in data { SizeOfRest(data.Keys, {EMPTY}); }
  }

  lemma CopiedIds(data: map<Id, Row>, ids: set<Id>)
    requires ids <= data.Keys
    ensures Copy(data, ids).rows.Keys == ids && |Copy(data, ids).rows| == |ids| && Copy(data, ids).hasBit
  {
    assert Copy(data, ids).rows.Keys == ids;
  }

  /** Stage 1: the temporary table is built anew beside the untouched original. */
  method Stage(db: Database, batch: int, commits: nat, ghost data: map<Id, Row>) returns (stop: Option<Result>, left: nat)
    requires Original in db.tables && !db.tables[Original].hasBit && RowsOf(db.tables[Original]) == data
    modifies db
    ensures Original in db.tables && db.tables[Original] == old(db.tables)[Original]
    ensures stop.None? ==> Reads(data, batch) && db.tables == map[Original := db.tables[Original], Temporary := Copy(data, data.Keys)]
    ensures stop.Some? ==> stop.value.Killed? || stop.value == Failed(5)
    ensures stop == Some(Failed(5)) ==> !Reads(data, batch)
    ensures Reads(data, batch) ==>
      (stop.None? <==> commits >= 2 + Pages(|data|, batch)) && (stop.None? ==> left == commits - 2 - Pages(|data|, batch))
  {
    hide Copy, Above, Pages;
    WhatIsRead(db.tables[Original], batch);
    var total := |db.tables[Original].rows|;
    left := commits;
    if left == 0 { return Some(Killed), left; }
    db.tables := db.tables - {Temporary};
    left := left - 1;
    if left == 0 { return Some(Killed), left; }
    db.tables := db.tables[Temporary := Table(true, map[])];
    left := left - 1;
    var killed, copied;
    killed, copied, left := CopyRows(db, Original, Temporary, batch, left);
    if killed { return Some(Killed), left; }
    if |db.tables[Temporary].rows| != total { return Some(Failed(5)), left; }
    stop := None;
    OnlyTwoTables(db.tables);
  }

  lemma OnlyTwoTables(tables: map<Name, Table>)
    requires Original in tables && Temporary in tables
    ensures tables == map[Original := tables[Original], Temporary := tables[Temporary]]
  {
    var both := map[Original := tables[Original], Temporary := tables[Temporary]];
    forall n: Name
      ensures n in tables && n in both && tables[n] == both[n]
    {
      match n { case Original => case Temporary => }
    }
  }

  /** While the temporary table is whole, the original may be missing or hold any part; and it alone may, if it is whole. */
  lemma SafeWhileCopied(tables: map<Name, Table>, data: map<Id, Row>)
    requires Migrated(tables, Temporary, data)
    ensures Original in tables && !tables[Original].hasBit && RowsOf(tables[Original]) == data ==> Safe(tables, data)
    ensures Safe(tables - {Original}, data)
    ensures forall ids :: ids <= data.Keys ==>
      Safe(tables[Original := Copy(data, ids)], data) && Migrated(tables[Original := Copy(data, ids)], Temporary, data)
    ensures Safe(map[Original := Copy(data, data.Keys)], data)
  {
    forall ids | ids <= data.Keys
      ensures Safe(tables[Original := Copy(data, ids)], data) && Migrated(tables[Original := Copy(data, ids)], Temporary, data)
    {
      CopiedIds(data, ids);
      hide Copy;
    }
    CopiedIds(data, data.Keys);
    hide Copy;
  }

  /** The copy back, from the temporary table into the recreated original. */
  method CopyBack(db: Database, batch: int, lives: nat, ghost data: map<Id, Row>, ghost start: map<Name, Table>)
    returns (killed: bool, left: nat)
    requires Reads(data, batch) && Migrated(start, Temporary, data) && db.tables == start[Original := Table(true, map[])]
    modifies db
    ensures killed == (lives < Pages(|data|, batch)) && (!killed ==> left == lives - Pages(|data|, batch))
    ensures !killed ==> db.tables == start[Original := Copy(data, data.Keys)]
    ensures killed ==> exists ids :: ids <= data.Keys && db.tables == start[Original := Copy(data, ids)] && (batch > 0 ==> |ids| == lives * batch)
  {
    hide Above, Pages, Reads, Copy, RowsOf;
    FromCopy(data, batch);
    var copied;
    killed, copied, left := CopyRows(db, Temporary, Original, batch, lives);
    if killed {
      ghost var ids :| ids <= data.Keys && db.tables == old(db.tables)[Original := Copy(data, ids)] && (batch > 0 ==> |ids| == lives * batch);
      assert db.tables == start[Original := Copy(data, ids)];
    } else {
      assert db.tables == start[Original := Copy(data, data.Keys)];
    }
  }

  /** Stage 2: the original is dropped, recreated and filled from the temporary table. */
  method Swap(db: Database, batch: int, commits: nat, ghost data: map<Id, Row>) returns (result: Result)
    requires Reads(data, batch) && Original in db.tables && !db.tables[Original].hasBit && RowsOf(db.tables[Original]) == data
    requires Migrated(db.tables, Temporary, data)
    modifies db
    ensures Safe(db.tables, data)
    ensures result == if commits >= 3 + Pages(|data|, batch) then Pass(false) else Killed
    ensures result == Pass(false) ==> db.tables == map[Original := Copy(data, data.Keys)]
    ensures batch > 0 && 2 <= commits < 2 + Pages(|data|, batch) ==>
      && Original in db.tables && db.tables[Original].hasBit && |db.tables[Original].rows| == (commits - 2) * batch
      && Migrated(db.tables, Temporary, data)
  {
    hide Above, Pages, Reads, Copy, RowsOf, Safe;
    ghost var start := db.tables;
    SafeWhileCopied(start, data);
    var total := |db.tables[Original].rows|;
    WhatIsRead(db.tables[Original], batch);
    WhatIsWhole(data);
    FromCopy(data, batch);
    var left: nat := commits;
    result := Killed;
    if left == 0 { return; }
    db.tables := db.tables - {Original};
    left := left - 1;
    if left == 0 { return; }
    db.tables := db.tables[Original := Table(true, map[])];
    assert db.tables == start[Original := Table(true, map[])];
    left := left - 1;
    var killed;
    killed, left := CopyBack(db, batch, left, data, start);
    if killed {
      ghost var ids :| ids <= data.Keys && db.tables == start[Original := Copy(data, ids)] && (batch > 0 ==> |ids| == (commits - 2) * batch);
      CopiedIds(data, ids);
      return;
    }
    if |db.tables[Original].rows| != total { return Failed(5); }
    if left == 0 { return; }
    db.tables := db.tables - {Temporary};
    OnlyOriginal(db.tables);
    result := Pass(false);
  }

  lemma OnlyOriginal(tables: map<Name, Table>)
    requires Original in tables && Temporary !in tables
    ensures tables == map[Original := tables[Original]]
  {
    forall n: Name | n in tables
      ensures n == Original
    {
      match n { case Original => case Temporary => }
    }
  }

  lemma FromCopy(data: map<Id, Row>, batch: int)
    requires Reads(data, batch)
    ensures RowsOf(Copy(data, data.Keys)) == data
    ensures Above(Copy(data, data.Keys).rows.Keys, "") == data.Keys
    ensures batch == 0 ==> data.Keys == {}
    ensures Copy(data, {}) == Table(true, map[])
  {
    assert RowsOf(Copy(data, data.Keys)) == data;
    assert Copy(data, {}).rows == map[];
    WhatIsRead(Copy(data, data.Keys), batch);
  }

  lemma WhatIsWhole(data: map<Id, Row>)
    ensures |Copy(data, data.Keys).rows| == |data| && Copy(data, data.Keys).hasBit
  {
    CopiedIds(data, data.Keys);
  }

  /**
   * main, from the idempotency check on. commits is the number of commits before the process is
   * killed; a batch of 0 reads nothing and a negative one everything. A run that starts with the
   * original table passes exactly if it lives long enough and its copy loop reaches every row.
   * A run that finds the bit column passes at once, which is right unless a copy back was interrupted.
   */
  method Migrate(db: Database, batch: int, commits: nat, ghost data: map<Id, Row>) returns (result: Result)
    requires Safe(db.tables, data)
    modifies db
    ensures Safe(db.tables, data)
    ensures Original in old(db.tables) && !old(db.tables)[Original].hasBit ==>
      (result == Pass(false) <==> Id("") !in data && (batch != 0 || data == map[]) && commits >= 5 + 2 * Pages(|data|, batch))
    ensures result == Pass(false) ==> db.tables.Keys == {Original} && WholeTable(db.tables[Original], data)
    ensures result == Pass(false) ==> db.tables == map[Original := Copy(data, data.Keys)]
    ensures result == Pass(true) <==> Original in old(db.tables) && old(db.tables)[Original].hasBit
    ensures result.Raised? <==> Original !in old(db.tables)
    ensures result == Pass(true) || result.Raised? ==> db.tables == old(db.tables)
    ensures result.Failed? ==> Original in old(db.tables) && Original in db.tables && db.tables[Original] == old(db.tables)[Original]
    ensures result.Pass? ==> Original in db.tables && (RowsOf(db.tables[Original]) == data <==> !Interrupted(old(db.tables)))
    ensures Original in old(db.tables) && !old(db.tables)[Original].hasBit && Reads(data, batch) && batch > 0 ==>
      var k := commits - 4 - Pages(|data|, batch);
      0 <= k < Pages(|data|, batch) ==>
        && Original in db.tables && db.tables[Original].hasBit && |db.tables[Original].rows| == k * batch
        && Migrated(db.tables, Temporary, data)
  {
    WhatReadsMeans(data, batch);
    CopyIsWhole(data);
    hide Copy, Pages, Reads, RowsOf, WholeTable;
    if Original in db.tables && db.tables[Original].hasBit {
      InterruptedIsIncomplete(db.tables, data);
      return Pass(true);
    }
    if Original !in db.tables { return Raised; }
    CopyHasTheData(data);
    var stop, left := Stage(db, batch, commits, data);
    if stop.Some? { return stop.value; }
    result := Swap(db, batch, left, data);
  }

  lemma WhatReadsMeans(data: map<Id, Row>, batch: int)
    ensures Reads(data, batch) <==> Id("") !in data && (batch != 0 || data == map[])
  {
  }

  lemma CopyHasTheData(data: map<Id, Row>)
    ensures RowsOf(Copy(data, data.Keys)) == data
  {
    assert RowsOf(Copy(data, data.Keys)) == data;
  }

  /** Any number of killed runs, however unlucky, lose nothing. */
  method MigrateRepeatedly(db: Database, lives: seq<(int, nat)>, ghost data: map<Id, Row>) returns (results: seq<Result>)
    requires Original in db.tables && !db.tables[Original].hasBit && RowsOf(db.tables[Original]) == data
    modifies db
    ensures Safe(db.tables, data) && |results| == |lives|
    ensures Pass(false) in results ==> Original in db.tables && WholeTable(db.tables[Original], data)
  {
    CopyIsWhole(data);
    results := [];
    for n := 0 to |lives|
      invariant Safe(db.tables, data) && |results| == n
      invariant Pass(false) in results ==> Migrated(db.tables, Original, data)
    {
      var result := Migrate(db, lives[n].0, lives[n].1, data);
      results := results + [result];
    }
  }

  /**
   * The pass that is not one: two rows, one per page, killed after the first page was copied
   * back. The rerun reports success, and the table serves one row of two.
   */
  method PassWithHalfTheRows(db: Database, a: Id, b: Id, x: Row, y: Row) returns (first: Result, second: Result)
    requires db.tables == map[Original := Table(false, map[a := Stored(x, None), b := Stored(y, None)])]
    requires a != b && a != EMPTY && b != EMPTY
    modifies db
    ensures first.Killed? && second == Pass(true)
    ensures Original in db.tables && |db.tables[Original].rows| == 1
  {
    ghost var data := RowsOf(db.tables[Original]);
    assert data.Keys == {a, b};
    assert |data| == 2;
    assert Pages(2, 1) == 2;
    first := Migrate(db, 1, 7, data);
    second := Migrate(db, 1, 100, data);
  }
}
