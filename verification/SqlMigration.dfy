/**
 * The migration of the SQL-store tables from SQLite to PostgreSQL: columns are resolved and
 * every boolean and timestamp is scanned before the first write, then each table is copied
 * in batches. A run may be killed before or after any batch and be repeated.
 */
module SqlMigration {
  import opened Basics

  // ------------------------------------------------------------------ values

  datatype Value = Null | Bool(b: bool) | Int(n: int) | Text(s: string) | Other(id: nat)

  /** to_pg_bool; None where it raises. */
  function ToPgBool(v: Value): Option<Value> {
    match v
    case Null => Some(Null)
    case Bool(b) => Some(Bool(b))
    case Int(n) => if n == 0 || n == 1 then Some(Bool(n == 1)) else None
    case _ => None
  }

  /** to_sqlite_bool. */
  function ToSqliteBool(v: Value): Option<Value> {
    match v
    case Null => Some(Null)
    case Bool(b) => Some(Int(if b then 1 else 0))
    case Int(n) => if n == 0 || n == 1 then Some(Int(n)) else None
    case _ => None
  }

  /** What SQLite stores as a boolean comes back unchanged from a migration there and back; nothing else gets through. */
  lemma BooleanRoundTrip(v: Value)
    ensures v.Null? || v.Int? ==>
      (match ToPgBool(v) case Some(p) => ToSqliteBool(p) == Some(v) case None => ToSqliteBool(v).None?)
    ensures ToPgBool(v).Some? <==> v in {Null, Bool(false), Bool(true), Int(0), Int(1)}
    ensures ToPgBool(v).Some? ==> ToPgBool(ToPgBool(v).value) == ToPgBool(v)
    ensures ToSqliteBool(v).Some? <==> v in {Null, Bool(false), Bool(true), Int(0), Int(1)}
    ensures ToSqliteBool(v).Some? ==> ToSqliteBool(v).value in {Null, Int(0), Int(1)} && ToSqliteBool(ToSqliteBool(v).value) == ToSqliteBool(v)
  {
  }

  // ------------------------------------------------------------------ columns

  datatype Spec = Spec(name: string, key: Option<seq<string>>, required: set<string>, exclude: set<string>)

  function Without(columns: seq<string>, exclude: set<string>): (r: seq<string>)
    ensures forall c :: c in r <==> c in columns && c !in exclude
  {
    if columns == [] then []
    else Without(columns[..|columns| - 1], exclude) + if columns[|columns| - 1] in exclude then [] else [columns[|columns| - 1]]
  }

  /** resolve_columns; None where it refuses. */
  function ResolveColumns(spec: Spec, src: seq<string>, dst: seq<string>): Option<seq<string>> {
    var s, d := Without(src, spec.exclude), Without(dst, spec.exclude);
    if spec.required <= Elements(s) && spec.required <= Elements(d) && Elements(s) <= Elements(d) then Some(s) else None
  }

  /** Accepted columns are all the source has, in its order, and the target takes every one of them. */
  lemma NoColumnIsDropped(spec: Spec, src: seq<string>, dst: seq<string>)
    ensures ResolveColumns(spec, src, dst).Some? <==>
      && (forall c :: c in spec.required ==> c in src && c in dst && c !in spec.exclude)
      && (forall c :: c in src && c !in spec.exclude ==> c in dst)
    ensures ResolveColumns(spec, src, dst).Some? ==>
      ResolveColumns(spec, src, dst).value == Without(src, spec.exclude)
  {
    var s, d := Without(src, spec.exclude), Without(dst, spec.exclude);
    assert forall c :: c in Elements(s) <==> c in s;
    assert forall c :: c in Elements(d) <==> c in d;
  }

  // -------------------------------------------------------------------- rows

  type Row = map<string, Value>
  type Key = seq<Value>

  /** One table to copy: its resolved columns, and its rows in reading order. */
  datatype Job = Job(
    name: string,
    key: Option<seq<string>>,
    columns: set<string>,
    bools: set<string>,
    stamps: set<string>,
    rows: seq<Row>)

  /** Which texts the timestamp check accepts. */
  type Parser = string -> bool

  predicate StampOk(parses: Parser, v: Value) {
    v.Null? || (v.Text? && parses(v.s))
  }

  function ValueAt(r: Row, c: string): Value {
    if c in r then r[c] else Null
  }

  predicate RowOk(parses: Parser, job: Job, r: Row) {
    && (forall c :: c in job.bools ==> ToPgBool(ValueAt(r, c)).Some?)
    && (forall c :: c in job.stamps ==> StampOk(parses, ValueAt(r, c)))
  }

  predicate JobOk(parses: Parser, job: Job) {
    forall r :: r in job.rows ==> RowOk(parses, job, r)
  }

  /** A boolean column holds something else than null, 0, 1 or a boolean, or a timestamp column no timestamp. */
  predicate BadValue(parses: Parser, job: Job, r: Row, c: string) {
    var v := if c in r then r[c] else Null;
    || (c in job.bools && v !in {Null, Int(0), Int(1), Bool(false), Bool(true)})
    || (c in job.stamps && v != Null && !(v.Text? && parses(v.s)))
  }

  lemma ScannedByColumn(parses: Parser, job: Job)
    ensures JobOk(parses, job) <==> forall r, c :: r in job.rows ==> !BadValue(parses, job, r, c)
  {
    if JobOk(parses, job) {
      forall r, c | r in job.rows
        ensures !BadValue(parses, job, r, c)
      {
        assert RowOk(parses, job, r);
        BooleanRoundTrip(ValueAt(r, c));
      }
    }
    if forall r, c :: r in job.rows ==> !BadValue(parses, job, r, c) {
      forall r, c | r in job.rows
        ensures c in job.bools ==> ToPgBool(ValueAt(r, c)).Some?
        ensures c in job.stamps ==> StampOk(parses, ValueAt(r, c))
      {
        assert !BadValue(parses, job, r, c);
      }
    }
  }

  /** The row as it is bound: only the copied columns, booleans converted. */
  function Converted(job: Job, r: Row): Row {
    map c | c in job.columns :: if c in job.bools && ToPgBool(ValueAt(r, c)).Some? then ToPgBool(ValueAt(r, c)).value else ValueAt(r, c)
  }

  function KeyOf(key: seq<string>, r: Row): Key {
    seq(|key|, i requires 0 <= i < |key| => ValueAt(r, key[i]))
  }

  /** A target table: by natural key, or a history without one. */
  datatype Table = Keyed(rows: map<Key, Row>) | History(entries: seq<Row>)

  datatype Entry = Entry(key: Key, row: Row)

  function EntryOf(job: Job, key: seq<string>, r: Row): Entry {
    Entry(KeyOf(key, r), Converted(job, r))
  }

  function EntriesOf(job: Job, key: seq<string>, rows: seq<Row>): seq<Entry> {
    seq(|rows|, i requires 0 <= i < |rows| => EntryOf(job, key, rows[i]))
  }

  function ConvertedAll(job: Job, rows: seq<Row>): seq<Row> {
    seq(|rows|, i requires 0 <= i < |rows| => Converted(job, rows[i]))
  }

  /** A natural key is a primary or unique key of the source. */
  predicate UniqueKeys(entries: seq<Entry>) {
    forall i, j :: 0 <= i < j < |entries| ==> entries[i].key != entries[j].key
  }

  /** What a row becomes: columns only the target has keep their value, or get their default. */
  function Updated(rows: map<Key, Row>, e: Entry, defaults: Row): Row {
    (if e.key in rows then rows[e.key] else defaults) + e.row
  }

  /** INSERT ... ON CONFLICT DO UPDATE, entry after entry. */
  function UpsertAll(rows: map<Key, Row>, entries: seq<Entry>, defaults: Row): map<Key, Row> {
    if entries == [] then rows
    else
      var before := UpsertAll(rows, entries[..|entries| - 1], defaults);
      var e := entries[|entries| - 1];
      before[e.key := Updated(before, e, defaults)]
  }

  /** The target as an independent description: source keys updated, everything else as it was. */
  ghost predicate Holds(rows': map<Key, Row>, rows: map<Key, Row>, entries: seq<Entry>, defaults: Row) {
    && (forall e :: e in entries ==> e.key in rows' && rows'[e.key] == Updated(rows, e, defaults))
    && (forall k :: (k in rows' <==> k in rows || exists e :: e in entries && e.key == k))
    && (forall k :: k in rows && (forall e :: e in entries ==> e.key != k) ==> rows'[k] == rows[k])
  }

  lemma HoldsSnoc(before: map<Key, Row>, rows: map<Key, Row>, first: seq<Entry>, e: Entry, defaults: Row)
    requires Holds(before, rows, first, defaults) && forall f :: f in first ==> f.key != e.key
    ensures Holds(before[e.key := Updated(before, e, defaults)], rows, first + [e], defaults)
  {
    var rows' := before[e.key := Updated(before, e, defaults)];
    assert Updated(before, e, defaults) == Updated(rows, e, defaults);
    forall f | f in first + [e]
      ensures f.key in rows' && rows'[f.key] == Updated(rows, f, defaults)
    {
    }
    forall k
      ensures k in rows' <==> k in rows || exists f :: f in first + [e] && f.key == k
    {
      if k == e.key { assert e in first + [e]; }
      if f :| f in first && f.key == k { assert f in first + [e]; }
    }
    forall k | k in rows && forall f :: f in first + [e] ==> f.key != k
      ensures rows'[k] == rows[k]
    {
      assert e in first + [e];
      forall f | f in first
        ensures f.key != k
      {
        assert f in first + [e];
      }
    }
  }

  lemma {:induction false} UpsertAllHolds(rows: map<Key, Row>, entries: seq<Entry>, defaults: Row)
    requires UniqueKeys(entries)
    ensures Holds(UpsertAll(rows, entries, defaults), rows, entries, defaults)
  {
    if entries != [] {
      var n := |entries| - 1;
      UpsertAllHolds(rows, entries[..n], defaults);
      assert entries == entries[..n] + [entries[n]];
      forall e | e in entries[..n]
        ensures e.key != entries[n].key
      {
        var i :| 0 <= i < n && entries[i] == e;
      }
      HoldsSnoc(UpsertAll(rows, entries[..n], defaults), rows, entries[..n], entries[n], defaults);
    }
  }

  /** A table in the middle of a run: each key is untouched or finished. */
  ghost predicate Partly(rows': map<Key, Row>, rows: map<Key, Row>, entries: seq<Entry>, defaults: Row) {
    && (forall k :: k in rows ==> k in rows')
    && (forall k :: k in rows' ==>
          || (k in rows && rows'[k] == rows[k])
          || (exists e :: e in entries && e.key == k && rows'[k] == Updated(rows, e, defaults)))
  }

  lemma PartlyAfterPrefix(rows: map<Key, Row>, entries: seq<Entry>, n: nat, defaults: Row)
    requires UniqueKeys(entries) && n <= |entries|
    ensures Partly(UpsertAll(rows, entries[..n], defaults), rows, entries, defaults)
  {
    UpsertAllHolds(rows, entries[..n], defaults);
    var rows' := UpsertAll(rows, entries[..n], defaults);
    forall k | k in rows'
      ensures (k in rows && rows'[k] == rows[k]) || (exists e :: e in entries && e.key == k && rows'[k] == Updated(rows, e, defaults))
    {
      if e :| e in entries[..n] && e.key == k { assert e in entries; }
    }
  }

  lemma SameKeySameEntry(entries: seq<Entry>, a: Entry, b: Entry)
    requires UniqueKeys(entries) && a in entries && b in entries && a.key == b.key
    ensures a == b
  {
    var i :| 0 <= i < |entries| && entries[i] == a;
    var j :| 0 <= j < |entries| && entries[j] == b;
  }

  lemma UpdateTwice(r: Row, row: Row)
    ensures (r + row) + row == r + row
  {
  }

  lemma HoldsDetermines(x: map<Key, Row>, y: map<Key, Row>, mid: map<Key, Row>, rows: map<Key, Row>, entries: seq<Entry>, defaults: Row)
    requires Holds(x, mid, entries, defaults) && Holds(y, rows, entries, defaults)
    requires Partly(mid, rows, entries, defaults)
    requires forall e :: e in entries ==> Updated(mid, e, defaults) == Updated(rows, e, defaults)
    ensures x == y
  {
    hide Updated;
    forall k
      ensures k in x <==> k in y
      ensures k in x && k in y ==> x[k] == y[k]
    {
      if e :| e in entries && e.key == k {
      } else if k in mid {
        assert k in rows && mid[k] == rows[k];
      }
    }
  }

  /** Entries already written or not: writing them all ends in the same table. */
  lemma PartlyMeets(mid: map<Key, Row>, rows: map<Key, Row>, entries: seq<Entry>, defaults: Row)
    requires UniqueKeys(entries) && Partly(mid, rows, entries, defaults)
    ensures UpsertAll(mid, entries, defaults) == UpsertAll(rows, entries, defaults)
  {
    UpsertAllHolds(mid, entries, defaults);
    UpsertAllHolds(rows, entries, defaults);
    forall e | e in entries
      ensures Updated(mid, e, defaults) == Updated(rows, e, defaults)
    {
      UpdatedAlike(mid, rows, entries, defaults, e);
    }
    HoldsDetermines(UpsertAll(mid, entries, defaults), UpsertAll(rows, entries, defaults), mid, rows, entries, defaults);
  }

  lemma UpdatedAlike(mid: map<Key, Row>, rows: map<Key, Row>, entries: seq<Entry>, defaults: Row, e: Entry)
    requires UniqueKeys(entries) && Partly(mid, rows, entries, defaults) && e in entries
    ensures Updated(mid, e, defaults) == Updated(rows, e, defaults)
  {
    if e.key in mid && !(e.key in rows && mid[e.key] == rows[e.key]) {
      var f :| f in entries && f.key == e.key && mid[e.key] == Updated(rows, f, defaults);
      SameKeySameEntry(entries, e, f);
      UpdateTwice(if e.key in rows then rows[e.key] else defaults, e.row);
    }
  }

  lemma PartlyTransitive(a: map<Key, Row>, b: map<Key, Row>, c: map<Key, Row>, entries: seq<Entry>, defaults: Row)
    requires UniqueKeys(entries) && Partly(b, a, entries, defaults) && Partly(c, b, entries, defaults)
    ensures Partly(c, a, entries, defaults)
  {
    forall k | k in c
      ensures (k in a && c[k] == a[k]) || (exists e :: e in entries && e.key == k && c[k] == Updated(a, e, defaults))
    {
      if e :| e in entries && e.key == k && c[k] == Updated(b, e, defaults) {
        UpdatedAlike(b, a, entries, defaults, e);
      }
    }
  }

  /** A rerun changes nothing. */
  lemma RerunChangesNothing(rows: map<Key, Row>, entries: seq<Entry>, defaults: Row)
    requires UniqueKeys(entries)
    ensures UpsertAll(UpsertAll(rows, entries, defaults), entries, defaults) == UpsertAll(rows, entries, defaults)
  {
    assert entries[..|entries|] == entries;
    PartlyAfterPrefix(rows, entries, |entries|, defaults);
    PartlyMeets(UpsertAll(rows, entries, defaults), rows, entries, defaults);
  }

  // ---------------------------------------------------------------- one table

  function Entries(job: Job): seq<Entry> {
    if job.key.Some? then EntriesOf(job, job.key.value, job.rows) else []
  }

  /** The table after the first n rows have been copied; a history that is not empty is left alone. */
  function Copied(job: Job, table: Table, n: nat, defaults: Row): Table
    requires n <= |job.rows|
  {
    match table
    case Keyed(rows) => if n <= |Entries(job)| then Keyed(UpsertAll(rows, Entries(job)[..n], defaults)) else table
    case History(entries) => if entries == [] then History(ConvertedAll(job, job.rows[..n])) else table
  }

  predicate Fits(job: Job, table: Table) {
    (job.key.Some? <==> table.Keyed?) && UniqueKeys(Entries(job))
  }

  // ----------------------------------------------------- a copied row, by column

  /** What a source value v of a boolean or other column becomes. */
  predicate Arrives(v: Value, isBoolean: bool, w: Value) {
    if isBoolean && v == Int(0) then w == Bool(false)
    else if isBoolean && v == Int(1) then w == Bool(true)
    else w == v
  }

  /** Every copied column of the row holds what it should; a column the source row lacks counts as null. */
  predicate RowArrives(job: Job, r: Row, r': Row) {
    forall c :: c in job.columns ==> c in r' && Arrives(if c in r then r[c] else Null, c in job.bools, r'[c])
  }

  /** The columns that only the target has are as they were, or at their defaults in a new row. */
  ghost predicate OwnColumnsStay(job: Job, before: Row, after: Row) {
    forall c :: c !in job.columns ==> (c in after <==> c in before) && (c in before ==> after[c] == before[c])
  }

  predicate IsKeyOf(k: Key, key: seq<string>, r: Row) {
    |k| == |key| && forall i :: 0 <= i < |key| ==> k[i] == if key[i] in r then r[key[i]] else Null
  }

  /** A keyed table after the copy: each source row is there under its key, and every other row as before. */
  ghost predicate KeyedArrives(job: Job, key: seq<string>, before: map<Key, Row>, after: map<Key, Row>, defaults: Row) {
    && (forall r, k :: r in job.rows && IsKeyOf(k, key, r) ==>
          k in after && RowArrives(job, r, after[k]) && OwnColumnsStay(job, if k in before then before[k] else defaults, after[k]))
    && (forall k :: (forall r :: r in job.rows ==> !IsKeyOf(k, key, r)) ==>
          (k in after <==> k in before) && (k in before ==> after[k] == before[k]))
  }

  /** A table after a run that went through; a history that is not empty is left alone. */
  ghost predicate TableArrives(job: Job, before: Table, after: Table, defaults: Row) {
    match (before, after)
    case (Keyed(x), Keyed(y)) => job.key.Some? && KeyedArrives(job, job.key.value, x, y, defaults)
    case (History(x), History(y)) =>
      if x != [] then y == x
      else |y| == |job.rows| && forall i :: 0 <= i < |y| ==> y[i].Keys == job.columns && RowArrives(job, job.rows[i], y[i])
    case _ => false
  }

  /** The row that is bound has exactly the copied columns, each with its value; what was checked is a boolean or null. */
  lemma ConvertedByColumn(job: Job, r: Row)
    ensures Converted(job, r).Keys == job.columns && RowArrives(job, r, Converted(job, r))
    ensures forall parses, c :: RowOk(parses, job, r) && c in job.bools && c in job.columns ==>
      Converted(job, r)[c].Bool? || Converted(job, r)[c].Null?
  {
  }

  lemma KeyIsUnique(key: seq<string>, r: Row, k: Key)
    ensures IsKeyOf(k, key, r) <==> k == KeyOf(key, r)
  {
  }

  lemma UpdateArrives(job: Job, r: Row, before: Row)
    ensures RowArrives(job, r, before + Converted(job, r)) && OwnColumnsStay(job, before, before + Converted(job, r))
  {
    ConvertedByColumn(job, r);
  }

  lemma CopiedArrives(job: Job, table: Table, defaults: Row)
    requires Fits(job, table)
    ensures TableArrives(job, table, Copied(job, table, |job.rows|, defaults), defaults)
  {
    match table {
      case Keyed(rows) =>
        var es := Entries(job);
        assert es[..|job.rows|] == es;
        UpsertAllHolds(rows, es, defaults);
        KeyedHolds(job, rows, UpsertAll(rows, es, defaults), defaults);
      case History(entries) =>
        assert job.rows[..|job.rows|] == job.rows;
        forall i | 0 <= i < |job.rows|
          ensures Converted(job, job.rows[i]).Keys == job.columns && RowArrives(job, job.rows[i], Converted(job, job.rows[i]))
        {
          ConvertedByColumn(job, job.rows[i]);
        }
    }
  }

  lemma EntryOfRow(job: Job, r: Row, k: Key)
    requires job.key.Some? && r in job.rows && IsKeyOf(k, job.key.value, r)
    ensures Entry(k, Converted(job, r)) in Entries(job)
  {
    KeyIsUnique(job.key.value, r, k);
    var i :| 0 <= i < |job.rows| && job.rows[i] == r;
    assert Entries(job)[i] == Entry(k, Converted(job, r));
  }

  lemma RowOfEntry(job: Job, e: Entry) returns (r: Row)
    requires job.key.Some? && e in Entries(job)
    ensures r in job.rows && IsKeyOf(e.key, job.key.value, r)
  {
    var i :| 0 <= i < |Entries(job)| && Entries(job)[i] == e;
    r := job.rows[i];
    KeyIsUnique(job.key.value, r, e.key);
  }

  lemma KeyedHolds(job: Job, rows: map<Key, Row>, rows': map<Key, Row>, defaults: Row)
    requires job.key.Some? && Holds(rows', rows, Entries(job), defaults)
    ensures KeyedArrives(job, job.key.value, rows, rows', defaults)
  {
    var key := job.key.value;
    hide Converted, RowArrives, OwnColumnsStay, IsKeyOf, Entries;
    forall r, k | r in job.rows && IsKeyOf(k, key, r)
      ensures k in rows' && RowArrives(job, r, rows'[k]) && OwnColumnsStay(job, if k in rows then rows[k] else defaults, rows'[k])
    {
      EntryOfRow(job, r, k);
      UpdateArrives(job, r, if k in rows then rows[k] else defaults);
    }
    forall k | forall r :: r in job.rows ==> !IsKeyOf(k, key, r)
      ensures (k in rows' <==> k in rows) && (k in rows ==> rows'[k] == rows[k])
    {
      forall e | e in Entries(job)
        ensures e.key != k
      {
        var r := RowOfEntry(job, e);
      }
    }
  }

  class Target {
    var tables: map<string, Table>
    const defaults: map<string, Row>

    constructor (tables: map<string, Table>, defaults: map<string, Row>)
      ensures this.tables == tables && this.defaults == defaults
    {
      this.tables, this.defaults := tables, defaults;
    }

    function Defaults(name: string): Row {
      DefaultsIn(defaults, name)
    }
  }

  function DefaultsIn(defaults: map<string, Row>, name: string): Row {
    if name in defaults then defaults[name] else map[]
  }

  lemma {:induction false} UpsertInTwo(rows: map<Key, Row>, a: seq<Entry>, b: seq<Entry>, defaults: Row)
    ensures UpsertAll(UpsertAll(rows, a, defaults), b, defaults) == UpsertAll(rows, a + b, defaults)
  {
    if b == [] {
      assert a + b == a;
    } else {
      var n := |b| - 1;
      UpsertInTwo(rows, a, b[..n], defaults);
      assert (a + b)[..|a + b| - 1] == a + b[..n];
    }
  }

  /** One transaction: the rows of a batch, bound and inserted. */
  function Batch(job: Job, table: Table, from: nat, to: nat, defaults: Row): Table
    requires from <= to <= |job.rows|
  {
    match table
    case Keyed(rows) => if to <= |Entries(job)| then Keyed(UpsertAll(rows, Entries(job)[from..to], defaults)) else table
    case History(entries) => History(entries + ConvertedAll(job, job.rows[from..to]))
  }

  lemma BatchAdvances(job: Job, table: Table, from: nat, to: nat, defaults: Row)
    requires Fits(job, table) && from <= to <= |job.rows| && (table.History? ==> table.entries == [])
    ensures Batch(job, Copied(job, table, from, defaults), from, to, defaults) == Copied(job, table, to, defaults)
  {
    match table {
      case Keyed(rows) =>
        UpsertInTwo(rows, Entries(job)[..from], Entries(job)[from..to], defaults);
        assert Entries(job)[..from] + Entries(job)[from..to] == Entries(job)[..to];
      case History(_) =>
        assert ConvertedAll(job, job.rows[..from]) + ConvertedAll(job, job.rows[from..to]) == ConvertedAll(job, job.rows[..to]);
    }
  }

  lemma NothingCopied(job: Job, table: Table, defaults: Row)
    requires Fits(job, table)
    ensures Copied(job, table, 0, defaults) == table
  {
    if table.Keyed? { assert Entries(job)[..0] == []; }
  }

  /** How many transactions copying a table takes: one for each batch, none for a history that is not empty. */
  function Cost(job: Job, table: Table, batch: nat): nat
    requires batch > 0
  {
    if table.History? && table.entries != [] then 0 else Batches(|job.rows|, batch)
  }

  function Batches(rows: nat, batch: nat): nat
    requires batch > 0
  {
    if rows == 0 then 0 else if rows <= batch then 1 else 1 + Batches(rows - batch, batch)
  }

  lemma {:induction false} FewerRows(rows: nat, batch: nat, commits: nat)
    requires batch > 0 && commits < Batches(rows, batch)
    ensures commits * batch < rows
  {
    if commits > 0 {
      FewerRows(rows - batch, batch, commits - 1);
    }
  }

  /** How many rows of a job are copied by a process that lives for so many transactions. */
  function Reached(job: Job, table: Table, batch: nat, commits: nat): (n: nat)
    requires batch > 0
    ensures n <= |job.rows|
  {
    if Cost(job, table, batch) <= commits then |job.rows|
    else if commits * batch <= |job.rows| then commits * batch
    else |job.rows|
  }

  /**
   * _copy_natural_key. commits is the number of transactions before the process is killed. An
   * untouched history stays untouched in later runs; one that a kill left half filled does too.
   */
  method CopyTable(t: Target, job: Job, batch: nat, commits: nat) returns (killed: bool, left: nat)
    requires job.name in t.tables && Fits(job, t.tables[job.name]) && batch > 0
    modifies t
    ensures var table0, d := old(t.tables)[job.name], t.Defaults(job.name);
      && t.tables == old(t.tables)[job.name := Copied(job, table0, Reached(job, table0, batch, commits), d)]
      && (killed <==> commits < Cost(job, table0, batch))
      && (!killed ==> left == commits - Cost(job, table0, batch))
      && (killed ==> Reached(job, table0, batch, commits) == commits * batch < |job.rows|)
  {
    hide Copied, Batch, UniqueKeys;
    ghost var table0, d := t.tables[job.name], t.Defaults(job.name);
    NothingCopied(job, table0, d);
    if commits < Cost(job, table0, batch) { FewerRows(|job.rows|, batch, commits); }
    killed, left := false, commits;
    if t.tables[job.name].History? && t.tables[job.name].entries != [] {
      StaysAsItIs(job, table0, d);
      return;
    }
    var at := 0;
    ghost var used: nat := 0;
    while at < |job.rows|
      invariant at <= |job.rows| && left == commits - used
      invariant t.tables == old(t.tables)[job.name := Copied(job, table0, at, d)]
      invariant used <= commits && used + Batches(|job.rows| - at, batch) == Cost(job, table0, batch)
      invariant at < |job.rows| ==> at == used * batch
    {
      if left == 0 { killed := true; return; }
      var end := if at + batch < |job.rows| then at + batch else |job.rows|;
      BatchAdvances(job, table0, at, end, d);
      t.tables := t.tables[job.name := Batch(job, t.tables[job.name], at, end, t.Defaults(job.name))];
      assert (used + 1) * batch == used * batch + batch;
      left, used, at := left - 1, used + 1, end;
    }
  }

  lemma StaysAsItIs(job: Job, table: Table, defaults: Row)
    requires table.History? && table.entries != []
    ensures Copied(job, table, |job.rows|, defaults) == table
  {
  }

  // ------------------------------------------------------------------ one run

  datatype Result = Refused | Killed | Done

  ghost predicate DistinctNames(jobs: seq<Job>) {
    forall i, j :: 0 <= i < j < |jobs| ==> jobs[i].name != jobs[j].name
  }

  ghost predicate AllFit(jobs: seq<Job>, tables: map<string, Table>) {
    forall job :: job in jobs ==> job.name in tables && Fits(job, tables[job.name])
  }

  /** What a run may have done to the table of a job, and what it has done if it went through. */
  ghost predicate Between(job: Job, old': Table, new': Table, defaults: Row) {
    exists n :: 0 <= n <= |job.rows| && new' == Copied(job, old', n, defaults)
  }

  /** The scan over every row of every table, before anything is written. */
  method ScanAll(jobs: seq<Job>, parses: Parser) returns (ok: bool)
    ensures ok <==> forall job :: job in jobs ==> JobOk(parses, job)
  {
    for i := 0 to |jobs|
      invariant forall k :: 0 <= k < i ==> JobOk(parses, jobs[k])
    {
      for r := 0 to |jobs[i].rows|
        invariant forall k :: 0 <= k < r ==> RowOk(parses, jobs[i], jobs[i].rows[k])
      {
        if !RowOk(parses, jobs[i], jobs[i].rows[r]) {
          assert jobs[i].rows[r] in jobs[i].rows && jobs[i] in jobs;
          return false;
        }
      }
    }
    return true;
  }

  /** The tables as a run leaves them that is killed after so many transactions, and whether it went through. */
  function After(jobs: seq<Job>, tables: map<string, Table>, defaults: map<string, Row>, batch: nat, commits: nat): (map<string, Table>, bool)
    requires batch > 0
  {
    if jobs == [] then (tables, true)
    else
      var job := jobs[0];
      if job.name !in tables then (tables, false)
      else
        var table := tables[job.name];
        var tables' := tables[job.name := Copied(job, table, Reached(job, table, batch, commits), DefaultsIn(defaults, job.name))];
        if commits < Cost(job, table, batch) then (tables', false)
        else After(jobs[1..], tables', defaults, batch, commits - Cost(job, table, batch))
  }

  /** A history after a run that went through: whole exactly if it was empty or whole before. */
  predicate HistoryDone(job: Job, table: Table, table': Table) {
    && table.History? && table'.History?
    && (table'.entries == ConvertedAll(job, job.rows) <==> table.entries == [] || table.entries == ConvertedAll(job, job.rows))
  }

  /**
   * migrate_sql after the column resolution. One bad boolean or timestamp anywhere leaves every
   * table untouched; otherwise each table is copied, in order, as far as the process lives.
   */
  method Migrate(t: Target, jobs: seq<Job>, parses: Parser, batch: nat, commits: nat) returns (result: Result)
    requires DistinctNames(jobs) && AllFit(jobs, t.tables) && batch > 0
    modifies t
    ensures result.Refused? <==> exists job, r, c :: job in jobs && r in job.rows && BadValue(parses, job, r, c)
    ensures result.Refused? <==> exists job :: job in jobs && !JobOk(parses, job)
    ensures result.Refused? ==> t.tables == old(t.tables)
    ensures !result.Refused? ==> (t.tables, result.Done?) == After(jobs, old(t.tables), t.defaults, batch, commits)
    ensures t.tables.Keys == old(t.tables).Keys && AllFit(jobs, t.tables)
    ensures forall job :: job in jobs ==> Between(job, old(t.tables)[job.name], t.tables[job.name], t.Defaults(job.name))
    ensures result.Done? ==> forall job :: job in jobs ==>
      t.tables[job.name] == Copied(job, old(t.tables)[job.name], |job.rows|, t.Defaults(job.name))
    ensures result.Done? ==> forall job :: job in jobs && job.key.None? ==>
      HistoryDone(job, old(t.tables)[job.name], t.tables[job.name])
    ensures result.Done? ==> forall job :: job in jobs ==>
      TableArrives(job, old(t.tables)[job.name], t.tables[job.name], t.Defaults(job.name))
    ensures forall name :: name in t.tables && (forall job :: job in jobs ==> job.name != name) ==>
      t.tables[name] == old(t.tables)[name]
  {
    hide Copied, Fits, JobOk, Cost, Reached, HistoryDone, After, Between, SoFar, AllFit, TableArrives;
    ghost var tables0 := t.tables;
    AllArrive(t, jobs, tables0);
    NobodyStarted(t, jobs, tables0);
    BadValuesRefuse(jobs, parses);
    var ok := ScanAll(jobs, parses);
    if !ok { return Refused; }
    var left: nat := commits;
    SoFarNothing(jobs, tables0, t.defaults);
    for i := 0 to |jobs|
      invariant SoFar(jobs, tables0, t.tables, t.defaults, i)
      invariant After(jobs[i..], t.tables, t.defaults, batch, left) == After(jobs, tables0, t.defaults, batch, commits)
    {
      var killed;
      ghost var before := t.tables;
      NextJob(jobs, tables0, before, t.defaults, batch, left, i);
      killed, left := CopyTable(t, jobs[i], batch, left);
      if killed { return Killed; }
    }
    WentThrough(jobs, tables0, t.tables, t.defaults, batch, left);
    return Done;
  }

  /** The first jobs are finished, the others untouched, and so is every other table. */
  ghost predicate SoFar(jobs: seq<Job>, tables0: map<string, Table>, tables: map<string, Table>, defaults: map<string, Row>, i: nat) {
    && i <= |jobs| && AllFit(jobs, tables0) && AllFit(jobs, tables) && tables.Keys == tables0.Keys
    && (forall k :: 0 <= k < i ==>
          tables[jobs[k].name] == Copied(jobs[k], tables0[jobs[k].name], |jobs[k].rows|, DefaultsIn(defaults, jobs[k].name)))
    && (forall k :: i <= k < |jobs| ==> tables[jobs[k].name] == tables0[jobs[k].name])
    && (forall name :: name in tables && (forall job :: job in jobs ==> job.name != name) ==> tables[name] == tables0[name])
  }

  lemma SoFarNothing(jobs: seq<Job>, tables: map<string, Table>, defaults: map<string, Row>)
    requires AllFit(jobs, tables)
    ensures SoFar(jobs, tables, tables, defaults, 0)
    ensures jobs[0..] == jobs
  {
  }

  /** What is true of the tables however far the run came. */
  ghost predicate Framed(jobs: seq<Job>, tables0: map<string, Table>, tables: map<string, Table>, defaults: map<string, Row>) {
    && AllFit(jobs, tables0) && AllFit(jobs, tables) && tables.Keys == tables0.Keys
    && (forall job :: job in jobs ==> Between(job, tables0[job.name], tables[job.name], DefaultsIn(defaults, job.name)))
    && (forall name :: name in tables && (forall job :: job in jobs ==> job.name != name) ==> tables[name] == tables0[name])
  }

  /** One job: it fits; with enough transactions left the run goes on behind it, else it ends in it. */
  lemma NextJob(jobs: seq<Job>, tables0: map<string, Table>, tables: map<string, Table>, defaults: map<string, Row>,
                batch: nat, left: nat, i: nat)
    requires DistinctNames(jobs) && SoFar(jobs, tables0, tables, defaults, i) && i < |jobs| && batch > 0
    ensures jobs[i].name in tables && Fits(jobs[i], tables[jobs[i].name])
    ensures var job, table := jobs[i], tables[jobs[i].name];
      var cost := Cost(job, table, batch);
      var tables' := tables[job.name := Copied(job, table, Reached(job, table, batch, left), DefaultsIn(defaults, job.name))];
      if left < cost then Framed(jobs, tables0, tables', defaults) && After(jobs[i..], tables, defaults, batch, left) == (tables', false)
      else
        && SoFar(jobs, tables0, tables', defaults, i + 1)
        && After(jobs[i + 1..], tables', defaults, batch, left - cost) == After(jobs[i..], tables, defaults, batch, left)
  {
    var job, table := jobs[i], tables[jobs[i].name];
    var n := Reached(job, table, batch, left);
    var tables' := tables[job.name := Copied(job, table, n, DefaultsIn(defaults, job.name))];
    assert job in jobs;
    CopiedFits(job, table, n, DefaultsIn(defaults, job.name));
    AfterOne(jobs, tables, defaults, batch, left, i);
    hide Copied, Fits, After, Cost, Reached, DefaultsIn;
    OthersStillFit(jobs, tables, i, tables'[job.name]);
    if left < Cost(job, table, batch) {
      KilledAt(jobs, tables0, tables', defaults, i, n);
    } else {
      ReachedAll(job, table, batch, left);
      SoFarAdvances(jobs, tables0, tables, defaults, i);
    }
  }

  lemma OthersStillFit(jobs: seq<Job>, tables: map<string, Table>, i: nat, table: Table)
    requires DistinctNames(jobs) && AllFit(jobs, tables) && i < |jobs| && Fits(jobs[i], table)
    ensures AllFit(jobs, tables[jobs[i].name := table])
  {
    hide Fits;
  }

  lemma SoFarAdvances(jobs: seq<Job>, tables0: map<string, Table>, tables: map<string, Table>, defaults: map<string, Row>, i: nat)
    requires DistinctNames(jobs) && SoFar(jobs, tables0, tables, defaults, i) && i < |jobs| && jobs[i].name in tables
    requires var done := Copied(jobs[i], tables[jobs[i].name], |jobs[i].rows|, DefaultsIn(defaults, jobs[i].name));
      AllFit(jobs, tables[jobs[i].name := done])
    ensures var done := Copied(jobs[i], tables[jobs[i].name], |jobs[i].rows|, DefaultsIn(defaults, jobs[i].name));
      SoFar(jobs, tables0, tables[jobs[i].name := done], defaults, i + 1)
  {
    hide Fits, Copied, DefaultsIn, AllFit;
    assert jobs[i] in jobs;
  }

  lemma AfterOne(jobs: seq<Job>, tables: map<string, Table>, defaults: map<string, Row>, batch: nat, left: nat, i: nat)
    requires batch > 0 && i < |jobs| && jobs[i].name in tables
    ensures var job, table := jobs[i], tables[jobs[i].name];
      var tables' := tables[job.name := Copied(job, table, Reached(job, table, batch, left), DefaultsIn(defaults, job.name))];
      After(jobs[i..], tables, defaults, batch, left) ==
        if left < Cost(job, table, batch) then (tables', false)
        else After(jobs[i + 1..], tables', defaults, batch, left - Cost(job, table, batch))
  {
    hide Copied, Reached, Cost, DefaultsIn;
    assert jobs[i..][0] == jobs[i] && jobs[i..][1..] == jobs[i + 1..];
  }

  /** Earlier jobs are finished, the one the process died in has some rows, the rest is untouched. */
  lemma KilledAt(jobs: seq<Job>, tables0: map<string, Table>, tables: map<string, Table>, defaults: map<string, Row>, i: nat, n: nat)
    requires AllFit(jobs, tables0) && AllFit(jobs, tables) && tables.Keys == tables0.Keys && i < |jobs| && n <= |jobs[i].rows|
    requires forall k :: 0 <= k < i ==>
      tables[jobs[k].name] == Copied(jobs[k], tables0[jobs[k].name], |jobs[k].rows|, DefaultsIn(defaults, jobs[k].name))
    requires tables[jobs[i].name] == Copied(jobs[i], tables0[jobs[i].name], n, DefaultsIn(defaults, jobs[i].name))
    requires forall k :: i < k < |jobs| ==> tables[jobs[k].name] == tables0[jobs[k].name]
    requires forall name :: name in tables && (forall job :: job in jobs ==> job.name != name) ==> tables[name] == tables0[name]
    ensures Framed(jobs, tables0, tables, defaults)
  {
    hide Copied, Fits;
    forall k | 0 <= k < |jobs|
      ensures Between(jobs[k], tables0[jobs[k].name], tables[jobs[k].name], DefaultsIn(defaults, jobs[k].name))
    {
      NothingCopied(jobs[k], tables0[jobs[k].name], DefaultsIn(defaults, jobs[k].name));
    }
  }

  lemma WentThrough(jobs: seq<Job>, tables0: map<string, Table>, tables: map<string, Table>, defaults: map<string, Row>,
                    batch: nat, left: nat)
    requires SoFar(jobs, tables0, tables, defaults, |jobs|) && batch > 0
    ensures Framed(jobs, tables0, tables, defaults)
    ensures forall job :: job in jobs ==>
      tables[job.name] == Copied(job, tables0[job.name], |job.rows|, DefaultsIn(defaults, job.name))
    ensures forall job :: job in jobs && job.key.None? ==> HistoryDone(job, tables0[job.name], tables[job.name])
    ensures After(jobs[|jobs|..], tables, defaults, batch, left) == (tables, true)
  {
    hide Copied, HistoryDone, Fits;
    forall job | job in jobs && job.key.None?
      ensures HistoryDone(job, tables0[job.name], tables[job.name])
    {
      HistoryIsDone(job, tables0[job.name], DefaultsIn(defaults, job.name));
    }
  }

  lemma ReachedAll(job: Job, table: Table, batch: nat, commits: nat)
    requires batch > 0 && commits >= Cost(job, table, batch)
    ensures Reached(job, table, batch, commits) == |job.rows|
  {
  }

  lemma HistoryIsDone(job: Job, table: Table, defaults: Row)
    requires Fits(job, table) && job.key.None?
    ensures HistoryDone(job, table, Copied(job, table, |job.rows|, defaults))
  {
    assert job.rows[..|job.rows|] == job.rows;
  }

  lemma BadValuesRefuse(jobs: seq<Job>, parses: Parser)
    ensures (exists job :: job in jobs && !JobOk(parses, job)) <==>
      exists job, r, c :: job in jobs && r in job.rows && BadValue(parses, job, r, c)
  {
    hide JobOk, BadValue;
    forall job
      ensures JobOk(parses, job) <==> forall r, c :: r in job.rows ==> !BadValue(parses, job, r, c)
    {
      ScannedByColumn(parses, job);
    }
  }

  lemma AllArrive(t: Target, jobs: seq<Job>, tables: map<string, Table>)
    requires AllFit(jobs, tables)
    ensures forall job :: job in jobs ==>
      job.name in tables && TableArrives(job, tables[job.name], Copied(job, tables[job.name], |job.rows|, t.Defaults(job.name)), t.Defaults(job.name))
  {
    hide Fits, Copied, TableArrives;
    forall job | job in jobs
      ensures TableArrives(job, tables[job.name], Copied(job, tables[job.name], |job.rows|, t.Defaults(job.name)), t.Defaults(job.name))
    {
      CopiedArrives(job, tables[job.name], t.Defaults(job.name));
    }
  }

  lemma NobodyStarted(t: Target, jobs: seq<Job>, tables: map<string, Table>)
    requires AllFit(jobs, tables)
    ensures forall job :: job in jobs ==> Between(job, tables[job.name], tables[job.name], t.Defaults(job.name))
  {
    forall job | job in jobs
      ensures Between(job, tables[job.name], tables[job.name], t.Defaults(job.name))
    {
      NothingCopied(job, tables[job.name], t.Defaults(job.name));
    }
  }

  lemma CopiedFits(job: Job, table: Table, n: nat, defaults: Row)
    requires n <= |job.rows| && Fits(job, table)
    ensures Fits(job, Copied(job, table, n, defaults))
  {
  }

  // ------------------------------------------------------------ repeated runs

  /**
   * Where any number of runs, killed or not, can have brought a table: every key untouched or
   * finished; a history that had entries unchanged, an empty one filled with a prefix of the
   * source, so never with a duplicate.
   */
  ghost predicate Along(job: Job, a: Table, b: Table, defaults: Row) {
    match (a, b)
    case (Keyed(x), Keyed(y)) => Partly(y, x, Entries(job), defaults)
    case (History(x), History(y)) =>
      if x != [] then y == x else exists n :: 0 <= n <= |job.rows| && y == ConvertedAll(job, job.rows[..n])
    case _ => false
  }

  lemma CopiedIsAlong(job: Job, table: Table, n: nat, defaults: Row)
    requires Fits(job, table) && n <= |job.rows|
    ensures Along(job, table, Copied(job, table, n, defaults), defaults)
  {
    if table.Keyed? { PartlyAfterPrefix(table.rows, Entries(job), n, defaults); }
  }

  lemma AlongThenCopied(job: Job, a: Table, b: Table, n: nat, defaults: Row)
    requires Fits(job, a) && Along(job, a, b, defaults) && n <= |job.rows|
    ensures Along(job, a, Copied(job, b, n, defaults), defaults)
    ensures a.Keyed? ==> Copied(job, b, |job.rows|, defaults) == Copied(job, a, |job.rows|, defaults)
    ensures b.History? && b.entries != [] ==> Copied(job, b, n, defaults) == b
  {
    if a.Keyed? {
      PartlyAfterPrefix(b.rows, Entries(job), n, defaults);
      PartlyTransitive(a.rows, b.rows, UpsertAll(b.rows, Entries(job)[..n], defaults), Entries(job), defaults);
      assert Entries(job)[..|job.rows|] == Entries(job);
      PartlyMeets(b.rows, a.rows, Entries(job), defaults);
    }
  }

  lemma NothingNew(again: map<Key, Row>, done: map<Key, Row>, es: seq<Entry>, defaults: Row)
    requires Holds(again, done, es, defaults)
    requires forall e :: e in es ==> e.key in done && Updated(done, e, defaults) == done[e.key]
    ensures again == done
  {
    hide Updated;
    forall k
      ensures k in again <==> k in done
      ensures k in done ==> again[k] == done[k]
    {
      if e :| e in es && e.key == k { }
    }
  }

  lemma AlreadyUpdated(done: map<Key, Row>, rows: map<Key, Row>, es: seq<Entry>, e: Entry, defaults: Row)
    requires Holds(done, rows, es, defaults) && e in es
    ensures e.key in done && Updated(done, e, defaults) == done[e.key]
  {
    UpdateTwice(if e.key in rows then rows[e.key] else defaults, e.row);
  }

  lemma WrittenAgain(rows: map<Key, Row>, es: seq<Entry>, n: nat, defaults: Row)
    requires UniqueKeys(es) && n <= |es|
    ensures UpsertAll(UpsertAll(rows, es, defaults), es[..n], defaults) == UpsertAll(rows, es, defaults)
  {
    var done := UpsertAll(rows, es, defaults);
    UpsertAllHolds(rows, es, defaults);
    UpsertAllHolds(done, es[..n], defaults);
    hide UpsertAll, UniqueKeys, Holds, Updated;
    forall e | e in es[..n]
      ensures e.key in done && Updated(done, e, defaults) == done[e.key]
    {
      assert e in es;
      AlreadyUpdated(done, rows, es, e, defaults);
    }
    NothingNew(UpsertAll(done, es[..n], defaults), done, es[..n], defaults);
  }

  /** Once finished, a keyed table is the same after any further run, killed or not. */
  lemma FinishedStays(job: Job, a: Table, n: nat, defaults: Row)
    requires Fits(job, a) && a.Keyed? && n <= |job.rows|
    ensures var done := Copied(job, a, |job.rows|, defaults); Copied(job, done, n, defaults) == done
  {
    hide UpsertAll;
    assert Entries(job)[..|job.rows|] == Entries(job);
    WrittenAgain(a.rows, Entries(job), n, defaults);
  }

  /**
   * A history the tool itself has filled so far: it is whole exactly if it has as many entries as
   * the source, and a run that goes through makes it whole exactly if it is empty or whole already.
   */
  lemma HistoryByCount(job: Job, a: Table, b: Table, defaults: Row)
    requires Fits(job, a) && a == History([]) && Along(job, a, b, defaults)
    ensures b == History(ConvertedAll(job, job.rows)) <==> |b.entries| == |job.rows|
    ensures Copied(job, b, |job.rows|, defaults) == History(ConvertedAll(job, job.rows)) <==> |b.entries| in {0, |job.rows|}
  {
    var n :| 0 <= n <= |job.rows| && b.entries == ConvertedAll(job, job.rows[..n]);
    assert job.rows[..|job.rows|] == job.rows;
  }

  /**
   * Any number of runs. found holds the tables each run found. Once a run went through, every
   * keyed table is and stays complete; a history that was empty at first is and stays complete
   * exactly if that run found it empty or with as many entries as the source has rows.
   */
  method MigrateRepeatedly(t: Target, jobs: seq<Job>, parses: Parser, batch: nat, lives: seq<nat>)
    returns (results: seq<Result>, ghost found: seq<map<string, Table>>)
    requires DistinctNames(jobs) && AllFit(jobs, t.tables) && batch > 0
    modifies t
    ensures |results| == |found| == |lives| && t.tables.Keys == old(t.tables).Keys
    ensures forall i :: 0 <= i < |found| ==> found[i].Keys == old(t.tables).Keys
    ensures forall job :: job in jobs ==> Along(job, old(t.tables)[job.name], t.tables[job.name], t.Defaults(job.name))
    ensures Done in results ==> forall job :: job in jobs && job.key.Some? ==>
      t.tables[job.name] == Copied(job, old(t.tables)[job.name], |job.rows|, t.Defaults(job.name))
    ensures Done in results ==> forall job :: job in jobs && job.key.Some? ==>
      TableArrives(job, old(t.tables)[job.name], t.tables[job.name], t.Defaults(job.name))
    ensures forall i, job :: 0 <= i < |results| && results[i].Done? && job in jobs && old(t.tables)[job.name] == History([]) ==>
      && found[i][job.name].History?
      && (t.tables[job.name] == History(ConvertedAll(job, job.rows)) <==> |found[i][job.name].entries| in {0, |job.rows|})
  {
    hide Copied, Along, JobOk, Fits, Entries, After, HistoryDone, Between, TableArrives;
    ghost var tables0 := t.tables;
    AllArrive(t, jobs, tables0);
    results, found := [], [];
    EverythingStarts(t, jobs, tables0);
    for i := 0 to |lives|
      invariant |results| == |found| == i && t.tables.Keys == tables0.Keys && AllFit(jobs, t.tables)
      invariant forall k :: 0 <= k < i ==> found[k].Keys == tables0.Keys
      invariant forall job :: job in jobs ==> Along(job, tables0[job.name], t.tables[job.name], t.Defaults(job.name))
      invariant Done in results ==> forall job :: job in jobs && job.key.Some? ==>
        t.tables[job.name] == Copied(job, tables0[job.name], |job.rows|, t.Defaults(job.name))
      invariant forall k, job :: 0 <= k < i && results[k].Done? && job in jobs && tables0[job.name] == History([]) ==>
        HistoryDecided(job, found[k][job.name], t.tables[job.name])
    {
      ghost var before := t.tables;
      var result := Migrate(t, jobs, parses, batch, lives[i]);
      forall job | job in jobs
        ensures Along(job, tables0[job.name], t.tables[job.name], t.Defaults(job.name))
        ensures job.key.Some? && (result.Done? || Done in results) ==>
          t.tables[job.name] == Copied(job, tables0[job.name], |job.rows|, t.Defaults(job.name))
        ensures tables0[job.name] == History([]) ==>
          && (result.Done? ==> HistoryDecided(job, before[job.name], t.tables[job.name]))
          && forall k :: 0 <= k < i && results[k].Done? ==> HistoryDecided(job, found[k][job.name], t.tables[job.name])
      {
        OneMoreRun(job, tables0[job.name], before[job.name], t.tables[job.name], t.Defaults(job.name));
        if tables0[job.name] == History([]) {
          HistoryInOneMoreRun(job, before[job.name], t.tables[job.name], result.Done?, t.Defaults(job.name));
          forall k | 0 <= k < i && results[k].Done?
            ensures HistoryDecided(job, found[k][job.name], t.tables[job.name])
          {
            DecidedStays(job, found[k][job.name], before[job.name], t.tables[job.name], t.Defaults(job.name));
          }
        }
      }
      results, found := results + [result], found + [before];
    }
  }

  /** What a run that found a table and went through has made of it, for good. */
  predicate HistoryDecided(job: Job, found: Table, table: Table) {
    && found.History? && table.History? && (table.entries == [] ==> job.rows == [])
    && (table == History(ConvertedAll(job, job.rows)) <==> |found.entries| in {0, |job.rows|})
  }

  lemma HistoryInOneMoreRun(job: Job, b: Table, c: Table, done: bool, defaults: Row)
    requires Fits(job, b) && Along(job, History([]), b, defaults)
    requires done ==> c == Copied(job, b, |job.rows|, defaults)
    ensures done ==> HistoryDecided(job, b, c)
  {
    HistoryByCount(job, History([]), b, defaults);
  }

  lemma DecidedStays(job: Job, found: Table, b: Table, c: Table, defaults: Row)
    requires HistoryDecided(job, found, b) && Between(job, b, c, defaults)
    ensures HistoryDecided(job, found, c)
  {
  }

  lemma EverythingStarts(t: Target, jobs: seq<Job>, tables: map<string, Table>)
    requires AllFit(jobs, tables)
    ensures forall job :: job in jobs ==> Along(job, tables[job.name], tables[job.name], t.Defaults(job.name))
  {
    forall job | job in jobs
      ensures Along(job, tables[job.name], tables[job.name], t.Defaults(job.name))
    {
      NothingCopied(job, tables[job.name], t.Defaults(job.name));
      CopiedIsAlong(job, tables[job.name], 0, t.Defaults(job.name));
    }
  }

  lemma OneMoreRun(job: Job, a: Table, b: Table, c: Table, defaults: Row)
    requires Fits(job, a) && Along(job, a, b, defaults) && Between(job, b, c, defaults)
    ensures Along(job, a, c, defaults)
    ensures job.key.Some? && (c == Copied(job, b, |job.rows|, defaults) || b == Copied(job, a, |job.rows|, defaults)) ==>
      c == Copied(job, a, |job.rows|, defaults)
  {
    hide Along, Copied;
    var n :| 0 <= n <= |job.rows| && c == Copied(job, b, n, defaults);
    AlongThenCopied(job, a, b, n, defaults);
    if job.key.Some? { FinishedStays(job, a, n, defaults); }
  }

  /**
   * A history is not completed by a rerun: two entries, one per transaction, a kill after the
   * first. The rerun goes through and leaves one entry of two.
   */
  method HistoryStaysHalf(t: Target, job: Job, parses: Parser) returns (first: Result, second: Result)
    requires job.key.None? && |job.rows| == 2 && JobOk(parses, job)
    requires job.name in t.tables && t.tables[job.name] == History([])
    modifies t
    ensures first == Killed && second == Done
    ensures job.name in t.tables && t.tables[job.name] == History([Converted(job, job.rows[0])])
  {
    var jobs := [job];
    assert After(jobs, t.tables, t.defaults, 1, 1) ==
      (t.tables[job.name := History(ConvertedAll(job, job.rows[..1]))], false) by { CostOfTwo(); }
    assert ConvertedAll(job, job.rows[..1]) == [Converted(job, job.rows[0])];
    first := Migrate(t, jobs, parses, 1, 1);
    assert jobs[1..] == [];
    StaysAsItIs(job, t.tables[job.name], t.Defaults(job.name));
    assert t.tables[job.name := t.tables[job.name]] == t.tables;
    assert After(jobs, t.tables, t.defaults, 1, 0) == (t.tables, true);
    second := Migrate(t, jobs, parses, 1, 0);
  }

  lemma CostOfTwo()
    ensures Batches(2, 1) == 2
  {
    assert Batches(1, 1) == 1;
  }
}
