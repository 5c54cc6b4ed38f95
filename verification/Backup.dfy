/**
 * What an apply run leaves outside the stores: the backup set it makes before its receipt,
 * and write-ahead logs. From these a later run decides whether it may start at all.
 */
module Backup {
  import opened Basics
  import opened CleanupModel
  import opened EdgeIntent

  type Name = nat

  datatype Content =
    | GraphContent(graph: Graph)
    | DocContent(docs: Docs)
    | VectorContent(vectors: Vectors)
    | RegistryContent(registry: Registry)

  function ContentOf(s: Stores, db: Db): Content {
    match db
    case GraphDb => GraphContent(s.graph)
    case DocDb => DocContent(s.docs)
    case VectorDb => VectorContent(s.vectors)
    case RegistryDb => RegistryContent(s.registry)
  }

  type Files = map<Db, Content>

  function FilesOf(s: Stores): Files {
    map db | db in ALL_DBS :: ContentOf(s, db)
  }

  /** A copy in the making: begun, complete, and with its mode set to 0600. */
  datatype Copy = Partial | Copied(content: Content) | Private(content: Content)

  type Copies = map<Db, Copy>

  /** The receipt binds the edge intent and the hashes of the four copies. */
  datatype Receipt = Receipt(intent: Intent, files: Files)

  /** _load_receipt on the backup directory: all four copies are there, private and unchanged. */
  predicate HoldsSet(copies: Copies, files: Files) {
    forall db :: db in ALL_DBS ==> db in copies && db in files && copies[db] == Private(files[db])
  }

  /** The backup directory a command names, and whether it lies in the run directory or around it. */
  datatype Command = Command(backup: Name, nested: bool)

  /** What a run finds outside the stores. */
  datatype Found = Found(receipt: Option<Receipt>, backups: map<Name, Copies>, wal: set<Db>)

  /** require_empty_wal, the first test of _backup_receipt, and _load_receipt. */
  predicate Blocked(at: Found, cmd: Command) {
    || at.wal != {}
    || (at.receipt.None? && (cmd.nested || cmd.backup in at.backups))
    || (at.receipt.Some? && !(cmd.backup in at.backups && HoldsSet(at.backups[cmd.backup], at.receipt.value.files)))
  }

  /** Every file of the set is the private copy of the store of its name, and the receipt lists just that. */
  predicate BackedUp(copies: Copies, files: Files, s: Stores) {
    && copies == map[GraphDb := Private(GraphContent(s.graph)), DocDb := Private(DocContent(s.docs)),
                     VectorDb := Private(VectorContent(s.vectors)), RegistryDb := Private(RegistryContent(s.registry))]
    && files == map[GraphDb := GraphContent(s.graph), DocDb := DocContent(s.docs),
                    VectorDb := VectorContent(s.vectors), RegistryDb := RegistryContent(s.registry)]
  }

  // ------------------------------------------------------------- the backup

  const FILES: seq<Db> := [GraphDb, DocDb, VectorDb, RegistryDb]

  function Rank(db: Db): nat {
    match db
    case GraphDb => 0
    case DocDb => 1
    case VectorDb => 2
    case RegistryDb => 3
  }

  /** mkdir, three steps for each copy, publication. */
  const BACKUP_STEPS: nat := 14

  function CopyAt(content: Content, steps: nat): Copy {
    if steps == 1 then Partial else if steps == 2 then Copied(content) else Private(content)
  }

  /** The set after so many steps on its files. */
  function SetAfter(s: Stores, steps: nat): Copies {
    map db | db in ALL_DBS && 3 * Rank(db) < steps :: CopyAt(ContentOf(s, db), steps - 3 * Rank(db))
  }

  /** The backup directories after so many steps of a backup into one of them. */
  function BackupsAfter(backups: map<Name, Copies>, name: Name, s: Stores, life: nat): map<Name, Copies> {
    if life == 0 then backups
    else if life < BACKUP_STEPS then backups[name := SetAfter(s, life - 1)]
    else backups[name := SetAfter(s, 12)]
  }

  lemma WholeSet(s: Stores)
    ensures HoldsSet(SetAfter(s, 12), FilesOf(s))
  {
  }

  lemma WholeSetIsBackup(s: Stores)
    ensures BackedUp(SetAfter(s, 12), FilesOf(s), s)
  {
    AllDbs();
  }

  lemma EmptySet(s: Stores)
    ensures SetAfter(s, 0) == map[]
  {
  }

  lemma NextStep(s: Stores, db: Db, n: nat)
    requires 3 * Rank(db) <= n < 3 * Rank(db) + 3
    ensures SetAfter(s, n + 1) == SetAfter(s, n)[db := CopyAt(ContentOf(s, db), n + 1 - 3 * Rank(db))]
  {
    AllDbs();
    hide ContentOf;
  }

  lemma Overwrite<K, V>(m: map<K, V>, k: K, v: V, w: V)
    ensures m[k := v][k := w] == m[k := w]
  {
  }

  /** The run directory, the backup directories, and the files whose write-ahead log is not empty. */
  class RunDir {
    var receipt: Option<Receipt>
    var backups: map<Name, Copies>
    var wal: set<Db>

    constructor (backups: map<Name, Copies>)
      ensures At() == Found(None, backups, {})
    {
      this.receipt, this.backups, this.wal := None, backups, {};
    }

    function At(): Found
      reads this
    {
      Found(receipt, backups, wal)
    }

    /** _backup_receipt behind its first test; life is the number of steps before the process is killed. */
    method TakeBackup(name: Name, s: Stores, intent: Intent, life: nat) returns (killed: bool)
      requires receipt.None?
      modifies this
      ensures wal == old(wal)
      ensures killed <==> life < BACKUP_STEPS
      ensures receipt == if killed then None else Some(Receipt(intent, FilesOf(s)))
      ensures backups == BackupsAfter(old(backups), name, s, life)
      ensures !killed ==> name in backups && BackedUp(backups[name], receipt.value.files, s)
    {
      WholeSetIsBackup(s);
      if life == 0 { return true; }
      EmptySet(s);
      hide SetAfter, FilesOf, BackedUp;
      backups := backups[name := map[]];
      killed := false;
      for i := 0 to 4
        invariant receipt.None? && wal == old(wal) && 3 * i < life
        invariant backups == old(backups)[name := SetAfter(s, 3 * i)]
      {
        ghost var spent := if life < 4 + 3 * i then life - 1 else 3 * i + 3;
        Overwrite(old(backups), name, SetAfter(s, 3 * i), SetAfter(s, spent));
        killed := CopyFile(name, s, FILES[i], 3 * i, life - 1 - 3 * i);
        if killed { return; }
      }
      if life == 13 { return true; }
      receipt := Some(Receipt(intent, FilesOf(s)));
    }

    /** backup_sqlite of one file, then its mode. */
    method CopyFile(name: Name, s: Stores, db: Db, at: nat, life: nat) returns (killed: bool)
      requires at == 3 * Rank(db) && name in backups && backups[name] == SetAfter(s, at)
      modifies this`backups
      ensures killed <==> life < 3
      ensures backups == old(backups)[name := SetAfter(s, if killed then at + life else at + 3)]
    {
      NextStep(s, db, at);
      NextStep(s, db, at + 1);
      NextStep(s, db, at + 2);
      hide SetAfter, ContentOf, Rank;
      var before, copies := backups, backups[name];
      killed := true;
      if life == 0 { return; }
      copies := copies[db := Partial];
      backups := before[name := copies];
      if life == 1 { return; }
      copies := copies[db := Copied(ContentOf(s, db))];
      backups := before[name := copies];
      if life == 2 { return; }
      copies := copies[db := Private(ContentOf(s, db))];
      backups := before[name := copies];
      killed := false;
    }

    /** The last connection to close empties the log, unless somebody else has the file open. */
    method Close()
      modifies this`wal
      ensures wal <= old(wal)
    {
      var keep: set<Db> := *;
      wal := wal * keep;
    }

    /** Whatever is done between two runs; the receipt stays. */
    method Operator()
      modifies this`backups, this`wal
    {
      backups := *;
      wal := *;
    }
  }
}
