/** The two adapters seen through the one port the engine uses: Seen, MarkSeen
    and Record. */
module Backend {
  import opened Core
  import opened Keys
  import opened StoreState
  import opened SqlStore

  /** A store together with what would survive the process: the contents of the
      file at the store path, or the database itself. */
  datatype Store =
    | InFile(mem: State, path: Option<Content>)
    | InSql(db: Db)

  predicate Marked(s: Store, t: Triple) {
    match s
    case InFile(mem, _) => IsSeen(mem, t)
    case InSql(db) => t in db.seen
  }

  /** What a mark is kept under: the file's flattened key, or the database's
      primary key. */
  datatype Row = Flat(key: string) | Primary(triple: Triple)

  function RowOf(flat: bool, t: Triple): Row { if flat then Flat(KeyOf(t)) else Primary(t) }

  predicate HasRow(s: Store, r: Row) {
    match s
    case InFile(mem, _) => r.Flat? && Has(mem, r.key)
    case InSql(db) => r.Primary? && r.triple in db.seen
  }

  /** Two triples share their mark exactly when they share their row. */
  lemma MarkIsRow(s: Store, t: Triple)
    ensures Marked(s, t) <==> HasRow(s, RowOf(s.InFile?, t))
  {
  }

  /** The answer to Seen; only the database can fail to give one. */
  function Lookup(s: Store, t: Triple, unreachable: bool): Option<bool> {
    if s.InSql? && unreachable then None else Some(Marked(s, t))
  }

  /** Whether a write takes effect in the running process: always in the file
      store's memory, in the database when it commits. */
  predicate Lands(flat: bool, ok: bool) { flat || ok }

  /** One write. The file store changes memory first and keeps that change when
      the save fails; the database changes on success only. */
  function Do(s: Store, op: StoreOp, ok: bool): Store {
    if op.Nothing? then s else
    match s
    case InFile(mem, path) =>
      var after := Apply(mem, op);
      InFile(after, if ok then Some(Encode(after)) else path)
    case InSql(db) => if ok then InSql(SqlApply(db, op)) else s
  }

  /** PurgeSource. A file purge that finds nothing writes nothing. */
  function PurgeStore(s: Store, source: string, ok: bool): Store {
    match s
    case InFile(mem, path) =>
      var after := Purged(mem, source);
      InFile(after, if PurgeCount(mem, source) > 0 && ok then Some(Encode(after)) else path)
    case InSql(db) => if ok then InSql(SqlPurged(db, source)) else s
  }

  /** The number of rows a purge reports. */
  function PurgeRows(s: Store, source: string): nat {
    match s
    case InFile(mem, _) => PurgeCount(mem, source)
    case InSql(db) => SqlPurgeCount(db, source)
  }

  /** Stopping the process and opening the store again. */
  function Reopen(s: Store): Store
    requires s.InFile? ==> Whole(s.path)
  {
    match s
    case InFile(_, path) => InFile(Load(path), path)
    case InSql(_) => s
  }
}
