/** The connection pool: adapters/postgres/internal/connection/conn.go. The class holds the
    table and its critical sections, one method for each stretch of code that runs under the
    mutex. `PoolRuns` interleaves them. */
module Pool {
  import opened Text

  /** A handle, one for each call of sql.Open that succeeds. */
  type Conn = nat

  /** `poolKey` hashes the DSN and is taken to be injective; `nameKey` has its own prefix. */
  datatype Key = DsnKey(dsn: string) | NameKey(name: string)

  type Table = map<Key, Conn>

  function Get(db: Table, key: Key): Option<Conn> { if key in db then Some(db[key]) else None }

  /** `uri` is `GetURI` under the configuration, which does not change. */
  datatype Call = AddDatabase(name: string) | AddUri(alias: string, dsn: string)

  function DsnOf(uri: string -> string, call: Call): string {
    match call case AddDatabase(name) => uri(name) case AddUri(_, dsn) => dsn
  }

  /** The name an `AddURI` call registers. */
  function Alias(call: Call): string
    requires call.AddUri?
  {
    if call.alias == "" then call.dsn else call.alias
  }

  // ----- What the critical sections do to the table -----

  function Lookup(uri: string -> string, db: Table, name: string): Option<Conn> {
    if DsnKey(uri(name)) in db then Some(db[DsnKey(uri(name))]) else Get(db, NameKey(name))
  }

  /** The fast path: a connection that is already there. */
  function Found(uri: string -> string, db: Table, call: Call): Option<Conn> {
    if DsnKey(DsnOf(uri, call)) in db then Some(db[DsnKey(DsnOf(uri, call))])
    else if call.AddUri? then Get(db, NameKey(Alias(call)))
    else None
  }

  /** The table once a new connection for `call` was stored, unless another one was first. */
  function Stored(uri: string -> string, db: Table, call: Call, conn: Conn): Table {
    var key := DsnKey(DsnOf(uri, call));
    if key in db then db
    else if call.AddUri? then db[key := conn][NameKey(Alias(call)) := conn]
    else db[key := conn]
  }

  class SharedPool {
    var DB: Table

    constructor ()
      ensures DB == map[]
    {
      DB := map[];
    }

    method GetDatabaseFromPool(uri: string -> string, name: string) returns (db: Option<Conn>)
      ensures db == Lookup(uri, DB, name)
    {
      db := Get(DB, DsnKey(uri(name)));
      if db == None {
        db := Get(DB, NameKey(name));
      }
    }

    /** The first section of AddDatabaseToPool. */
    method FindDatabase(uri: string -> string, name: string) returns (existing: Option<Conn>)
      ensures existing == Found(uri, DB, AddDatabase(name))
    {
      existing := Get(DB, DsnKey(uri(name)));
    }

    /** The second section of AddDatabaseToPool, entered with a connection just opened. The
        caller closes that one when another is returned. */
    method StoreDatabase(uri: string -> string, name: string, conn: Conn) returns (existing: Option<Conn>)
      modifies this
      ensures DB == Stored(uri, old(DB), AddDatabase(name), conn)
      ensures existing == Get(old(DB), DsnKey(uri(name)))
    {
      var key := DsnKey(uri(name));
      existing := Get(DB, key);
      if existing.Some? {
        return;
      }
      DB := DB[key := conn];
    }

    /** The first section of AddURI. */
    method FindUri(ghost uri: string -> string, name: string, dsn: string) returns (existing: Option<Conn>)
      ensures existing == Found(uri, DB, AddUri(name, dsn))
    {
      var alias := if name == "" then dsn else name;
      existing := Get(DB, DsnKey(dsn));
      if existing.Some? {
        return;
      }
      existing := Get(DB, NameKey(alias));
    }

    /** The second section of AddURI. */
    method StoreUri(ghost uri: string -> string, name: string, dsn: string, conn: Conn) returns (existing: Option<Conn>)
      modifies this
      ensures DB == Stored(uri, old(DB), AddUri(name, dsn), conn)
      ensures existing == Get(old(DB), DsnKey(dsn))
    {
      var alias := if name == "" then dsn else name;
      existing := Get(DB, DsnKey(dsn));
      if existing.Some? {
        return;
      }
      DB := DB[DsnKey(dsn) := conn];
      DB := DB[NameKey(alias) := conn];
    }
  }
}
