/** The prepared-statement cache: adapters/postgres/postgres.go, `Stmt.Prepare`. */
module StmtCache {
  import opened Text

  /** What a statement was prepared on: a database handle or a transaction. */
  datatype Source = OnDb(db: nat) | OnTx(tx: nat)

  /** A prepared statement; `id` tells apart statements prepared from one text on one source. */
  datatype Statement = Statement(sql: string, source: Source, id: nat)

  datatype Call = Prepare(db: nat, tx: Option<nat>, sql: string)

  /** What preparing afresh would use. */
  function SourceOf(call: Call): Source {
    match call.tx case Some(tx) => OnTx(tx) case None => OnDb(call.db)
  }

  function Fresh(call: Call, id: nat): Statement { Statement(call.sql, SourceOf(call), id) }

  predicate Cached(cache: bool, call: Call) { cache && call.tx == None }

  type Entries = map<string, Statement>

  function Find(entries: Entries, sql: string): Option<Statement> {
    if sql in entries then Some(entries[sql]) else None
  }

  /** `PrepareMap`, under its mutex. */
  class Stmt {
    var PrepareMap: Entries

    constructor ()
      ensures PrepareMap == map[]
    {
      PrepareMap := map[];
    }

    /** A call that no other call interleaves with. `cache` is the PGCache setting, `prepared`
        the outcome of preparing on the handle or the transaction. */
    method Prepare(cache: bool, call: Call, prepared: Option<nat>) returns (statement: Option<Statement>)
      modifies this
      ensures Cached(cache, call) && call.sql in old(PrepareMap) ==>
                statement == Some(old(PrepareMap)[call.sql]) && PrepareMap == old(PrepareMap)
      ensures !(Cached(cache, call) && call.sql in old(PrepareMap)) ==>
                && statement == (match prepared case None => None case Some(id) => Some(Fresh(call, id)))
                && PrepareMap == if Cached(cache, call) && prepared.Some?
                                 then old(PrepareMap)[call.sql := Fresh(call, prepared.value)] else old(PrepareMap)
    {
      if cache && call.tx == None {
        statement := Find(PrepareMap, call.sql);
        if statement.Some? {
          return;
        }
      }
      if prepared == None {
        return None;
      }
      statement := Some(Fresh(call, prepared.value));
      if cache && call.tx == None {
        PrepareMap := PrepareMap[call.sql := statement.value];
      }
    }
  }
}
