/** The repository over PostgreSQL: every mutation is a transaction that changes a product and records an
    event. Statements run on the transaction's own copy of the database, which a commit publishes and
    anything else throws away. Driver errors arrive as parameters. */
module PostgresRepository {
  import opened Domain
  import opened Events
  import opened Database
  import opened Listing
  import opened UpdateStatement

  /** A commit can fail cleanly, or report an error although it took effect. */
  datatype Ending = Committed | RolledBack | CommittedUnseen

  /** How reading the rows of a query goes: the query fails, or the n-th row or the end of the result may still
      turn out unreadable. */
  datatype Reading = QueryFails | Read(unreadable: Option<nat>, cutShort: bool) {
    predicate Complete(rows: nat) {
      Read? && !cutShort && (unreadable.Some? ==> rows <= unreadable.value)
    }
  }

  /** Which calls of one transaction fail, and the values its own calls to uuid and clock return. */
  datatype TxWeather = TxWeather(
    beginFails: bool,
    statementFails: bool,
    marshalFails: bool,
    insertFails: bool,
    ending: Ending,
    eventId: string,
    createdAt: int,
    occurredAt: int)
  {
    function Transact(op: Op): Mutation {
      Mutation(op, eventId, createdAt, occurredAt)
    }
  }

  /** The transaction gets as far as its commit. */
  predicate Reaches(before: Db, op: Op, w: TxWeather) {
    !w.beginFails && !w.statementFails && !w.marshalFails && !w.insertFails && CanCommit(before, w.Transact(op))
  }

  /** A transaction on `op` commits product and event together or leaves the database as it was, and what the
      caller is told: the driver's error, the statement's own refusal, or the row. Only the error of a commit
      may hide that it took effect. */
  ghost predicate Outcome(before: Db, after: Db, op: Op, w: TxWeather, r: Result<Product>) {
    && after == (if Reaches(before, op, w) && !w.ending.RolledBack? then Commit(before, w.Transact(op)) else before)
    && r == (if w.beginFails || w.statementFails then Err(Storage)
             else if Execute(before.products, op).Err? then Execute(before.products, op)
             else if Reaches(before, op, w) && w.ending.Committed? then Execute(before.products, op)
             else Err(Storage))
  }

  class ProductRepository {
    const conn: Connection

    constructor (conn: Connection)
      ensures this.conn == conn
    {
      this.conn := conn;
    }

    /** The page is the rows the window asks for, in order of id, or the first error and nothing else. */
    method List(limit: nat, offset: nat, reading: Reading) returns (r: Result<seq<Product>>)
      ensures r.Ok? <==> reading.Complete(|Page(conn.db.products, limit, offset)|)
      ensures r.Err? ==> r.error == Storage
      ensures r.Ok? ==> r.value == Page(conn.db.products, limit, offset)
      ensures r.Ok? && KeysMatch(conn.db.products) ==> IsPage(conn.db.products, limit, offset, r.value)
    {
      if reading.QueryFails? {
        return Err(Storage);
      }
      var rows := Page(conn.db.products, limit, offset);
      var products: seq<Product> := [];
      var i := 0;
      while i < |rows|
        invariant i <= |rows|
        invariant reading.unreadable.Some? ==> i <= reading.unreadable.value
        invariant products == rows[..i]
      {
        if reading.unreadable == Some(i) {
          return Err(Storage);
        }
        products := products + [rows[i]];
        i := i + 1;
      }
      if reading.cutShort {
        return Err(Storage);
      }
      if KeysMatch(conn.db.products) {
        PageExactly(conn.db.products, limit, offset, products);
      }
      return Ok(products);
    }

    method GetByID(id: string, fails: bool) returns (r: Result<Product>)
      ensures fails ==> r == Err(Storage)
      ensures !fails ==> (r == Err(NotFound) <==> id !in conn.db.products)
      ensures !fails && id in conn.db.products ==> r == Ok(conn.db.products[id])
    {
      if fails {
        return Err(Storage);
      }
      if id !in conn.db.products {
        return Err(NotFound);
      }
      return Ok(conn.db.products[id]);
    }

    method Create(cmd: CreateCommand, id: string, w: TxWeather) returns (r: Result<Product>)
      modifies conn
      ensures Outcome(old(conn.db), conn.db, Insert(id, cmd), w, r)
      ensures r.Ok? ==>
                && r.value.id == id && r.value.sku == cmd.sku && r.value.name == cmd.name
                && r.value.description == cmd.description && r.value.priceCents == cmd.priceCents
                && r.value.currency == cmd.currency && r.value.stock == cmd.stock && r.value.active
                && conn.db.products == old(conn.db.products)[id := r.value]
                && w.eventId in conn.db.rows && conn.db.rows[w.eventId].eventType == "product.created"
    {
      if w.beginFails {
        return Err(Storage);
      }
      var tx := conn.db;
      if w.statementFails {
        return Err(Storage);
      }
      r := Execute(tx.products, Insert(id, cmd));
      if r.Err? {
        return;
      }
      tx := tx.(products := tx.products[r.value.id := r.value]);
      var recorded := InsertOutboxEvent(tx, PRODUCT_CREATED, r.value, w);
      if recorded.Err? {
        return Err(Storage);
      }
      tx := recorded.value;
      var failed := CommitTx(tx, w.ending);
      if failed {
        return Err(Storage);
      }
    }

    /** The statement is the one the builder makes; what it does to the table is what its text says. */
    method Update(cmd: UpdateCommand, w: TxWeather) returns (r: Result<Product>)
      requires TableOk(conn.db.products)
      modifies conn
      ensures Outcome(old(conn.db), conn.db, Change(cmd), w, r)
      ensures r.Ok? ==>
                && conn.db.products == old(conn.db.products)[cmd.id := r.value]
                && w.eventId in conn.db.rows && conn.db.rows[w.eventId].eventType == "product.updated"
    {
      var query, args := BuildUpdate(cmd);
      if w.beginFails {
        return Err(Storage);
      }
      var tx := conn.db;
      if w.statementFails {
        return Err(Storage);
      }
      var updated := RunUpdate(tx.products, query, args);
      if updated.Err? {
        return Err(updated.error);
      }
      ghost var patched := cmd.Patch(tx.products[cmd.id]);
      ReturnedRowScans(tx.products, patched);
      tx := tx.(products := updated.value.table);
      r := ScanProduct(updated.value.row);
      if r.Err? {
        return;
      }
      var recorded := InsertOutboxEvent(tx, PRODUCT_UPDATED, r.value, w);
      if recorded.Err? {
        return Err(Storage);
      }
      tx := recorded.value;
      var failed := CommitTx(tx, w.ending);
      if failed {
        return Err(Storage);
      }
    }

    method UpdateStock(productId: string, delta: Int32, w: TxWeather) returns (r: Result<Product>)
      requires TableOk(conn.db.products)
      modifies conn
      ensures Outcome(old(conn.db), conn.db, AddStock(productId, delta), w, r)
      ensures r.Ok? ==>
                && productId in old(conn.db.products)
                && r.value == old(conn.db.products)[productId].(stock := r.value.stock)
                && r.value.stock == old(conn.db.products)[productId].stock + delta
                && conn.db.products == old(conn.db.products)[productId := r.value]
                && w.eventId in conn.db.rows && conn.db.rows[w.eventId].eventType == "stock.changed"
    {
      if w.beginFails {
        return Err(Storage);
      }
      var tx := conn.db;
      if w.statementFails {
        return Err(Storage);
      }
      r := Execute(tx.products, AddStock(productId, delta));
      if r.Err? {
        return;
      }
      tx := tx.(products := tx.products[r.value.id := r.value]);
      var recorded := InsertOutboxEvent(tx, STOCK_CHANGED, r.value, w);
      if recorded.Err? {
        return Err(Storage);
      }
      tx := recorded.value;
      var failed := CommitTx(tx, w.ending);
      if failed {
        return Err(Storage);
      }
    }

    /** Adds the event row to the transaction; the table's primary key refuses an id it already has. */
    method InsertOutboxEvent(tx: Db, eventType: string, product: Product, w: TxWeather) returns (r: Result<Db>)
      ensures r.Ok? <==> !w.marshalFails && !w.insertFails && w.eventId !in tx.rows
      ensures r.Ok? ==>
                && r.value.products == tx.products
                && r.value.commits == tx.commits + [w.eventId]
                && r.value.rows == tx.rows[w.eventId :=
                     Row("catalog.products.v1", product.id, eventType,
                         ProductEvent(w.eventId, eventType, product.id, product.sku, product.name, product.priceCents,
                                      product.currency, product.stock, product.active, w.occurredAt),
                         Pending, 0, w.createdAt)]
    {
      var payload := Describe(w.eventId, eventType, product, w.occurredAt);
      if w.marshalFails {
        return Err(Storage);
      }
      if w.insertFails || w.eventId in tx.rows {
        return Err(Storage);
      }
      var row := Row(TOPIC, product.id, eventType, payload, Pending, 0, w.createdAt);
      return Ok(Db(tx.products, tx.rows[w.eventId := row], tx.commits + [w.eventId]));
    }

    method CommitTx(tx: Db, ending: Ending) returns (failed: bool)
      modifies conn
      ensures failed <==> !ending.Committed?
      ensures conn.db == if ending.RolledBack? then old(conn.db) else tx
    {
      if !ending.RolledBack? {
        conn.db := tx;
      }
      failed := !ending.Committed?;
    }
  }

  /** Whatever fails where, a mutation keeps the outbox a faithful change log of the products. */
  lemma OutcomeKeepsChangeLog(base: Table, before: Db, after: Db, op: Op, w: TxWeather, r: Result<Product>)
    requires ChangeLog(base, before) && Outcome(before, after, op, w, r)
    ensures ChangeLog(base, after)
  {
    if after != before {
      CommitKeepsChangeLog(base, before, w.Transact(op));
    }
  }

  /** A mutation call with what it answered and what it left behind. */
  datatype Call = Call(op: Op, weather: TxWeather, reply: Result<Product>, after: Db) {
    function Transact(): Mutation {
      weather.Transact(op)
    }
  }

  ghost function Final(base: Table, calls: seq<Call>): Db {
    if calls == [] then Fresh(base) else calls[|calls| - 1].after
  }

  ghost predicate History(base: Table, calls: seq<Call>) {
    calls == [] ||
    var init, c := calls[..|calls| - 1], calls[|calls| - 1];
    History(base, init) && Outcome(Final(base, init), c.after, c.op, c.weather, c.reply)
  }

  /** Every accepted call is among the mutations, and every mutation is some call's own. */
  ghost predicate Explains(ms: seq<Mutation>, calls: seq<Call>) {
    && (forall c | c in calls && c.reply.Ok? :: c.Transact() in ms)
    && (forall m | m in ms :: exists c :: c in calls && m == c.Transact())
  }

  lemma ExplainsOneMore(ms: seq<Mutation>, calls: seq<Call>, c: Call)
    requires Explains(ms, calls)
    ensures c.reply.Err? ==> Explains(ms, calls + [c])
    ensures Explains(ms + [c.Transact()], calls + [c])
  {
    assert c in calls + [c];
    forall m | m in ms
      ensures exists d :: d in calls + [c] && m == d.Transact()
    {
      var d :| d in calls && m == d.Transact();
      assert d in calls + [c];
    }
  }

  lemma OneMoreCommit(db: Db, ms: seq<Mutation>, m: Mutation)
    requires Valid(db, ms) && CanCommit(Run(db, ms), m)
    ensures Valid(db, ms + [m]) && Run(db, ms + [m]) == Commit(Run(db, ms), m)
  {
    assert (ms + [m])[..|ms|] == ms;
  }

  lemma CallCommits(before: Db, c: Call)
    requires Outcome(before, c.after, c.op, c.weather, c.reply)
    ensures (c.after == before && c.reply.Err?) || (CanCommit(before, c.Transact()) && c.after == Commit(before, c.Transact()))
  {
  }

  /** What the calls did to the database is what the mutations do, and the outbox is their change log. */
  ghost predicate CommitsOf(base: Table, db: Db, calls: seq<Call>, ms: seq<Mutation>) {
    && Valid(Fresh(base), ms) && Run(Fresh(base), ms) == db
    && ChangeLog(base, db)
    && |ms| <= |calls| && Explains(ms, calls)
  }

  lemma OneMoreCall(base: Table, db: Db, calls: seq<Call>, ms: seq<Mutation>, c: Call) returns (ms': seq<Mutation>)
    requires CommitsOf(base, db, calls, ms) && Outcome(db, c.after, c.op, c.weather, c.reply)
    ensures CommitsOf(base, c.after, calls + [c], ms')
  {
    ExplainsOneMore(ms, calls, c);
    OutcomeKeepsChangeLog(base, db, c.after, c.op, c.weather, c.reply);
    CallCommits(db, c);
    hide Outcome, Explains, ChangeLog, CanCommit, Commit, Valid, Run;
    if c.after == db && c.reply.Err? {
      ms' := ms;
    } else {
      OneMoreCommit(Fresh(base), ms, c.Transact());
      ms' := ms + [c.Transact()];
    }
  }

  /** Over any sequence of mutation calls, with failures anywhere: the database is what some list of
      mutations committed one after another makes of the baseline, every accepted call among them and every
      one of them some call's own, and the outbox is their change log. */
  lemma {:induction false} CallsAreCommits(base: Table, calls: seq<Call>) returns (ms: seq<Mutation>)
    requires TableOk(base) && History(base, calls)
    ensures CommitsOf(base, Final(base, calls), calls, ms)
  {
    if calls == [] {
      ms := [];
      OutboxIsChangeLog(base, ms);
    } else {
      var prior, c := calls[..|calls| - 1], calls[|calls| - 1];
      hide Outcome, CommitsOf;
      assert calls == prior + [c];
      var done := CallsAreCommits(base, prior);
      ms := OneMoreCall(base, Final(base, prior), prior, done, c);
    }
  }
}
