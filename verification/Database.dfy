/** The two tables of the catalogue database and what one committed transaction does to them.

    A transaction of the repository runs one data-changing statement on `products` and one INSERT on
    `outbox_events`; PostgreSQL makes the pair atomic. `Run` applies any list of such transactions. */
module Database {
  import opened Domain
  import opened Events

  type Table = map<string, Product>

  datatype Op =
    | Insert(id: string, create: CreateCommand)
    | Change(update: UpdateCommand)
    | AddStock(productId: string, delta: Int32)
  {
    function Target(): string {
      match this
      case Insert(id, _) => id
      case Change(update) => update.id
      case AddStock(id, _) => id
    }

    function EventType(): string {
      match this
      case Insert(_, _) => PRODUCT_CREATED
      case Change(_) => PRODUCT_UPDATED
      case AddStock(_, _) => STOCK_CHANGED
    }
  }

  predicate SkuTaken(t: Table, sku: string) {
    exists id | id in t :: t[id].sku == sku
  }

  /** The row a statement returns, or the error the database raises: CHECK constraints first, then keys. */
  function Execute(t: Table, op: Op): Result<Product> {
    match op
    case Insert(id, create) =>
      if create.priceCents < 0 || create.stock < 0 then Err(Storage)
      else if id in t || SkuTaken(t, create.sku) then Err(AlreadyExists)
      else Ok(create.Build(id))
    case Change(update) =>
      if update.id !in t then Err(NotFound)
      else if update.Patch(t[update.id]).priceCents < 0 then Err(Storage)
      else Ok(update.Patch(t[update.id]))
    case AddStock(id, delta) =>
      if id !in t then Err(NotFound)
      else
        var sum := t[id].stock + delta;
        if !(-0x8000_0000 <= sum <= 0x7fff_ffff) then Err(Storage)
        else if sum < 0 then Err(InsufficientStock)
        else Ok(t[id].(stock := sum))
  }

  ghost predicate KeysMatch(t: Table) {
    forall id | id in t :: t[id].id == id
  }

  /** What the schema's constraints keep true of `products`. */
  ghost predicate TableOk(t: Table) {
    && (forall id | id in t :: t[id].id == id && t[id].priceCents >= 0 && t[id].stock >= 0)
    && (forall i, j | i in t && j in t && t[i].sku == t[j].sku :: i == j)
  }

  datatype Status = Pending | Sent

  datatype Row = Row(
    topic: string,
    key: string,
    eventType: string,
    payload: ProductEvent,
    status: Status,
    attempts: nat,
    createdAt: int)

  /** `commits` lists the outbox ids in the order their transactions committed. It is the history the
      theorems speak about; no query reads it. */
  datatype Db = Db(products: Table, rows: map<string, Row>, commits: seq<string>)

  function Fresh(products: Table): Db {
    Db(products, map[], [])
  }

  /** The database handle that repository and publisher share. */
  class Connection {
    var db: Db

    constructor (products: Table)
      ensures db == Fresh(products)
    {
      db := Fresh(products);
    }
  }

  datatype Mutation = Mutation(op: Op, eventId: string, createdAt: int, occurredAt: int)

  predicate CanCommit(db: Db, m: Mutation) {
    Execute(db.products, m.op).Ok? && m.eventId !in db.rows
  }

  function OutboxRow(m: Mutation, p: Product): Row {
    Row(TOPIC, p.id, m.op.EventType(), Describe(m.eventId, m.op.EventType(), p, m.occurredAt), Pending, 0, m.createdAt)
  }

  /** Row and event become visible together. */
  function Commit(db: Db, m: Mutation): Db
    requires CanCommit(db, m)
  {
    var p := Execute(db.products, m.op).value;
    Db(db.products[p.id := p], db.rows[m.eventId := OutboxRow(m, p)], db.commits + [m.eventId])
  }

  ghost predicate Valid(db: Db, ms: seq<Mutation>)
    decreases |ms|, 0
  {
    ms == [] || (Valid(db, ms[..|ms| - 1]) && CanCommit(Run(db, ms[..|ms| - 1]), ms[|ms| - 1]))
  }

  ghost function Run(db: Db, ms: seq<Mutation>): Db
    requires Valid(db, ms)
    decreases |ms|, 1
  {
    if ms == [] then db else Commit(Run(db, ms[..|ms| - 1]), ms[|ms| - 1])
  }

  ghost function Project(t: Table): map<string, View> {
    map id | id in t :: ViewOf(t[id])
  }

  /** Last write wins, event by event. */
  ghost function Fold(base: map<string, View>, events: seq<ProductEvent>): map<string, View> {
    if events == [] then base
    else
      var e := events[|events| - 1];
      Fold(base, events[..|events| - 1])[e.productId := EventView(e)]
  }

  ghost predicate Indexed(db: Db) {
    && (forall i | 0 <= i < |db.commits| :: db.commits[i] in db.rows)
    && (forall id | id in db.rows :: id in db.commits)
    && (forall i, j | 0 <= i < j < |db.commits| :: db.commits[i] != db.commits[j])
  }

  ghost function Payloads(db: Db): seq<ProductEvent>
    requires Indexed(db)
  {
    seq(|db.commits|, i requires 0 <= i < |db.commits| => db.rows[db.commits[i]].payload)
  }

  /** Row by row, what an outbox entry says about itself. */
  ghost predicate Labelled(id: string, row: Row) {
    && row.topic == TOPIC
    && row.key == row.payload.productId
    && row.eventType == row.payload.eventType
    && row.payload.eventId == id
  }

  /** The outbox is the change log that leads from `base` to the current products. */
  ghost predicate ChangeLog(base: Table, db: Db) {
    && TableOk(db.products)
    && Indexed(db)
    && (forall id | id in db.rows :: Labelled(id, db.rows[id]))
    && Fold(Project(base), Payloads(db)) == Project(db.products)
  }

  lemma ExecuteKeepsTable(t: Table, op: Op)
    requires TableOk(t) && Execute(t, op).Ok?
    ensures var p := Execute(t, op).value; p.id == op.Target() && TableOk(t[p.id := p])
  {
    var p := Execute(t, op).value;
    if op.Insert? {
      assert forall id | id in t :: t[id].sku != p.sku;
    } else {
      assert p.id in t && p.sku == t[p.id].sku;
    }
  }

  lemma CommitExtendsPayloads(db: Db, m: Mutation)
    requires Indexed(db) && CanCommit(db, m)
    ensures Indexed(Commit(db, m))
    ensures var p := Execute(db.products, m.op).value;
            Payloads(Commit(db, m)) == Payloads(db) + [OutboxRow(m, p).payload]
  {
    var db' := Commit(db, m);
    assert forall id | id in db'.rows :: id == m.eventId || id in db.commits;
    assert forall i | 0 <= i < |db.commits| :: db'.commits[i] == db.commits[i];
    assert db'.commits[|db.commits|] == m.eventId;
  }

  lemma FoldAppend(base: map<string, View>, es: seq<ProductEvent>, e: ProductEvent)
    ensures Fold(base, es + [e]) == Fold(base, es)[e.productId := EventView(e)]
  {
    assert (es + [e])[..|es|] == es;
  }

  lemma ProjectUpdate(t: Table, p: Product)
    ensures Project(t[p.id := p]) == Project(t)[p.id := ViewOf(p)]
  {
  }

  lemma CommitKeepsLabels(db: Db, m: Mutation)
    requires CanCommit(db, m) && forall id | id in db.rows :: Labelled(id, db.rows[id])
    ensures forall id | id in Commit(db, m).rows :: Labelled(id, Commit(db, m).rows[id])
  {
    var p := Execute(db.products, m.op).value;
    assert Labelled(m.eventId, OutboxRow(m, p));
  }

  lemma CommitKeepsFold(base: Table, db: Db, m: Mutation)
    requires Indexed(db) && CanCommit(db, m) && Fold(Project(base), Payloads(db)) == Project(db.products)
    ensures Indexed(Commit(db, m))
    ensures Fold(Project(base), Payloads(Commit(db, m))) == Project(Commit(db, m).products)
  {
    var p := Execute(db.products, m.op).value;
    CommitExtendsPayloads(db, m);
    FoldAppend(Project(base), Payloads(db), OutboxRow(m, p).payload);
    ProjectUpdate(db.products, p);
  }

  lemma CommitKeepsChangeLog(base: Table, db: Db, m: Mutation)
    requires ChangeLog(base, db) && CanCommit(db, m)
    ensures ChangeLog(base, Commit(db, m))
  {
    ExecuteKeepsTable(db.products, m.op);
    CommitKeepsLabels(db, m);
    CommitKeepsFold(base, db, m);
  }

  /** The outbox is a faithful change log: folding every row, in commit order, over the baseline
      gives the products table. */
  lemma {:induction false} OutboxIsChangeLog(base: Table, ms: seq<Mutation>)
    requires TableOk(base) && Valid(Fresh(base), ms)
    ensures ChangeLog(base, Run(Fresh(base), ms))
  {
    if ms != [] {
      OutboxIsChangeLog(base, ms[..|ms| - 1]);
      CommitKeepsChangeLog(base, Run(Fresh(base), ms[..|ms| - 1]), ms[|ms| - 1]);
    }
  }

  lemma {:induction false} CommitCounts(base: Table, ms: seq<Mutation>)
    requires Valid(Fresh(base), ms)
    ensures var db := Run(Fresh(base), ms); |db.commits| == |ms| == |db.rows|
  {
    if ms != [] {
      CommitCounts(base, ms[..|ms| - 1]);
      var before := Run(Fresh(base), ms[..|ms| - 1]);
      var m := ms[|ms| - 1];
      assert Commit(before, m).rows.Keys == before.rows.Keys + {m.eventId};
    }
  }

  /** The outbox holds exactly the row that describes `m`'s product as table `after` has it. */
  ghost predicate Records(db: Db, m: Mutation, after: Table) {
    && m.eventId in db.rows
    && m.op.Target() in after
    && db.rows[m.eventId] == OutboxRow(m, after[m.op.Target()])
  }

  lemma CommitRecords(db: Db, m: Mutation)
    requires TableOk(db.products) && CanCommit(db, m)
    ensures Records(Commit(db, m), m, Commit(db, m).products)
  {
    ExecuteKeepsTable(db.products, m.op);
  }

  lemma CommitKeepsRecord(db: Db, m: Mutation, n: Mutation, after: Table)
    requires CanCommit(db, m) && Records(db, n, after)
    ensures Records(Commit(db, m), n, after)
  {
  }

  /** Committed mutations and outbox rows correspond one to one, and each row describes its product
      exactly as its own transaction left it. */
  lemma {:induction false} OutboxRecordsEachMutation(base: Table, ms: seq<Mutation>, k: nat)
    requires TableOk(base) && Valid(Fresh(base), ms) && k < |ms|
    ensures var db := Run(Fresh(base), ms);
            |db.commits| == |ms| == |db.rows| && db.commits[k] == ms[k].eventId
    ensures Valid(Fresh(base), ms[..k + 1])
    ensures Records(Run(Fresh(base), ms), ms[k], Run(Fresh(base), ms[..k + 1]).products)
  {
    var init, m := ms[..|ms| - 1], ms[|ms| - 1];
    var before := Run(Fresh(base), init);
    CommitCounts(base, ms);
    CommitCounts(base, init);
    if k == |init| {
      assert ms[..k + 1] == ms;
      assert TableOk(before.products) by { OutboxIsChangeLog(base, init); }
      CommitRecords(before, m);
    } else {
      OutboxRecordsEachMutation(base, init, k);
      assert init[..k + 1] == ms[..k + 1];
      CommitKeepsRecord(before, m, ms[k], Run(Fresh(base), ms[..k + 1]).products);
    }
  }
}
