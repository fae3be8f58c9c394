/** The service in front of the repository: what it lets through, and what that keeps true. */
module Catalog {
  import opened Domain
  import opened Database
  import opened Listing
  import opened Shop
  import opened ShopProperties
  import opened Backends
  import Memory = InMemoryRepository
  import Postgres = PostgresRepository
  import Cached = CachedRepository

  const DEFAULT_LIST_LIMIT := 20
  const MAX_LIST_LIMIT := 100

  function Clamp(limit: int): nat {
    if limit <= 0 then DEFAULT_LIST_LIMIT
    else if limit > MAX_LIST_LIMIT then MAX_LIST_LIMIT
    else limit
  }

  /** Why the service refuses a call before any repository sees it. */
  function Refusal(call: Call): Option<Error> {
    match call
    case Create(cmd) => (match cmd.Validate() case None => None case Some(f) => Some(InvalidProduct(f)))
    case Update(cmd) => (match cmd.Validate() case None => None case Some(f) => Some(InvalidProduct(f)))
    case UpdateStock(id, delta) =>
      if TrimSpace(id) == "" then Some(IdRequired)
      else if delta == 0 then Some(ZeroDelta)
      else None
  }

  /** What is refused, and with which error: the first fault of a command, a blank id, a zero delta. */
  lemma RefusalExactly(call: Call, f: Fault)
    ensures call.Create? ==>
              && (Refusal(call) == Some(InvalidProduct(f)) <==>
                    CreateHas(call.create, f) && forall g | Rank(g) < Rank(f) :: !CreateHas(call.create, g))
              && (Refusal(call).None? <==> forall g :: !CreateHas(call.create, g))
    ensures call.Update? ==>
              && (Refusal(call) == Some(InvalidProduct(f)) <==>
                    UpdateHas(call.update, f) && forall g | Rank(g) < Rank(f) :: !UpdateHas(call.update, g))
              && (Refusal(call).None? <==> forall g :: !UpdateHas(call.update, g))
    ensures call.UpdateStock? ==>
              && (Refusal(call) == Some(IdRequired) <==> Blank(call.id))
              && (Refusal(call) == Some(ZeroDelta) <==> !Blank(call.id) && call.delta == 0)
              && (Refusal(call).None? <==> !Blank(call.id) && call.delta != 0)
  {
    hide Blank, TrimSpace, Rank, CreateHas, UpdateHas, CreateCommand.Validate, UpdateCommand.Validate;
    match call
    case Create(cmd) => CreateFault(cmd, f);
    case Update(cmd) => UpdateFault(cmd, f);
    case UpdateStock(id, _) => BlankTrims(id);
  }

  function Served(products: seq<Product>, call: Call): seq<Product> {
    if Refusal(call).Some? then products else Next(products, call)
  }

  function ServedAll(products: seq<Product>, calls: seq<Call>): seq<Product> {
    if calls == [] then products else Served(ServedAll(products, calls[..|calls| - 1]), calls[|calls| - 1])
  }

  /** What the service can be put in front of: the in-memory repository, or the cached one over PostgreSQL, as the
      application does. */
  datatype Repository = InMemory(memory: Memory.ProductRepository) | Live(live: Cached.ProductRepository) {
    function Footprint(): set<object> {
      match this
      case InMemory(m) => {m}
      case Live(c) => {c.cache, c.next.conn}
    }

    /** The database's constraints hold, if there is a database. */
    ghost predicate Sane()
      reads Footprint()
    {
      Live? ==> TableOk(live.next.conn.db.products)
    }
  }

  /** Everything one call leaves to its surroundings. */
  datatype Weather = Weather(
    canceled: bool,
    read: Cached.ReadWeather,
    page: Cached.PageWeather,
    newId: string,
    tx: Postgres.TxWeather,
    inv: Cached.Invalidation,
    meanwhile: Cached.Meanwhile)

  class CatalogService {
    const repository: Repository

    constructor (repository: Repository)
      ensures this.repository == repository
    {
      this.repository := repository;
    }

    method ListProducts(limit: int, offset: int, w: Weather) returns (r: Result<seq<Product>>)
      modifies repository.Footprint()
      ensures offset < 0 ==> r == Err(InvalidPagination) && unchanged(repository.Footprint())
      ensures offset >= 0 ==>
                match repository
                case InMemory(m) =>
                  && unchanged(m)
                  && (w.canceled ==> r == Err(Canceled))
                  && (!w.canceled ==>
                        && r == Ok(Slice(m.products, if limit <= 0 then 20 else if limit > 100 then 100 else limit, offset))
                        && |r.value| <= 100)
                case Live(c) =>
                  Cached.ListMoves(w.meanwhile, old(c.Now()), c.Now(), c.cache.ttl,
                                   if limit <= 0 then 20 else if limit > 100 then 100 else limit, offset, w.page, r)
    {
      if offset < 0 {
        return Err(InvalidPagination);
      }
      var effective := limit;
      if effective <= 0 {
        effective := DEFAULT_LIST_LIMIT;
      }
      if effective > MAX_LIST_LIMIT {
        effective := MAX_LIST_LIMIT;
      }
      match repository
      case InMemory(m) => r := m.List(effective, offset, w.canceled);
      case Live(c) => r := c.List(effective, offset, w.page, w.meanwhile);
    }

    method GetProduct(id: string, w: Weather) returns (r: Result<Product>)
      modifies repository.Footprint()
      ensures Blank(id) ==> r == Err(IdRequired) && unchanged(repository.Footprint())
      ensures !Blank(id) ==>
                match repository
                case InMemory(m) =>
                  && unchanged(m)
                  && (w.canceled ==> r == Err(Canceled))
                  && (!w.canceled && old(m.Valid()) ==>
                        && (r.Ok? ==> r.value in m.products && r.value.id == id)
                        && (r.Err? ==> r.error == NotFound && forall p | p in m.products :: p.id != id))
                case Live(c) =>
                  Cached.GetMoves(w.meanwhile, old(c.Now()), c.Now(), c.cache.ttl, id, w.read, r)
    {
      BlankTrims(id);
      if TrimSpace(id) == "" {
        return Err(IdRequired);
      }
      match repository
      case InMemory(m) => r := m.GetByID(id, w.canceled);
      case Live(c) => r := c.GetByID(id, w.read, w.meanwhile);
    }

    method CreateProduct(cmd: CreateCommand, w: Weather) returns (r: Result<Product>)
      requires w.inv.Terminates()
      modifies repository.Footprint()
      ensures Refusal(Call.Create(cmd)).Some? ==>
                r == Err(Refusal(Call.Create(cmd)).value) && unchanged(repository.Footprint())
      ensures Refusal(Call.Create(cmd)).None? ==>
                match repository
                case InMemory(m) =>
                  && r == Answer(old(m.products), Call.Create(cmd)) && m.products == Next(old(m.products), Call.Create(cmd))
                  && (old(Good(m.products) && m.Valid()) ==> Good(m.products) && m.Valid())
                case Live(c) =>
                  Cached.WriteMoves(w.meanwhile, old(c.Now()), c.Now(), Insert(w.newId, cmd), w.tx, w.inv, r)
    {
      var fault := cmd.Validate();
      if fault.Some? {
        return Err(InvalidProduct(fault.value));
      }
      match repository
      case InMemory(m) => r := m.Create(cmd);
      case Live(c) => r := c.Create(cmd, w.newId, w.tx, w.inv, w.meanwhile);
    }

    method UpdateProduct(cmd: UpdateCommand, w: Weather) returns (r: Result<Product>)
      requires repository.Sane() && w.inv.Terminates()
      modifies repository.Footprint()
      ensures Refusal(Call.Update(cmd)).Some? ==>
                r == Err(Refusal(Call.Update(cmd)).value) && unchanged(repository.Footprint())
      ensures Refusal(Call.Update(cmd)).None? ==>
                match repository
                case InMemory(m) =>
                  old(m.Valid()) ==>
                    && r == Answer(old(m.products), Call.Update(cmd)) && m.products == Next(old(m.products), Call.Update(cmd))
                    && m.Valid() && (old(Good(m.products)) ==> Good(m.products))
                case Live(c) =>
                  Cached.WriteMoves(w.meanwhile, old(c.Now()), c.Now(), Change(cmd), w.tx, w.inv, r)
    {
      var fault := cmd.Validate();
      if fault.Some? {
        return Err(InvalidProduct(fault.value));
      }
      match repository
      case InMemory(m) => r := m.Update(cmd);
      case Live(c) => r := c.Update(cmd, w.tx, w.inv, w.meanwhile);
    }

    method UpdateStock(productId: string, delta: Int32, w: Weather) returns (r: Result<Product>)
      requires repository.Sane() && w.inv.Terminates()
      modifies repository.Footprint()
      ensures Refusal(Call.UpdateStock(productId, delta)).Some? ==>
                r == Err(Refusal(Call.UpdateStock(productId, delta)).value) && unchanged(repository.Footprint())
      ensures Refusal(Call.UpdateStock(productId, delta)).None? ==>
                match repository
                case InMemory(m) =>
                  old(m.Valid()) ==>
                    && r == Answer(old(m.products), Call.UpdateStock(productId, delta))
                    && m.products == Next(old(m.products), Call.UpdateStock(productId, delta))
                    && m.Valid() && (old(Good(m.products)) ==> Good(m.products))
                case Live(c) =>
                  Cached.WriteMoves(w.meanwhile, old(c.Now()), c.Now(), AddStock(productId, delta), w.tx, w.inv, r)
    {
      if TrimSpace(productId) == "" {
        return Err(IdRequired);
      }
      if delta == 0 {
        return Err(ZeroDelta);
      }
      match repository
      case InMemory(m) => r := m.UpdateStock(productId, delta);
      case Live(c) => r := c.UpdateStock(productId, delta, w.tx, w.inv, w.meanwhile);
    }
  }

  ghost predicate AllValid(products: seq<Product>) {
    forall i | 0 <= i < |products| :: IsValid(products[i])
  }

  lemma ServedStaysValid(products: seq<Product>, call: Call)
    requires AllValid(products)
    ensures AllValid(Served(products, call))
  {
    if Refusal(call).None? && Answer(products, call).Ok? {
      if call.Create? {
        TrimmedNonEmpty(call.create.sku);
        TrimmedNonEmpty(call.create.name);
        TrimmedNonEmpty(call.create.currency);
        assert |GeneratedId(|products| + 1)| >= 5;
      } else if call.Update? && call.update.name.Some? {
        TrimmedNonEmpty(call.update.name.value);
      }
      assert IsValid(Answer(products, call).value);
    }
  }

  /** Command validation, patching, the stock guard and 32-bit arithmetic compose: from a valid seed, no run
      of service calls ever stores an invalid product. */
  lemma {:induction false} StoredProductsStayValid(products: seq<Product>, calls: seq<Call>)
    requires AllValid(products)
    ensures AllValid(ServedAll(products, calls))
  {
    if calls != [] {
      StoredProductsStayValid(products, calls[..|calls| - 1]);
      ServedStaysValid(ServedAll(products, calls[..|calls| - 1]), calls[|calls| - 1]);
    }
  }

  /** An operation that a call the service lets through can ask of the database. */
  ghost predicate Admitted(op: Op) {
    match op
    case Insert(id, create) => id != "" && create.Validate().None?
    case Change(update) => update.Validate().None?
    case AddStock(_, delta) => delta != 0
  }

  ghost predicate RowsValid(t: Table) {
    forall id | id in t :: IsValid(t[id])
  }

  lemma ExecuteStaysValid(t: Table, op: Op)
    requires RowsValid(t) && Admitted(op) && Execute(t, op).Ok?
    ensures IsValid(Execute(t, op).value)
  {
    if op.Insert? {
      TrimmedNonEmpty(op.create.sku);
      TrimmedNonEmpty(op.create.name);
      TrimmedNonEmpty(op.create.currency);
    } else if op.Change? && op.update.name.Some? {
      TrimmedNonEmpty(op.update.name.value);
    }
  }

  /** The same over the database: from valid rows, no list of transactions the service asks for ever stores an
      invalid product. */
  lemma {:induction false} StoredRowsStayValid(base: Table, ms: seq<Mutation>)
    requires RowsValid(base) && Valid(Fresh(base), ms) && forall m | m in ms :: Admitted(m.op)
    ensures RowsValid(Run(Fresh(base), ms).products)
  {
    if ms != [] {
      var init, m := ms[..|ms| - 1], ms[|ms| - 1];
      assert m in ms && forall x | x in init :: x in ms;
      StoredRowsStayValid(base, init);
      ExecuteStaysValid(Run(Fresh(base), init).products, m.op);
    }
  }

  /** What the service lets through never meets a CHECK constraint: the database's own error, on a table that
      obeys them, means that it cannot take the text or that a stock sum is out of range, and nothing else. */
  lemma ChecksNeverFire(refuses: Op -> bool, t: Table, op: Op)
    requires TableOk(t) && Admitted(op)
    ensures DbAnswer(refuses, t, op) == Err(Storage) <==>
            refuses(op) || (op.AddStock? && op.productId in t && t[op.productId].stock + op.delta > 0x7fff_ffff)
  {
  }

  /** The calls the service lets through. */
  function Accepted(calls: seq<Call>): seq<Call> {
    if calls == [] then []
    else Accepted(calls[..|calls| - 1]) + (if Refusal(calls[|calls| - 1]).None? then [calls[|calls| - 1]] else [])
  }

  lemma AdmissionChecks(call: Call)
    requires Refusal(call).None?
    ensures Checked(call)
  {
  }

  lemma {:induction false} ServedIsAccepted(products: seq<Product>, calls: seq<Call>)
    ensures ServedAll(products, calls) == After(products, Accepted(calls))
    ensures forall c | c in Accepted(calls) :: Checked(c)
  {
    hide Next, Answer, Refusal, Checked;
    if calls != [] {
      var init, call := calls[..|calls| - 1], calls[|calls| - 1];
      ServedIsAccepted(products, init);
      if Refusal(call).None? {
        AdmissionChecks(call);
        assert Accepted(calls) == Accepted(init) + [call];
        assert Accepted(calls)[..|Accepted(init)|] == Accepted(init);
      } else {
        assert Accepted(calls) == Accepted(init);
      }
    }
  }

  /** Whichever repository is behind the service, the same calls leave the same products, whatever was refused on
      the way and whatever ids the database draws: `pairs` are the calls that got through, with what each asks
      of the database. */
  lemma BackendsHoldTheSame(refuses: Op -> bool, products: seq<Product>, ids: seq<string>, t: Table, calls: seq<Call>,
                            pairs: seq<Pair>)
    requires Stocked(products) && Linked(products, ids, t) && RefusesOnlyUnstorable(refuses)
    requires CallsOf(pairs) == Accepted(calls) && Mirrored(products, ids, pairs)
    requires forall s | s in pairs :: Storable(s.op)
    ensures Linked(ServedAll(products, calls), IdsAfter(products, ids, pairs), TableAfter(refuses, t, pairs))
  {
    ServedIsAccepted(products, calls);
    forall s | s in pairs
      ensures Checked(s.call)
    {
      CallOfPair(pairs, s);
    }
    SameProductsThroughout(refuses, products, ids, t, pairs);
  }

  lemma {:induction false} CallOfPair(pairs: seq<Pair>, s: Pair)
    requires s in pairs
    ensures s.call in CallsOf(pairs)
  {
    if s != pairs[|pairs| - 1] {
      assert s in pairs[..|pairs| - 1];
      CallOfPair(pairs[..|pairs| - 1], s);
    }
  }

  // ---------- paging ----------

  /** The pages a client sees when it steps the offset by the page size until a page comes back empty. */
  function Pages<T>(s: seq<T>, limit: nat, offset: nat): seq<seq<T>>
    requires limit > 0
    decreases if offset < |s| then |s| - offset else 0
  {
    if Slice(s, limit, offset) == [] then [] else [Slice(s, limit, offset)] + Pages(s, limit, offset + limit)
  }

  function Concat<T>(pages: seq<seq<T>>): seq<T> {
    if pages == [] then [] else pages[0] + Concat(pages[1..])
  }

  lemma {:induction false} PagesConcat<T>(s: seq<T>, limit: nat, offset: nat)
    requires limit > 0 && offset <= |s|
    ensures Concat(Pages(s, limit, offset)) == s[offset..]
    decreases |s| - offset
  {
    if offset < |s| {
      var page, rest := Slice(s, limit, offset), Pages(s, limit, offset + limit);
      assert page != [];
      ConcatFirst(page, rest);
      if offset + limit <= |s| {
        PagesConcat(s, limit, offset + limit);
        assert page + s[offset + limit..] == s[offset..];
      } else {
        assert Slice(s, limit, offset + limit) == [];
        assert page == s[offset..];
      }
    }
  }

  lemma ConcatFirst<T>(page: seq<T>, rest: seq<seq<T>>)
    ensures Concat([page] + rest) == page + Concat(rest)
  {
    assert ([page] + rest)[1..] == rest;
  }

  /** `k` pages of `limit` hold `n` items, and one page fewer would not. */
  ghost predicate RoundsUp(k: nat, n: nat, limit: nat) {
    k * limit >= n && (if n == 0 then k == 0 else (k - 1) * limit < n)
  }

  lemma OneMorePage(k: nat, n: nat, limit: nat)
    requires RoundsUp(k, n, limit) && limit > 0
    ensures RoundsUp(k + 1, n + limit, limit)
  {
    assert (k + 1) * limit == k * limit + limit;
    assert k * limit == (k - 1) * limit + limit;
  }

  lemma {:induction false} PagesCount<T>(s: seq<T>, limit: nat, offset: nat)
    requires limit > 0 && offset <= |s|
    ensures RoundsUp(|Pages(s, limit, offset)|, |s| - offset, limit)
    decreases |s| - offset
  {
    if offset + limit <= |s| && offset < |s| {
      PagesCount(s, limit, offset + limit);
      OneMorePage(|Pages(s, limit, offset + limit)|, |s| - offset - limit, limit);
    } else if offset < |s| {
      assert |Pages(s, limit, offset)| == 1;
      assert 1 * limit == limit && 0 * limit == 0;
    }
  }

  /** Pages tile the catalogue: for any requested limit, the pages put together are the whole list, each
      product once and in order, and their number is the quotient of list and page size, rounded up. */
  lemma PagesTile<T>(s: seq<T>, requested: int)
    ensures Clamp(requested) == if requested <= 0 then 20 else if requested > 100 then 100 else requested
    ensures Concat(Pages(s, Clamp(requested), 0)) == s
    ensures RoundsUp(|Pages(s, Clamp(requested), 0)|, |s|, Clamp(requested))
  {
    PagesConcat(s, Clamp(requested), 0);
    PagesCount(s, Clamp(requested), 0);
  }
}
