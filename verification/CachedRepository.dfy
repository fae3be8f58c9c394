/** The cache-aside repository: reads try the cache first and fill it, writes go to the database and then
    throw out what they made stale. Between two steps of a call anything may happen to both stores; what does
    is a parameter. */
module CachedRepository {
  import opened Domain
  import opened Database
  import opened Listing
  import opened RedisKeys
  import opened RedisCache
  import Postgres = PostgresRepository

  /** What can go wrong in a read. */
  datatype ReadWeather = ReadWeather(getFails: bool, dbFails: bool, fill: Fate)
  datatype PageWeather = PageWeather(getFails: bool, reading: Postgres.Reading, fill: Fate)

  /** What can go wrong when a write invalidates. */
  datatype Invalidation = Invalidation(delete: Fate, replies: seq<ScanReply>, deleteList: Fate) {
    predicate Terminates() {
      exists i | 0 <= i < |replies| :: Ends(replies[i])
    }
  }

  /** The two stores and the cache's clock at one moment. */
  datatype Shot = Shot(products: Table, store: Store, now: nat)

  /** What others make of the stores between two steps of a call, pause by pause. */
  type Meanwhile = (nat, Shot) -> Shot

  /** Nobody else is there. */
  const STILL: Meanwhile := (k, s) => s

  function Cached(s: Shot, key: string): Option<Document> {
    if key in s.store && s.now < s.store[key].expiresAt then Some(s.store[key].document) else None
  }

  function FilledProduct(s: Shot, p: Product, ttl: nat, fate: Fate): Shot {
    if fate.Lost? then s else s.(store := s.store[ProductKey(p.id) := Entry(ProductDocument(p), s.now + ttl)])
  }

  function FilledPage(s: Shot, limit: nat, offset: nat, items: seq<Product>, ttl: nat, fate: Fate): Shot {
    if fate.Lost? then s else s.(store := s.store[ListKey(limit, offset) := Entry(PageDocument(items), s.now + ttl)])
  }

  function WithoutProduct(store: Store, id: Option<string>, inv: Invalidation): Store {
    if id.None? || inv.delete.Lost? then store else Without(store, [ProductKey(id.value)])
  }

  function WithoutLists(store: Store, inv: Invalidation): Store
    requires inv.Terminates()
  {
    var n := LastCall(inv.replies);
    if inv.replies[n].ScanFails? || inv.deleteList.Lost? then store
    else
      var keys := Collected(inv.replies[..n + 1]);
      if keys == [] then store else Without(store, keys)
  }

  function Target(op: Op): Option<string> {
    if op.Insert? then None else Some(op.Target())
  }

  /** What the calls of a scan and the DEL after it meet, from pause `k` on. */
  function Worlds(meanwhile: Meanwhile, s: Shot, k: nat, n: nat): (worlds: seq<Shot>)
    ensures |worlds| == n
    decreases n
  {
    if n == 0 then [] else
      var next := meanwhile(k, s);
      [next] + Worlds(meanwhile, next, k + 1, n - 1)
  }

  /** The stores after the removal of all list keys, given what each of its calls meets. */
  function ListsRemoved(worlds: seq<Shot>, inv: Invalidation): Shot
    requires inv.Terminates() && |worlds| == |inv.replies| + 1
  {
    var n := LastCall(inv.replies);
    if inv.replies[n].ScanFails? || Collected(inv.replies[..n + 1]) == [] then worlds[n]
    else worlds[n + 1].(store := WithoutLists(worlds[n + 1].store, inv))
  }

  /** Deleting a product's own entry comes first, if the write changed an existing product. */
  function ProductRemoved(meanwhile: Meanwhile, s: Shot, op: Op, inv: Invalidation): Shot {
    if Target(op).None? then s
    else
      var met := meanwhile(0, s);
      met.(store := WithoutProduct(met.store, Target(op), inv))
  }

  function Invalidated(meanwhile: Meanwhile, s: Shot, op: Op, inv: Invalidation): Shot
    requires inv.Terminates()
  {
    ListsRemoved(Worlds(meanwhile, ProductRemoved(meanwhile, s, op, inv), 1, |inv.replies| + 1), inv)
  }

  class ProductRepository {
    const cache: Cache
    const next: Postgres.ProductRepository

    constructor (cache: Cache, next: Postgres.ProductRepository)
      ensures this.cache == cache && this.next == next
    {
      this.cache, this.next := cache, next;
    }

    function Now(): Shot
      reads cache, next.conn
    {
      Shot(next.conn.db.products, cache.store, cache.now)
    }

    /** The two stores as others have left them. */
    method Meet(s: Shot)
      modifies cache`store, cache`now, next.conn
      ensures Now() == s
    {
      next.conn.db := next.conn.db.(products := s.products);
      cache.store, cache.now := s.store, s.now;
    }

    method GetByID(id: string, w: ReadWeather, meanwhile: Meanwhile) returns (r: Result<Product>)
      modifies cache`store, cache`now, next.conn
      ensures GetMoves(meanwhile, old(Now()), Now(), cache.ttl, id, w, r)
    {
      var got := cache.GetProduct(id, w.getFails);
      if got.Err? {
        return Err(got.error);
      }
      if got.value.Some? {
        return Ok(got.value.value);
      }
      Meet(meanwhile(0, Now()));
      r := next.GetByID(id, w.dbFails);
      if r.Err? {
        return;
      }
      Meet(meanwhile(1, Now()));
      var failed := cache.SetProduct(r.value, w.fill);
    }

    method List(limit: nat, offset: nat, w: PageWeather, meanwhile: Meanwhile) returns (r: Result<seq<Product>>)
      modifies cache`store, cache`now, next.conn
      ensures ListMoves(meanwhile, old(Now()), Now(), cache.ttl, limit, offset, w, r)
    {
      var got := cache.GetProductList(limit, offset, w.getFails);
      if got.Err? {
        return Err(got.error);
      }
      if got.value.Some? {
        return Ok(got.value.value);
      }
      Meet(meanwhile(0, Now()));
      r := next.List(limit, offset, w.reading);
      if r.Err? {
        return;
      }
      Meet(meanwhile(1, Now()));
      var failed := cache.SetProductList(limit, offset, r.value, w.fill);
    }

    method Create(cmd: CreateCommand, id: string, w: Postgres.TxWeather, inv: Invalidation, meanwhile: Meanwhile)
      returns (r: Result<Product>)
      requires inv.Terminates()
      modifies cache`store, cache`now, next.conn
      ensures WriteMoves(meanwhile, old(Now()), Now(), Insert(id, cmd), w, inv, r)
    {
      r := next.Create(cmd, id, w);
      if r.Err? {
        return;
      }
      var failed := InvalidateListCache(inv, meanwhile);
    }

    method Update(cmd: UpdateCommand, w: Postgres.TxWeather, inv: Invalidation, meanwhile: Meanwhile)
      returns (r: Result<Product>)
      requires TableOk(next.conn.db.products) && inv.Terminates()
      modifies cache`store, cache`now, next.conn
      ensures WriteMoves(meanwhile, old(Now()), Now(), Change(cmd), w, inv, r)
    {
      ghost var before := next.conn.db.products;
      r := next.Update(cmd, w);
      if r.Err? {
        return;
      }
      ExecuteKeepsTable(before, Change(cmd));
      Meet(meanwhile(0, Now()));
      var undeleted := cache.DeleteProduct(r.value.id, inv.delete);
      var failed := InvalidateListCache(inv, meanwhile);
    }

    method UpdateStock(productId: string, delta: Int32, w: Postgres.TxWeather, inv: Invalidation, meanwhile: Meanwhile)
      returns (r: Result<Product>)
      requires TableOk(next.conn.db.products) && inv.Terminates()
      modifies cache`store, cache`now, next.conn
      ensures WriteMoves(meanwhile, old(Now()), Now(), AddStock(productId, delta), w, inv, r)
    {
      r := next.UpdateStock(productId, delta, w);
      if r.Err? {
        return;
      }
      Meet(meanwhile(0, Now()));
      var undeleted := cache.DeleteProduct(productId, inv.delete);
      var failed := InvalidateListCache(inv, meanwhile);
    }

    method InvalidateListCache(inv: Invalidation, meanwhile: Meanwhile) returns (failed: bool)
      requires inv.Terminates()
      modifies cache`store, cache`now, next.conn
      ensures Now() == ListsRemoved(Worlds(meanwhile, old(Now()), 1, |inv.replies| + 1), inv)
    {
      var worlds := Worlds(meanwhile, Now(), 1, |inv.replies| + 1);
      failed := cache.InvalidateListCache(inv.replies, seq(|worlds|, i requires 0 <= i < |worlds| => worlds[i].store), inv.deleteList);
      Meet(ListsRemoved(worlds, inv).(store := cache.store));
    }
  }

  ghost predicate GetMoves(meanwhile: Meanwhile, s: Shot, s': Shot, ttl: nat, id: string, w: ReadWeather, r: Result<Product>) {
    var hit := Cached(s, ProductKey(id));
    if w.getFails then s' == s && r == Err(CacheFailure)
    else if hit.Some? then s' == s && r == Ok(DecodeProduct(hit.value))
    else
      var at := meanwhile(0, s);
      if w.dbFails then s' == at && r == Err(Storage)
      else if id !in at.products then s' == at && r == Err(NotFound)
      else r == Ok(at.products[id]) && s' == FilledProduct(meanwhile(1, at), at.products[id], ttl, w.fill)
  }

  ghost predicate ListMoves(meanwhile: Meanwhile, s: Shot, s': Shot, ttl: nat, limit: nat, offset: nat, w: PageWeather,
                            r: Result<seq<Product>>)
  {
    var hit := Cached(s, ListKey(limit, offset));
    if w.getFails then s' == s && r == Err(CacheFailure)
    else if hit.Some? then s' == s && r == Ok(DecodePage(hit.value))
    else
      var at := meanwhile(0, s);
      var items := Page(at.products, limit, offset);
      if !w.reading.Complete(|items|) then s' == at && r == Err(Storage)
      else r == Ok(items) && s' == FilledPage(meanwhile(1, at), limit, offset, items, ttl, w.fill)
  }

  /** A refused write leaves the cache alone and has committed nothing, unless the commit's error hid it. An
      accepted one has committed; then it invalidates. */
  ghost predicate WriteMoves(meanwhile: Meanwhile, s: Shot, s': Shot, op: Op, w: Postgres.TxWeather, inv: Invalidation,
                             r: Result<Product>)
    requires inv.Terminates()
  {
    match r
    case Err(_) =>
      && s' == s.(products := s'.products)
      && (s'.products == s.products ||
          (w.ending.CommittedUnseen? && Execute(s.products, op).Ok? &&
           s'.products == s.products[Execute(s.products, op).value.id := Execute(s.products, op).value]))
    case Ok(p) =>
      && Execute(s.products, op) == r
      && s' == Invalidated(meanwhile, s.(products := s.products[p.id := p]), op, inv)
  }

  // ---------- one call at a time ----------

  lemma {:induction false} StillWorlds(s: Shot, k: nat, n: nat)
    ensures forall i | 0 <= i < n :: Worlds(STILL, s, k, n)[i] == s
    decreases n
  {
    if n > 0 {
      StillWorlds(s, k + 1, n - 1);
    }
  }

  /** Undisturbed, an invalidation takes from the store what its two deletions take. */
  lemma StillInvalidated(s: Shot, op: Op, inv: Invalidation)
    requires inv.Terminates()
    ensures Invalidated(STILL, s, op, inv) == s.(store := WithoutLists(WithoutProduct(s.store, Target(op), inv), inv))
  {
    StillWorlds(ProductRemoved(STILL, s, op, inv), 1, |inv.replies| + 1);
  }

  /** A write takes entries away and leaves the others as they are. */
  lemma WriteOnlyRemoves(s: Shot, s': Shot, op: Op, tx: Postgres.TxWeather, inv: Invalidation, r: Result<Product>)
    requires inv.Terminates() && WriteMoves(STILL, s, s', op, tx, inv, r)
    ensures s'.now == s.now
    ensures s'.store == if r.Ok? then WithoutLists(WithoutProduct(s.store, Target(op), inv), inv) else s.store
    ensures forall k | k in s'.store :: k in s.store && s'.store[k] == s.store[k]
    ensures r.Ok? ==> Execute(s.products, op) == r && s'.products == s.products[r.value.id := r.value]
    ensures r.Err? && !tx.ending.CommittedUnseen? ==> s'.products == s.products
  {
    if r.Ok? {
      StillInvalidated(s.(products := s.products[r.value.id := r.value]), op, inv);
      hide Invalidated;
    }
  }

  /** Every entry, expired or not, says what the table says. */
  ghost predicate Coherent(s: Shot) {
    && TableOk(s.products)
    && (forall id | ProductKey(id) in s.store ::
          id in s.products && s.store[ProductKey(id)].document == ProductDocument(s.products[id]))
    && (forall limit: nat, offset: nat | ListKey(limit, offset) in s.store ::
          s.store[ListKey(limit, offset)].document == PageDocument(Page(s.products, limit, offset)))
  }

  /** Both deletions took effect, and the scan went through a full cycle and kept its promise on a store nobody
      else touched. */
  ghost predicate Succeeds(inv: Invalidation, store: Store) {
    && !inv.delete.Lost?
    && !inv.deleteList.Lost?
    && exists n: nat :: Cycle(inv.replies, n) && ScanPromise(inv.replies, seq(n + 2, i => store), n)
  }

  /** One call on the repository with its answer, or a moment in which time passes and entries vanish. */
  datatype Action =
    | Get(id: string, read: ReadWeather, product: Result<Product>)
    | ListPage(limit: nat, offset: nat, scan: PageWeather, page: Result<seq<Product>>)
    | Write(op: Op, tx: Postgres.TxWeather, inv: Invalidation, product: Result<Product>)
    | Quiet

  ghost predicate Moves(s: Shot, s': Shot, ttl: nat, a: Action) {
    match a
    case Get(id, read, r) => GetMoves(STILL, s, s', ttl, id, read, r)
    case ListPage(limit, offset, read, r) => ListMoves(STILL, s, s', ttl, limit, offset, read, r)
    case Write(op, tx, inv, r) => inv.Terminates() && WriteMoves(STILL, s, s', op, tx, inv, r)
    case Quiet =>
      && s'.products == s.products && s.now <= s'.now
      && forall k | k in s'.store :: k in s.store && s'.store[k] == s.store[k]
  }

  /** A rejected write committed nothing; an accepted one invalidated what it made stale. */
  ghost predicate Tidy(s: Shot, a: Action) {
    a.Write? ==>
      && !a.tx.ending.CommittedUnseen?
      && (a.product.Ok? ==> Succeeds(a.inv, WithoutProduct(s.store, Target(a.op), a.inv)))
  }

  /** A read answers as the repository underneath would, or that repository or the cache failed. */
  ghost predicate Faithful(s: Shot, a: Action) {
    match a
    case Get(id, read, r) =>
      || (r == Err(CacheFailure) && read.getFails)
      || (r == Err(Storage) && read.dbFails)
      || r == (if id in s.products then Ok(s.products[id]) else Err(NotFound))
    case ListPage(limit, offset, read, r) =>
      || (r == Err(CacheFailure) && read.getFails)
      || (r == Err(Storage) && !read.reading.Complete(|Page(s.products, limit, offset)|))
      || r == Ok(Page(s.products, limit, offset))
    case _ => true
  }

  lemma FilledProductStaysCoherent(s: Shot, id: string, ttl: nat, fate: Fate)
    requires Coherent(s) && id in s.products
    ensures Coherent(FilledProduct(s, s.products[id], ttl, fate))
  {
    var s' := FilledProduct(s, s.products[id], ttl, fate);
    forall other | ProductKey(other) == ProductKey(id)
      ensures other == id
    {
      ProductKeysDiffer(other, id);
    }
    forall limit: nat, offset: nat
      ensures ListKey(limit, offset) != ProductKey(id)
    {
      FamiliesApart(id, limit, offset);
    }
  }

  lemma FilledPageStaysCoherent(s: Shot, limit: nat, offset: nat, ttl: nat, fate: Fate)
    requires Coherent(s)
    ensures Coherent(FilledPage(s, limit, offset, Page(s.products, limit, offset), ttl, fate))
  {
    forall l: nat, o: nat | ListKey(l, o) == ListKey(limit, offset)
      ensures l == limit && o == offset
    {
      ListKeysDiffer(l, o, limit, offset);
    }
    forall id
      ensures ProductKey(id) != ListKey(limit, offset)
    {
      FamiliesApart(id, limit, offset);
    }
  }

  /** A successful invalidation leaves no page, and of the products exactly the entries it was not aimed at. */
  lemma SuccessLeaves(store: Store, target: Option<string>, inv: Invalidation)
    requires Succeeds(inv, WithoutProduct(store, target, inv))
    ensures var left := WithoutLists(WithoutProduct(store, target, inv), inv);
            && (forall limit: nat, offset: nat :: ListKey(limit, offset) !in left)
            && (forall id | ProductKey(id) in left :: ProductKey(id) in store && left[ProductKey(id)] == store[ProductKey(id)])
            && (target.Some? ==> ProductKey(target.value) !in left)
  {
    var met := WithoutProduct(store, target, inv);
    var n: nat :| Cycle(inv.replies, n) && ScanPromise(inv.replies, seq(n + 2, i => met), n);
    var world := seq(n + 2, i => met);
    var left := WithoutLists(met, inv);
    CycleEnds(inv.replies, n);
    hide ScanPromise, Found, Collected;
    forall k
      ensures if Found(inv.replies, n, k) then k !in left else Unchanged(LastMet(inv.replies, world, n), left, k)
    {
    }
    InvalidationIsCompleteAndPrecise(inv.replies, world, n, left);
    forall limit: nat, offset: nat
      ensures ListKey(limit, offset) !in left
    {
    }
    forall id | ProductKey(id) in left
      ensures ProductKey(id) in met && left[ProductKey(id)] == met[ProductKey(id)]
    {
      assert Unchanged(LastMet(inv.replies, world, n), left, ProductKey(id));
    }
    if target.Some? {
      assert Unchanged(LastMet(inv.replies, world, n), left, ProductKey(target.value));
    }
  }

  lemma WriteStaysCoherent(s: Shot, s': Shot, op: Op, tx: Postgres.TxWeather, inv: Invalidation, r: Result<Product>)
    requires Coherent(s) && inv.Terminates() && WriteMoves(STILL, s, s', op, tx, inv, r)
    requires Tidy(s, Write(op, tx, inv, r))
    ensures Coherent(s')
  {
    WriteOnlyRemoves(s, s', op, tx, inv, r);
    hide WriteMoves, WithoutLists, WithoutProduct, Succeeds;
    if r.Ok? {
      ExecuteKeepsTable(s.products, op);
      SuccessLeaves(s.store, Target(op), inv);
      forall id | ProductKey(id) in s'.store
        ensures id != op.Target()
      {
        assert op.Insert? ==> op.Target() !in s.products;
      }
    }
  }

  lemma ActionStaysCoherent(s: Shot, s': Shot, ttl: nat, a: Action)
    requires Coherent(s) && Moves(s, s', ttl, a) && Tidy(s, a)
    ensures Coherent(s') && Faithful(s, a)
  {
    match a
    case Get(id, read, _) =>
      if id in s.products { FilledProductStaysCoherent(s, id, ttl, read.fill); }
    case ListPage(limit, offset, read, _) =>
      FilledPageStaysCoherent(s, limit, offset, ttl, read.fill);
    case Write(op, tx, inv, r) =>
      WriteStaysCoherent(s, s', op, tx, inv, r);
    case Quiet =>
  }

  ghost predicate IsRun(shots: seq<Shot>, actions: seq<Action>, ttl: nat) {
    && |shots| == |actions| + 1
    && forall i | 0 <= i < |actions| :: Moves(shots[i], shots[i + 1], ttl, actions[i]) && Tidy(shots[i], actions[i])
  }

  /** The cache is invisible: in every run of calls one after another, with expiries, evictions, failed fills
      and failed reads anywhere, each read answers from the table as it is at that moment. */
  lemma {:induction false} CacheIsInvisible(shots: seq<Shot>, actions: seq<Action>, ttl: nat, n: nat)
    requires IsRun(shots, actions, ttl) && Coherent(shots[0]) && n <= |actions|
    ensures Coherent(shots[n])
    ensures forall i | 0 <= i < n :: Faithful(shots[i], actions[i])
  {
    if n > 0 {
      CacheIsInvisible(shots, actions, ttl, n - 1);
      ActionStaysCoherent(shots[n - 1], shots[n], ttl, actions[n - 1]);
    }
  }

  // ---------- exactly when a write leaves something stale ----------

  /** Whatever a cycle returned matches its pattern. */
  ghost predicate ScansOnlyLists(inv: Invalidation) {
    forall n: nat, k: string | Cycle(inv.replies, n) && Found(inv.replies, n, k) :: Glob(LIST_PATTERN, k)
  }

  /** A product's entry survives a write exactly when the write was refused, or is about another product, or
      its deletion was lost. */
  lemma EntryLeftExactly(s: Shot, s': Shot, op: Op, tx: Postgres.TxWeather, inv: Invalidation, r: Result<Product>, id: string)
    requires inv.Terminates() && WriteMoves(STILL, s, s', op, tx, inv, r) && ScansOnlyLists(inv)
    ensures Cached(s', ProductKey(id)).Some? <==>
            Cached(s, ProductKey(id)).Some? && (r.Err? || Target(op) != Some(id) || inv.delete.Lost?)
  {
    WriteOnlyRemoves(s, s', op, tx, inv, r);
    FamiliesApart(id, 0, 0);
    assert !PageDeleted(inv, ProductKey(id));
    ListsLeft(WithoutProduct(s.store, Target(op), inv), inv, ProductKey(id));
    if Target(op).Some? && ProductKey(Target(op).value) == ProductKey(id) {
      ProductKeysDiffer(Target(op).value, id);
    }
    hide WriteMoves, WithoutLists, PageDeleted, ScansOnlyLists, ProductKey;
  }

  /** The scan went through a full cycle that found the key, and the deletion took effect. */
  ghost predicate PageDeleted(inv: Invalidation, key: string) {
    !inv.deleteList.Lost? && exists n: nat :: Cycle(inv.replies, n) && Found(inv.replies, n, key)
  }

  /** The pages' deletion takes exactly that much from a store. */
  lemma ListsLeft(store: Store, inv: Invalidation, key: string)
    requires inv.Terminates()
    ensures var left := WithoutLists(store, inv);
            (key in left <==> key in store && !PageDeleted(inv, key)) && (key in left ==> left[key] == store[key])
  {
    var n := LastCall(inv.replies);
    LastCallIsEnd(inv.replies);
    forall m: nat | Cycle(inv.replies, m)
      ensures m == n
    {
      CycleEnds(inv.replies, m);
    }
    if inv.replies[n].Keys? {
      CycleEnds(inv.replies, n);
      assert key in Collected(inv.replies[..n + 1]) <==> Found(inv.replies, n, key);
    }
    hide Found, Collected, Cycle;
  }

  /** A page survives a write exactly when the write was refused or its invalidation did not reach the page. */
  lemma PageLeftExactly(s: Shot, s': Shot, op: Op, tx: Postgres.TxWeather, inv: Invalidation, r: Result<Product>,
                        limit: nat, offset: nat)
    requires inv.Terminates() && WriteMoves(STILL, s, s', op, tx, inv, r)
    ensures Cached(s', ListKey(limit, offset)).Some? <==>
            Cached(s, ListKey(limit, offset)).Some? && (r.Err? || !PageDeleted(inv, ListKey(limit, offset)))
  {
    WriteOnlyRemoves(s, s', op, tx, inv, r);
    if Target(op).Some? {
      FamiliesApart(Target(op).value, limit, offset);
    }
    ListsLeft(WithoutProduct(s.store, Target(op), inv), inv, ListKey(limit, offset));
    hide WriteMoves, WithoutLists, PageDeleted, ListKey, ProductKey;
  }

  /** The read after a write is faithful if and only if no live entry is left or the write did not change what
      the entry says. */
  lemma ReadAfterWriteExactly(s: Shot, s': Shot, s'': Shot, op: Op, tx: Postgres.TxWeather, inv: Invalidation,
                              r: Result<Product>, ttl: nat, id: string, read: ReadWeather, got: Result<Product>)
    requires Coherent(s) && inv.Terminates() && WriteMoves(STILL, s, s', op, tx, inv, r)
    requires GetMoves(STILL, s', s'', ttl, id, read, got) && !read.getFails
    ensures Faithful(s', Get(id, read, got)) <==>
            Cached(s', ProductKey(id)).None? ||
            (id in s.products && id in s'.products && s'.products[id] == s.products[id])
  {
    WriteOnlyRemoves(s, s', op, tx, inv, r);
  }

  lemma PageAfterWriteExactly(s: Shot, s': Shot, s'': Shot, op: Op, tx: Postgres.TxWeather, inv: Invalidation,
                              r: Result<Product>, ttl: nat, limit: nat, offset: nat, read: PageWeather,
                              got: Result<seq<Product>>)
    requires Coherent(s) && inv.Terminates() && WriteMoves(STILL, s, s', op, tx, inv, r)
    requires ListMoves(STILL, s', s'', ttl, limit, offset, read, got) && !read.getFails
    ensures Faithful(s', ListPage(limit, offset, read, got)) <==>
            Cached(s', ListKey(limit, offset)).None? || Page(s'.products, limit, offset) == Page(s.products, limit, offset)
  {
    WriteOnlyRemoves(s, s', op, tx, inv, r);
  }

  /** The product's case in full: after a stock change that was committed, the next read of the product is
      faithful if and only if nothing was cached, or the call was accepted and its deletion took effect. */
  lemma MissedInvalidationServesStale(s: Shot, s': Shot, s'': Shot, id: string, delta: Int32, tx: Postgres.TxWeather,
                                      inv: Invalidation, r: Result<Product>, ttl: nat, read: ReadWeather, got: Result<Product>)
    requires Coherent(s) && delta != 0 && s'.products != s.products
    requires inv.Terminates() && ScansOnlyLists(inv) && WriteMoves(STILL, s, s', AddStock(id, delta), tx, inv, r)
    requires GetMoves(STILL, s', s'', ttl, id, read, got) && !read.getFails
    ensures Faithful(s', Get(id, read, got)) <==>
            Cached(s, ProductKey(id)).None? || (r.Ok? && !inv.delete.Lost?)
  {
    hide Coherent, Faithful, ScansOnlyLists;
    EntryLeftExactly(s, s', AddStock(id, delta), tx, inv, r, id);
    ReadAfterWriteExactly(s, s', s'', AddStock(id, delta), tx, inv, r, ttl, id, read, got);
    StockChanged(s, s', id, delta, tx, inv, r);
  }

  lemma StockChanged(s: Shot, s': Shot, id: string, delta: Int32, tx: Postgres.TxWeather, inv: Invalidation, r: Result<Product>)
    requires Coherent(s) && delta != 0 && s'.products != s.products
    requires inv.Terminates() && WriteMoves(STILL, s, s', AddStock(id, delta), tx, inv, r)
    ensures id in s.products && id in s'.products && s'.products[id] != s.products[id]
  {
    if r.Ok? {
      StillInvalidated(s.(products := s.products[r.value.id := r.value]), AddStock(id, delta), inv);
    }
  }
}
