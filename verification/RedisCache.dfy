/** The cache client: JSON documents under string keys with an expiry, and the removal of all list keys.

    The store is shared, so between two calls of one operation other clients may have changed it; where
    that matters the store that each call meets is a parameter. */
module RedisCache {
  import opened Domain
  import opened RedisKeys

  /** The documents the cache writes. Read as the other kind, a document has none of the expected fields,
      so decoding yields an empty product or an empty page rather than an error. */
  datatype Document = ProductDocument(product: Product) | PageDocument(items: seq<Product>)

  const ZERO_PRODUCT := Product("", "", "", "", 0, "", 0, false)

  function DecodeProduct(d: Document): Product {
    if d.ProductDocument? then d.product else ZERO_PRODUCT
  }

  function DecodePage(d: Document): seq<Product> {
    if d.PageDocument? then d.items else []
  }

  datatype Entry = Entry(document: Document, expiresAt: nat)

  type Store = map<string, Entry>

  /** A write call succeeds, fails, or fails although it took effect. */
  datatype Fate = Done | Lost | DoneUnseen

  /** One answer of SCAN, with the cursor to go on with. */
  datatype ScanReply = Keys(keys: seq<string>, cursor: nat) | ScanFails

  predicate Ends(r: ScanReply) {
    r.ScanFails? || r.cursor == 0
  }

  /** The call that ends the scan. */
  function LastCall(replies: seq<ScanReply>): (n: nat)
    requires exists i | 0 <= i < |replies| :: Ends(replies[i])
    ensures n < |replies| && Ends(replies[n]) && forall i | 0 <= i < n :: !Ends(replies[i])
  {
    if Ends(replies[0]) then 0
    else
      assert exists i | 0 <= i < |replies[1..]| :: Ends(replies[1..][i]) by {
        var i :| 0 <= i < |replies| && Ends(replies[i]);
        assert replies[1..][i - 1] == replies[i];
      }
      1 + LastCall(replies[1..])
  }

  function Collected(replies: seq<ScanReply>): seq<string>
    requires forall r | r in replies :: r.Keys?
  {
    if replies == [] then []
    else
      assert replies[|replies| - 1] in replies;
      Collected(replies[..|replies| - 1]) + replies[|replies| - 1].keys
  }

  function Without(store: Store, keys: seq<string>): Store {
    map k | k in store && k !in keys :: store[k]
  }

  class Cache {
    var store: Store
    var now: nat
    const ttl: nat

    constructor (ttl: nat)
      requires ttl > 0
      ensures store == map[] && now == 0 && this.ttl == ttl
    {
      store, now := map[], 0;
      this.ttl := ttl;
    }

    /** What GET would find under a key. */
    function Live(key: string): Option<Document>
      reads this
    {
      if key in store && now < store[key].expiresAt then Some(store[key].document) else None
    }

    /** A hit, a miss, or an error. */
    method GetProduct(id: string, fails: bool) returns (r: Result<Option<Product>>)
      ensures fails ==> r == Err(CacheFailure)
      ensures !fails ==> r == Ok(match Live(ProductKey(id)) case None => None case Some(d) => Some(DecodeProduct(d)))
    {
      var key := ProductKey(id);
      if fails {
        return Err(CacheFailure);
      }
      if key !in store || store[key].expiresAt <= now {
        return Ok(None);
      }
      return Ok(Some(DecodeProduct(store[key].document)));
    }

    method SetProduct(product: Product, fate: Fate) returns (failed: bool)
      modifies this`store
      ensures failed <==> !fate.Done?
      ensures store == if fate.Lost? then old(store) else
                old(store)[ProductKey(product.id) := Entry(ProductDocument(product), now + ttl)]
    {
      if !fate.Lost? {
        store := store[ProductKey(product.id) := Entry(ProductDocument(product), now + ttl)];
      }
      failed := !fate.Done?;
    }

    method DeleteProduct(id: string, fate: Fate) returns (failed: bool)
      modifies this`store
      ensures failed <==> !fate.Done?
      ensures store == if fate.Lost? then old(store) else Without(old(store), [ProductKey(id)])
    {
      if !fate.Lost? {
        store := Without(store, [ProductKey(id)]);
      }
      failed := !fate.Done?;
    }

    method GetProductList(limit: int, offset: int, fails: bool) returns (r: Result<Option<seq<Product>>>)
      ensures fails ==> r == Err(CacheFailure)
      ensures !fails ==> r == Ok(match Live(ListKey(limit, offset)) case None => None case Some(d) => Some(DecodePage(d)))
    {
      var key := ListKey(limit, offset);
      if fails {
        return Err(CacheFailure);
      }
      if key !in store || store[key].expiresAt <= now {
        return Ok(None);
      }
      return Ok(Some(DecodePage(store[key].document)));
    }

    method SetProductList(limit: int, offset: int, items: seq<Product>, fate: Fate) returns (failed: bool)
      modifies this`store
      ensures failed <==> !fate.Done?
      ensures store == if fate.Lost? then old(store) else
                old(store)[ListKey(limit, offset) := Entry(PageDocument(items), now + ttl)]
    {
      if !fate.Lost? {
        store := store[ListKey(limit, offset) := Entry(PageDocument(items), now + ttl)];
      }
      failed := !fate.Done?;
    }

    /** SCAN until the cursor comes back as zero, then one DEL of everything found. `world[i]` is the store
        the i-th SCAN meets and `world[n + 1]` the one the DEL meets, if the n-th SCAN is the last. */
    method InvalidateListCache(replies: seq<ScanReply>, world: seq<Store>, fate: Fate) returns (failed: bool)
      requires exists i | 0 <= i < |replies| :: Ends(replies[i])
      requires |world| == |replies| + 1
      modifies this`store
      ensures Removes(replies, world, fate, failed, store)
      ensures KeepsPromise(replies, world, fate, failed, store)
    {
      hide KeepsPromise, Cycle, BreaksOff, Found, LastCall, Without;
      var keysToDelete: seq<string> := [];
      var i := 0;
      while true
        invariant i <= LastCall(replies)
        invariant forall r | r in replies[..i] :: r.Keys?
        invariant keysToDelete == Collected(replies[..i])
        decreases |replies| - i
      {
        store := world[i];
        if replies[i].ScanFails? {
          failed := true;
          RemovalKeepsPromise(replies, world, fate, failed, store);
          return;
        }
        assert replies[..i + 1][..i] == replies[..i];
        assert forall r | r in replies[..i + 1] :: r in replies[..i] || r == replies[i];
        keysToDelete := keysToDelete + replies[i].keys;
        i := i + 1;
        if replies[i - 1].cursor == 0 {
          break;
        }
      }
      if keysToDelete == [] {
        failed := false;
        RemovalKeepsPromise(replies, world, fate, failed, store);
        return;
      }
      store := world[i];
      if !fate.Lost? {
        store := Without(store, keysToDelete);
      }
      failed := !fate.Done?;
      RemovalKeepsPromise(replies, world, fate, failed, store);
    }
  }

  /** What the loop does, in its own terms: it stops at its last call, and deletes what it collected. */
  ghost predicate Removes(replies: seq<ScanReply>, world: seq<Store>, fate: Fate, failed: bool, store: Store)
    requires (exists i | 0 <= i < |replies| :: Ends(replies[i])) && |world| == |replies| + 1
  {
    var n := LastCall(replies);
    if replies[n].ScanFails? then failed && store == world[n]
    else
      var keys := Collected(replies[..n + 1]);
      if keys == [] then !failed && store == world[n]
      else (failed <==> !fate.Done?) && store == if fate.Lost? then world[n + 1] else Without(world[n + 1], keys)
  }

  // ---------- what Redis promises, and what follows ----------

  /** The scan's cursor comes back as zero at call `n`, for the first time, and no call before has failed. */
  ghost predicate Cycle(replies: seq<ScanReply>, n: nat) {
    && n < |replies|
    && (forall i | 0 <= i <= n :: replies[i].Keys?)
    && (forall i | 0 <= i < n :: replies[i].cursor != 0)
    && replies[n].cursor == 0
  }

  /** Call `n` fails while the cursor is still on its way. */
  ghost predicate BreaksOff(replies: seq<ScanReply>, n: nat) {
    && n < |replies|
    && (forall i | 0 <= i < n :: replies[i].Keys? && replies[i].cursor != 0)
    && replies[n].ScanFails?
  }

  /** One of the calls up to the n-th returned the key. */
  ghost predicate Found(replies: seq<ScanReply>, n: nat, k: string) {
    exists i :: 0 <= i <= n && i < |replies| && replies[i].Keys? && k in replies[i].keys
  }

  /** The promise is about full cycles only: a cycle returns nothing that does not match the pattern, and every
      matching key that was there at each of its calls at least once. */
  ghost predicate ScanPromise(replies: seq<ScanReply>, world: seq<Store>, n: nat)
    requires Cycle(replies, n) && n < |world|
  {
    && (forall k | Found(replies, n, k) :: Glob(LIST_PATTERN, k))
    && (forall k | Glob(LIST_PATTERN, k) && (forall i | 0 <= i <= n :: k in world[i]) :: Found(replies, n, k))
  }

  /** The store that the last call of an invalidation meets: the DEL, or the last SCAN if there is nothing to
      delete. */
  ghost function LastMet(replies: seq<ScanReply>, world: seq<Store>, n: nat): Store
    requires n + 1 < |world|
  {
    if exists k :: Found(replies, n, k) then world[n + 1] else world[n]
  }

  ghost predicate Unchanged(a: Store, b: Store, key: string) {
    (key in a <==> key in b) && (key in a ==> a[key] == b[key])
  }

  /** No list key that was there throughout is left, and every product key is as the last call met it. */
  ghost predicate Cleared(replies: seq<ScanReply>, world: seq<Store>, n: nat, store: Store)
    requires n + 1 < |world|
  {
    && (forall limit, offset | (forall i | 0 <= i <= n :: ListKey(limit, offset) in world[i]) :: ListKey(limit, offset) !in store)
    && (forall id :: Unchanged(LastMet(replies, world, n), store, ProductKey(id)))
  }

  /** What a caller gets: a scan that breaks off fails and deletes nothing; after a full cycle the call reports
      what became of the DEL, if one was needed, and if that took effect the list keys are gone. */
  ghost predicate KeepsPromise(replies: seq<ScanReply>, world: seq<Store>, fate: Fate, failed: bool, store: Store)
    requires |world| == |replies| + 1
  {
    && (forall n: nat | BreaksOff(replies, n) :: failed && store == world[n])
    && (forall n: nat | Cycle(replies, n) ::
          && (failed <==> (exists k :: Found(replies, n, k)) && !fate.Done?)
          && (fate.Lost? ==> store == LastMet(replies, world, n))
          && (!fate.Lost? && ScanPromise(replies, world, n) ==> Cleared(replies, world, n, store)))
  }

  lemma {:induction false} EndIsFirst(replies: seq<ScanReply>, n: nat)
    requires n < |replies| && Ends(replies[n]) && forall i | 0 <= i < n :: !Ends(replies[i])
    ensures LastCall(replies) == n
  {
    if n > 0 {
      assert !Ends(replies[0]);
      var rest := replies[1..];
      assert forall i | 0 <= i < n - 1 :: rest[i] == replies[i + 1];
      EndIsFirst(rest, n - 1);
    }
  }

  lemma {:induction false} CollectedIsFound(replies: seq<ScanReply>, n: nat, k: string)
    requires n < |replies| && forall i | 0 <= i <= n :: replies[i].Keys?
    ensures forall r | r in replies[..n + 1] :: r.Keys?
    ensures k in Collected(replies[..n + 1]) <==> Found(replies, n, k)
  {
    var prefix := replies[..n + 1];
    assert prefix[..n] == replies[..n];
    if n == 0 {
      assert Collected(prefix[..0]) == [];
    } else {
      CollectedIsFound(replies, n - 1, k);
    }
    assert Found(replies, n, k) <==> (n > 0 && Found(replies, n - 1, k)) || k in replies[n].keys;
  }

  /** The loop stops where the cycle ends, with the keys it found. */
  lemma CycleEnds(replies: seq<ScanReply>, n: nat)
    requires Cycle(replies, n)
    ensures Ends(replies[n]) && LastCall(replies) == n && forall r | r in replies[..n + 1] :: r.Keys?
    ensures forall k :: k in Collected(replies[..n + 1]) <==> Found(replies, n, k)
  {
    EndIsFirst(replies, n);
    forall k
      ensures k in Collected(replies[..n + 1]) <==> Found(replies, n, k)
    {
      CollectedIsFound(replies, n, k);
    }
  }

  lemma BreakEnds(replies: seq<ScanReply>, n: nat)
    requires BreaksOff(replies, n)
    ensures Ends(replies[n]) && LastCall(replies) == n
  {
    EndIsFirst(replies, n);
  }

  /** And it stops nowhere else. */
  lemma LastCallIsEnd(replies: seq<ScanReply>)
    requires exists i | 0 <= i < |replies| :: Ends(replies[i])
    ensures if replies[LastCall(replies)].Keys? then Cycle(replies, LastCall(replies)) else BreaksOff(replies, LastCall(replies))
  {
    var n := LastCall(replies);
    assert forall i | 0 <= i < n :: !Ends(replies[i]);
  }

  /** Invalidation is complete and precise: after a cycle and a DEL that took effect, no list key that was there
      throughout is left, and every product key is as the last store had it. */
  lemma InvalidationIsCompleteAndPrecise(replies: seq<ScanReply>, world: seq<Store>, n: nat, store: Store)
    requires Cycle(replies, n) && n + 1 < |world| && ScanPromise(replies, world, n)
    requires var last := LastMet(replies, world, n);
             forall k :: if Found(replies, n, k) then k !in store else Unchanged(last, store, k)
    ensures Cleared(replies, world, n, store)
  {
    forall limit, offset | (forall i | 0 <= i <= n :: ListKey(limit, offset) in world[i])
      ensures ListKey(limit, offset) !in store
    {
      FamiliesApart("", limit, offset);
      assert Found(replies, n, ListKey(limit, offset));
    }
    forall id
      ensures Unchanged(LastMet(replies, world, n), store, ProductKey(id))
    {
      FamiliesApart(id, 0, 0);
      assert !Found(replies, n, ProductKey(id));
    }
  }

  lemma SomeFound(replies: seq<ScanReply>, n: nat, keys: seq<string>)
    requires forall k :: k in keys <==> Found(replies, n, k)
    ensures (exists k :: Found(replies, n, k)) <==> keys != []
  {
    if keys != [] {
      assert keys[0] in keys;
    }
  }

  lemma RemovalAfterCycle(replies: seq<ScanReply>, world: seq<Store>, n: nat, fate: Fate, failed: bool, store: Store)
    requires Cycle(replies, n) && |world| == |replies| + 1 && (exists i | 0 <= i < |replies| :: Ends(replies[i]))
    requires Removes(replies, world, fate, failed, store)
    ensures failed <==> (exists k :: Found(replies, n, k)) && !fate.Done?
    ensures fate.Lost? ==> store == LastMet(replies, world, n)
    ensures !fate.Lost? && ScanPromise(replies, world, n) ==> Cleared(replies, world, n, store)
  {
    CycleEnds(replies, n);
    var keys := Collected(replies[..n + 1]);
    SomeFound(replies, n, keys);
    if !fate.Lost? && ScanPromise(replies, world, n) {
      hide ScanPromise, Found, Collected, Cleared;
      forall k
        ensures if Found(replies, n, k) then k !in store else Unchanged(LastMet(replies, world, n), store, k)
      {
      }
      InvalidationIsCompleteAndPrecise(replies, world, n, store);
    }
  }

  lemma RemovalKeepsPromise(replies: seq<ScanReply>, world: seq<Store>, fate: Fate, failed: bool, store: Store)
    requires |world| == |replies| + 1 && (exists i | 0 <= i < |replies| :: Ends(replies[i]))
    requires Removes(replies, world, fate, failed, store)
    ensures KeepsPromise(replies, world, fate, failed, store)
  {
    forall n: nat | BreaksOff(replies, n)
      ensures failed && store == world[n]
    {
      BreakEnds(replies, n);
    }
    forall n: nat | Cycle(replies, n)
      ensures failed <==> (exists k :: Found(replies, n, k)) && !fate.Done?
      ensures fate.Lost? ==> store == LastMet(replies, world, n)
      ensures !fate.Lost? && ScanPromise(replies, world, n) ==> Cleared(replies, world, n, store)
    {
      RemovalAfterCycle(replies, world, n, fate, failed, store);
    }
  }
}
