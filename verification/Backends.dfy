/** The in-memory shop against the database, call by call and over whole runs.

    Both keep the same products under ids of their own: the shop numbers them, PostgreSQL's repository draws
    a new uuid. So everything is stated up to ids, for any choice of fresh ones. */
module Backends {
  import opened Domain
  import opened Database
  import opened Listing
  import opened Shop
  import opened ShopProperties

  // ---------- what the database can store ----------

  /** SKUs of this many characters surely fit the unique index. */
  const SKU_LIMIT := 600

  /** PostgreSQL has no text with U+0000 in it. */
  predicate Plain(s: string) {
    '\0' !in s
  }

  /** Text that the database can store or look up without fail. */
  predicate Storable(op: Op) {
    match op
    case Insert(id, c) =>
      Plain(id) && Plain(c.sku) && Plain(c.name) && Plain(c.description) && Plain(c.currency) && |c.sku| <= SKU_LIMIT
    case Change(u) =>
      Plain(u.id) && (u.name.Some? ==> Plain(u.name.value)) && (u.description.Some? ==> Plain(u.description.value))
    case AddStock(id, _) => Plain(id)
  }

  /** The assumption about text: `refuses` says which statements the database rejects for the sake of their text,
      whatever the table holds, and it rejects none whose text is storable. */
  ghost predicate RefusesOnlyUnstorable(refuses: Op -> bool) {
    forall op :: refuses(op) ==> !Storable(op)
  }

  function DbAnswer(refuses: Op -> bool, t: Table, op: Op): Result<Product> {
    if refuses(op) then Err(Storage) else Execute(t, op)
  }

  // ---------- the same products under other ids ----------

  /** The table holds the shop's products, the i-th under `ids[i]`. */
  ghost predicate Linked(products: seq<Product>, ids: seq<string>, t: Table) {
    && |ids| == |products|
    && (forall i, j | 0 <= i < j < |ids| :: ids[i] != ids[j])
    && (forall x :: x in t <==> x in ids)
    && (forall i | 0 <= i < |ids| :: ids[i] in t && t[ids[i]] == products[i].(id := ids[i]))
  }

  /** `name` is for the database what `id` is for the shop: the same product, or none. */
  ghost predicate Means(products: seq<Product>, ids: seq<string>, id: string, name: string) {
    match Find(products, id)
    case Some(i) => i < |ids| && name == ids[i]
    case None => name !in ids
  }

  /** The operation asks of the database what the call asks of the shop. A create comes with a fresh id. */
  ghost predicate Asks(products: seq<Product>, ids: seq<string>, call: Call, op: Op) {
    match call
    case Create(cmd) => op.Insert? && op.create == cmd && op.id !in ids
    case Update(cmd) =>
      op.Change? && op.update == cmd.(id := op.update.id) && Means(products, ids, cmd.id, op.update.id)
    case UpdateStock(id, delta) => op.AddStock? && op.delta == delta && Means(products, ids, id, op.productId)
  }

  predicate SameUpToId(db: Result<Product>, shop: Result<Product>) {
    match (db, shop)
    case (Ok(p), Ok(q)) => p == q.(id := p.id)
    case (Err(e), Err(f)) => e == f
    case (_, _) => false
  }

  lemma SkusLinked(products: seq<Product>, ids: seq<string>, t: Table, sku: string)
    requires Linked(products, ids, t)
    ensures SkuTaken(t, sku) <==> exists i | 0 <= i < |products| :: products[i].sku == sku
  {
    if i: nat :| i < |products| && products[i].sku == sku {
      assert ids[i] in t && t[ids[i]].sku == sku;
    }
    if id :| id in t && t[id].sku == sku {
      var i :| 0 <= i < |ids| && ids[i] == id;
      assert products[i].sku == sku;
    }
  }

  /** Where both find the product a call is about. */
  lemma FoundAlike(products: seq<Product>, ids: seq<string>, t: Table, id: string, name: string)
    requires Linked(products, ids, t) && Means(products, ids, id, name)
    ensures name in t <==> Find(products, id).Some?
    ensures name in t ==> t[name] == products[Find(products, id).value].(id := name)
  {
  }

  // ---------- one call ----------

  /** Creates get the same answer, up to the id, if and only if price and stock are not negative. */
  lemma CreatesAgreeExactly(products: seq<Product>, ids: seq<string>, t: Table, cmd: CreateCommand, newId: string)
    requires Linked(products, ids, t) && newId !in ids
    ensures SameUpToId(Execute(t, Insert(newId, cmd)), Answer(products, Create(cmd))) <==>
            cmd.priceCents >= 0 && cmd.stock >= 0
    ensures Execute(t, Insert(newId, cmd)).Ok? <==> Answer(products, Create(cmd)).Ok? && cmd.priceCents >= 0 && cmd.stock >= 0
  {
    SkusLinked(products, ids, t, cmd.sku);
    assert newId !in t;
    hide SkuTaken, Linked, GeneratedId;
  }

  /** Updates get the same answer, row or "not found", if and only if the command names no negative price for a
      product that exists. */
  lemma PatchesAgreeExactly(products: seq<Product>, ids: seq<string>, t: Table, cmd: UpdateCommand, name: string)
    requires Stocked(products) && Linked(products, ids, t) && Means(products, ids, cmd.id, name)
    ensures SameUpToId(Execute(t, Change(cmd.(id := name))), Answer(products, Update(cmd))) <==>
            Find(products, cmd.id).None? || cmd.priceCents.None? || cmd.priceCents.value >= 0
    ensures Execute(t, Change(cmd.(id := name))).Ok? <==>
            Answer(products, Update(cmd)).Ok? && (cmd.priceCents.None? || cmd.priceCents.value >= 0)
  {
    FoundAlike(products, ids, t, cmd.id, name);
    hide Linked, Means, Good;
  }

  /** Stock calls get the same answer if and only if the sum does not overflow: then the shop reports too little
      stock and the database an integer out of range. Both accept the same calls in any case. */
  lemma StocksAgreeExactly(products: seq<Product>, ids: seq<string>, t: Table, id: string, delta: Int32, name: string)
    requires Stocked(products) && Linked(products, ids, t) && Means(products, ids, id, name)
    ensures SameUpToId(Execute(t, AddStock(name, delta)), Answer(products, UpdateStock(id, delta))) <==>
            Find(products, id).None? || products[Find(products, id).value].stock + delta <= 0x7fff_ffff
    ensures Execute(t, AddStock(name, delta)).Ok? <==> Answer(products, UpdateStock(id, delta)).Ok?
  {
    hide Linked, Means, Good, Find, Wrap32;
    FoundAlike(products, ids, t, id, name);
    if Find(products, id).Some? {
      WrapIsExact(products[Find(products, id).value].stock, delta);
    } else {
      assert Answer(products, UpdateStock(id, delta)) == Err(NotFound);
    }
    hide Stocked;
  }

  /** Which calls the two backends answer alike, errors included. */
  predicate Alike(products: seq<Product>, call: Call) {
    match call
    case Create(cmd) => cmd.priceCents >= 0 && cmd.stock >= 0
    case Update(cmd) => Find(products, cmd.id).None? || cmd.priceCents.None? || cmd.priceCents.value >= 0
    case UpdateStock(id, delta) => Find(products, id).None? || products[Find(products, id).value].stock + delta <= 0x7fff_ffff
  }

  lemma NeverStorage(products: seq<Product>, call: Call)
    ensures Answer(products, call) != Err(Storage)
  {
  }

  /** The database accepts a call if and only if the shop does and the call asks for nothing the CHECK constraints
      refuse; the answers are the same if and only if the call is one of those above. */
  lemma ExecutesAlikeExactly(products: seq<Product>, ids: seq<string>, t: Table, call: Call, op: Op)
    requires Stocked(products) && Linked(products, ids, t) && Asks(products, ids, call, op)
    ensures SameUpToId(Execute(t, op), Answer(products, call)) <==> Alike(products, call)
    ensures Execute(t, op).Ok? <==> Answer(products, call).Ok? && Checked(call)
  {
    hide Stocked, Linked, Means, Execute, Answer, SameUpToId;
    match call
    case Create(cmd) => CreatesAgreeExactly(products, ids, t, cmd, op.id);
    case Update(cmd) => PatchesAgreeExactly(products, ids, t, cmd, op.update.id);
    case UpdateStock(id, delta) => StocksAgreeExactly(products, ids, t, id, delta, op.productId);
  }

  /** Both backends give the same answer, up to the id and errors included, if and only if the database can take
      the text, price and initial stock are not negative, and no stock sum overflows. */
  lemma AnswersAgreeExactly(refuses: Op -> bool, products: seq<Product>, ids: seq<string>, t: Table, call: Call, op: Op)
    requires Stocked(products) && Linked(products, ids, t) && Asks(products, ids, call, op)
    ensures SameUpToId(DbAnswer(refuses, t, op), Answer(products, call)) <==> !refuses(op) && Alike(products, call)
  {
    ExecutesAlikeExactly(products, ids, t, call, op);
    NeverStorage(products, call);
    hide Stocked, Linked, Asks, Execute, Answer, Alike;
  }

  // ---------- whole runs ----------

  /** The ids after a call: an accepted create adds its own. */
  function NextIds(products: seq<Product>, ids: seq<string>, call: Call, op: Op): seq<string> {
    if op.Insert? && Answer(products, call).Ok? then ids + [op.id] else ids
  }

  function NextTable(refuses: Op -> bool, t: Table, op: Op): Table {
    match DbAnswer(refuses, t, op)
    case Ok(p) => t[p.id := p]
    case Err(_) => t
  }

  lemma AppendStaysLinked(products: seq<Product>, ids: seq<string>, t: Table, p: Product, newId: string)
    requires Linked(products, ids, t) && newId !in ids
    ensures Linked(products + [p], ids + [newId], t[newId := p.(id := newId)])
  {
    var t' := t[newId := p.(id := newId)];
    assert forall x :: x in ids + [newId] <==> x in ids || x == newId;
    forall i | 0 <= i < |ids|
      ensures ids[i] != newId && t'[ids[i]] == t[ids[i]]
    {
    }
  }

  lemma ReplaceStaysLinked(products: seq<Product>, ids: seq<string>, t: Table, i: nat, p: Product)
    requires Linked(products, ids, t) && i < |ids|
    ensures Linked(products[i := p], ids, t[ids[i] := p.(id := ids[i])])
  {
  }

  /** A call that respects the CHECK constraints and whose text the database takes leaves both with the same
      products, whether it is accepted or not. */
  lemma CallStaysLinked(refuses: Op -> bool, products: seq<Product>, ids: seq<string>, t: Table, call: Call, op: Op)
    requires Stocked(products) && Linked(products, ids, t) && Asks(products, ids, call, op)
    requires Checked(call) && !refuses(op)
    ensures Linked(Next(products, call), NextIds(products, ids, call, op), NextTable(refuses, t, op))
  {
    ExecutesAlikeExactly(products, ids, t, call, op);
    if Answer(products, call).Ok? {
      match call
      case Create(cmd) =>
        AppendStaysLinked(products, ids, t, Answer(products, call).value, op.id);
      case Update(cmd) => ChangeStaysLinked(products, ids, t, call, op, cmd.id, op.update.id);
      case UpdateStock(id, delta) => StockStaysLinked(products, ids, t, call, op);
    }
  }

  lemma ChangeStaysLinked(products: seq<Product>, ids: seq<string>, t: Table, call: Call, op: Op, id: string, name: string)
    requires Linked(products, ids, t) && call.Update? && op.Change? && op.update == call.update.(id := name)
    requires id == call.update.id && Means(products, ids, id, name) && Answer(products, call).Ok? && Execute(t, op).Ok?
    ensures Linked(Next(products, call), ids, t[Execute(t, op).value.id := Execute(t, op).value])
  {
    FoundAlike(products, ids, t, id, name);
    ReplaceStaysLinked(products, ids, t, Find(products, id).value, Answer(products, call).value);
  }

  lemma StockStaysLinked(products: seq<Product>, ids: seq<string>, t: Table, call: Call, op: Op)
    requires Stocked(products) && Linked(products, ids, t) && call.UpdateStock? && Asks(products, ids, call, op)
    requires Answer(products, call).Ok? && Execute(t, op).Ok?
    ensures Linked(Next(products, call), ids, t[Execute(t, op).value.id := Execute(t, op).value])
  {
    hide Linked, Good, Wrap32;
    FoundAlike(products, ids, t, call.id, op.productId);
    var i, p := Find(products, call.id).value, Answer(products, call).value;
    WrapIsExact(products[i].stock, call.delta);
    assert Next(products, call) == products[i := p];
    assert Execute(t, op).value == p.(id := op.productId);
    LinkedLength(products, ids, t);
    hide Stocked, Means, Next, Answer, Execute;
    ReplaceStaysLinked(products, ids, t, i, p);
  }

  /** What one client does to the shop, and another to the database. */
  datatype Pair = Pair(call: Call, op: Op)

  function CallsOf(pairs: seq<Pair>): seq<Call> {
    if pairs == [] then [] else CallsOf(pairs[..|pairs| - 1]) + [pairs[|pairs| - 1].call]
  }

  function IdsAfter(products: seq<Product>, ids: seq<string>, pairs: seq<Pair>): seq<string> {
    if pairs == [] then ids
    else
      var init, last := pairs[..|pairs| - 1], pairs[|pairs| - 1];
      NextIds(After(products, CallsOf(init)), IdsAfter(products, ids, init), last.call, last.op)
  }

  function TableAfter(refuses: Op -> bool, t: Table, pairs: seq<Pair>): Table {
    if pairs == [] then t else NextTable(refuses, TableAfter(refuses, t, pairs[..|pairs| - 1]), pairs[|pairs| - 1].op)
  }

  /** Each operation asks for what its call asks for, at the moment it comes. */
  ghost predicate Mirrored(products: seq<Product>, ids: seq<string>, pairs: seq<Pair>) {
    pairs == [] ||
    var init, last := pairs[..|pairs| - 1], pairs[|pairs| - 1];
    && Mirrored(products, ids, init)
    && Asks(After(products, CallsOf(init)), IdsAfter(products, ids, init), last.call, last.op)
  }

  lemma CallsOfSnoc(products: seq<Product>, pairs: seq<Pair>)
    requires pairs != []
    ensures After(products, CallsOf(pairs)) ==
            Next(After(products, CallsOf(pairs[..|pairs| - 1])), pairs[|pairs| - 1].call)
  {
    var init := CallsOf(pairs[..|pairs| - 1]);
    assert CallsOf(pairs)[..|init|] == init;
    hide Next;
  }

  /** Over any run of calls that respect the CHECK constraints, refused ones included, and whatever ids the
      database draws for new products: shop and database hold the same products at every moment. */
  lemma {:induction false} SameProductsThroughout(refuses: Op -> bool, products: seq<Product>, ids: seq<string>, t: Table,
                                                  pairs: seq<Pair>)
    requires Stocked(products) && Linked(products, ids, t) && RefusesOnlyUnstorable(refuses)
    requires Mirrored(products, ids, pairs)
    requires forall s | s in pairs :: Checked(s.call) && Storable(s.op)
    ensures Stocked(After(products, CallsOf(pairs)))
    ensures Linked(After(products, CallsOf(pairs)), IdsAfter(products, ids, pairs), TableAfter(refuses, t, pairs))
  {
    hide Stocked, Linked, Asks, Checked, Storable, Next, NextIds, NextTable;
    if pairs != [] {
      var init, last := pairs[..|pairs| - 1], pairs[|pairs| - 1];
      assert last in pairs && forall s | s in init :: s in pairs;
      SameProductsThroughout(refuses, products, ids, t, init);
      CallsOfSnoc(products, pairs);
      NextIsStocked(After(products, CallsOf(init)), last.call);
      CallStaysLinked(refuses, After(products, CallsOf(init)), IdsAfter(products, ids, init), TableAfter(refuses, t, init),
                      last.call, last.op);
    }
  }

  function IdsOf(products: seq<Product>): seq<string> {
    seq(|products|, i requires 0 <= i < |products| => products[i].id)
  }

  /** Both can start from the same seed: a table with the seed's own ids. */
  lemma SeedIsLinked(products: seq<Product>)
    requires Distinct(products)
    ensures Linked(products, IdsOf(products), Index(products))
  {
    var ids, t := IdsOf(products), Index(products);
    forall x
      ensures x in t <==> x in ids
    {
      IndexFind(products, x);
      if Find(products, x).Some? {
        assert ids[Find(products, x).value] == x;
      }
    }
    forall i | 0 <= i < |ids|
      ensures ids[i] in t && t[ids[i]] == products[i]
    {
      FindAt(products, i);
      IndexFind(products, products[i].id);
    }
  }

  // ---------- listings ----------

  ghost predicate Increasing(ids: seq<string>) {
    forall i, j | 0 <= i < j < |ids| :: Precedes(ids[i], ids[j])
  }

  lemma Trichotomy(a: string, b: string)
    ensures a == b || Precedes(a, b) || Precedes(b, a)
    ensures !(Precedes(a, b) && Precedes(b, a)) && !Precedes(a, a)
  {
    LessTotal(a, b);
    LessIsPrecedes(a, b);
    LessIsPrecedes(b, a);
    LessIsPrecedes(a, a);
  }

  lemma {:induction false} SameSetSameOrder(a: seq<string>, b: seq<string>)
    requires Increasing(a) && Increasing(b) && forall x :: x in a <==> x in b
    ensures a == b
    decreases |a|
  {
    assert forall i | 0 <= i < |a| :: a[i] in b;
    assert forall i | 0 <= i < |b| :: b[i] in a;
    if a != [] && b != [] {
      assert a[0] in b && b[0] in a;
      Trichotomy(a[0], b[0]);
      assert a[0] == b[0];
      forall x
        ensures x in a[1..] <==> x in b[1..]
      {
        Trichotomy(a[0], a[0]);
        assert x in a <==> x == a[0] || x in a[1..];
        assert x in b <==> x == b[0] || x in b[1..];
      }
      SameSetSameOrder(a[1..], b[1..]);
      assert a == [a[0]] + a[1..] && b == [b[0]] + b[1..];
    }
  }

  /** Products without their ids. */
  function Anonymous(products: seq<Product>): seq<Product> {
    seq(|products|, i requires 0 <= i < |products| => products[i].(id := ""))
  }

  /** Every page of the shop is the database's, up to ids. */
  ghost predicate SamePages(products: seq<Product>, t: Table) {
    forall limit: nat, offset: nat :: Anonymous(Slice(products, limit, offset)) == Anonymous(Page(t, limit, offset))
  }

  lemma ListedInOrder(products: seq<Product>, ids: seq<string>, t: Table)
    requires Linked(products, ids, t) && Increasing(ids)
    ensures Anonymous(Listed(t)) == Anonymous(products) && |Listed(t)| == |products|
  {
    SortedIdsSpec(t.Keys);
    SameSetSameOrder(SortedIds(t.Keys), ids);
    forall i | 0 <= i < |products|
      ensures Listed(t)[i] == products[i].(id := ids[i])
    {
      assert Listed(t)[i] == t[ids[i]];
    }
  }

  lemma SliceAnonymous(a: seq<Product>, b: seq<Product>, limit: nat, offset: nat)
    requires Anonymous(a) == Anonymous(b) && |a| == |b|
    ensures Anonymous(Slice(a, limit, offset)) == Anonymous(Slice(b, limit, offset))
  {
    forall i | 0 <= i < |Slice(a, limit, offset)|
      ensures Slice(a, limit, offset)[i].(id := "") == Slice(b, limit, offset)[i].(id := "")
    {
      assert Anonymous(a)[offset + i] == Anonymous(b)[offset + i];
    }
  }

  /** SKUs tell products apart, so a row with the i-th product's SKU is its row. */
  lemma SkuNamesRow(products: seq<Product>, ids: seq<string>, t: Table, i: nat, x: string)
    requires Distinct(products) && Linked(products, ids, t) && i < |products| && x in t && t[x].sku == products[i].sku
    ensures x == ids[i]
  {
    var j :| 0 <= j < |ids| && ids[j] == x;
    assert t[ids[j]].sku == products[j].sku;
  }

  lemma SameListSameIds(products: seq<Product>, ids: seq<string>, t: Table)
    requires Distinct(products) && Linked(products, ids, t) && Anonymous(products) == Anonymous(Listed(t))
    ensures SortedIds(t.Keys) == ids
  {
    var sorted, listed := SortedIds(t.Keys), Listed(t);
    SortedIdsSpec(t.Keys);
    assert |Anonymous(products)| == |products| && |Anonymous(listed)| == |sorted|;
    hide Distinct, Linked, SortedIds;
    assert |ids| == |products| by { LinkedLength(products, ids, t); }
    forall i | 0 <= i < |ids|
      ensures sorted[i] == ids[i]
    {
      assert Anonymous(products)[i].sku == Anonymous(listed)[i].sku;
      assert sorted[i] in sorted;
      SkuNamesRow(products, ids, t, i, sorted[i]);
    }
  }

  lemma LinkedLength(products: seq<Product>, ids: seq<string>, t: Table)
    requires Linked(products, ids, t)
    ensures |ids| == |products|
  {
  }

  /** The shop lists products in the order of their creation, the database by id: all pages agree, up to ids, if
      and only if the database's ids came in increasing order. */
  lemma ListingsAgreeExactly(products: seq<Product>, ids: seq<string>, t: Table)
    requires Distinct(products) && Linked(products, ids, t)
    ensures SamePages(products, t) <==> Increasing(ids)
  {
    if Increasing(ids) {
      ListedInOrder(products, ids, t);
      forall limit: nat, offset: nat
        ensures Anonymous(Slice(products, limit, offset)) == Anonymous(Page(t, limit, offset))
      {
        SliceAnonymous(products, Listed(t), limit, offset);
      }
    }
    if SamePages(products, t) {
      var all := |products| + |Listed(t)|;
      assert Anonymous(Slice(products, all, 0)) == Anonymous(Page(t, all, 0));
      assert Slice(products, all, 0) == products && Page(t, all, 0) == Listed(t);
      SameListSameIds(products, ids, t);
      SortedIdsSpec(t.Keys);
    }
  }
}
