/** What every run of the in-memory shop keeps. */
module ShopProperties {
  import opened Domain
  import opened Decimal
  import opened Shop

  // ---------- which seeds are safe ----------

  lemma {:induction false} AfterCons(products: seq<Product>, call: Call, calls: seq<Call>)
    ensures After(products, [call] + calls) == After(Next(products, call), calls)
  {
    hide Next, Answer;
    if calls == [] {
      assert [call] + calls == [call] && [call][..0] == [];
      assert After(products, []) == products;
    } else {
      var init := calls[..|calls| - 1];
      AfterCons(products, call, init);
      assert ([call] + calls)[..|calls|] == [call] + init;
    }
  }

  /** A SKU longer than any in stock. */
  function NewSku(products: seq<Product>): string {
    if products == [] then "x" else NewSku(products[..|products| - 1]) + products[|products| - 1].sku
  }

  lemma {:induction false} NewSkuIsNew(products: seq<Product>)
    ensures NewSku(products) != ""
    ensures forall i | 0 <= i < |products| :: |products[i].sku| < |NewSku(products)|
  {
    if products != [] {
      NewSkuIsNew(products[..|products| - 1]);
      assert forall i | 0 <= i < |products| - 1 :: products[i] == products[..|products| - 1][i];
    }
  }

  function Filler(products: seq<Product>): Call {
    Create(CreateCommand(NewSku(products), "filler", "", 0, "USD", 0))
  }

  lemma FillerAppends(products: seq<Product>)
    ensures Answer(products, Filler(products)).Ok?
    ensures Next(products, Filler(products)) == products + [Answer(products, Filler(products)).value]
    ensures Answer(products, Filler(products)).value.id == GeneratedId(|products| + 1)
  {
    NewSkuIsNew(products);
  }

  /** An id like prod-k with k beyond the size of the list is a trap: enough creates run into it. */
  lemma {:induction false} TrapSprings(products: seq<Product>, i: nat, k: nat) returns (calls: seq<Call>)
    requires i < |products| && products[i].id == GeneratedId(k) && |products| < k
    ensures !Distinct(After(products, calls))
    decreases k - |products|
  {
    var c := Filler(products);
    var next := Next(products, c);
    FillerAppends(products);
    if k == |products| + 1 {
      calls := [c];
      AfterCons(products, c, []);
      assert [c] + [] == [c] && After(next, []) == next;
      assert next[i].id == next[|products|].id;
    } else {
      assert next[i].id == GeneratedId(k);
      var rest := TrapSprings(next, i, k);
      calls := [c] + rest;
      AfterCons(products, c, rest);
    }
  }

  /** Ids and SKUs stay distinct for ever if and only if the seed holds no id prod-k with k beyond its size. */
  lemma SafeSeeds(seed: seq<Product>)
    requires Distinct(seed)
    ensures RoomAhead(seed) <==> forall calls :: Distinct(After(seed, calls))
  {
    if RoomAhead(seed) {
      forall calls
        ensures Distinct(After(seed, calls))
      {
        RunIsGood(seed, calls);
      }
    } else {
      var i, k: nat :| 0 <= i < |seed| && |seed| < k && seed[i].id == GeneratedId(k);
      var calls := TrapSprings(seed, i, k);
    }
  }

  // ---------- stock ----------

  /** Two's complement keeps the value modulo 2^32. */
  lemma WrapIsModular(x: int)
    ensures (Wrap32(x) - x) % 0x1_0000_0000 == 0
  {
    var q := (x + 0x8000_0000) / 0x1_0000_0000;
    assert Wrap32(x) - x == -q * 0x1_0000_0000;
  }

  /** Adding in 32 bits and refusing negative results is the same as adding in the integers and refusing
      what does not fit. */
  lemma WrapIsExact(stock: Int32, delta: Int32)
    requires stock >= 0
    ensures Wrap32(stock + delta) >= 0 <==> 0 <= stock + delta <= 0x7fff_ffff
    ensures Wrap32(stock + delta) >= 0 ==> Wrap32(stock + delta) == stock + delta
  {
    var sum := stock + delta;
    if sum > 0x7fff_ffff {
      assert sum + 0x8000_0000 == 0x1_0000_0000 + (sum - 0x8000_0000);
    }
  }

  /** The deltas of the accepted stock calls on product `id`. */
  function AcceptedDeltas(products: seq<Product>, calls: seq<Call>, id: string): int {
    if calls == [] then 0
    else
      var init, c := calls[..|calls| - 1], calls[|calls| - 1];
      AcceptedDeltas(products, init, id) +
      if c.UpdateStock? && c.id == id && Answer(After(products, init), c).Ok? then c.delta else 0
  }

  ghost predicate NonNegative(products: seq<Product>) {
    forall i | 0 <= i < |products| :: products[i].stock >= 0
  }

  lemma NextKeepsPosition(products: seq<Product>, call: Call, i: nat)
    requires Good(products) && i < |products|
    ensures |products| <= |Next(products, call)|
    ensures Next(products, call)[i].id == products[i].id
    ensures Next(products, call)[i].stock ==
            if call.UpdateStock? && call.id == products[i].id && Answer(products, call).Ok?
            then Wrap32(products[i].stock + call.delta) else products[i].stock
  {
    if Answer(products, call).Ok? && !call.Create? {
      var j := Find(products, Answer(products, call).value.id).value;
      assert products[j].id == Answer(products, call).value.id;
      assert i != j ==> products[i].id != products[j].id;
    }
  }

  predicate CreatesStock(call: Call) {
    call.Create? ==> call.create.stock >= 0
  }

  lemma StockAt(products: seq<Product>, i: nat)
    requires NonNegative(products) && i < |products|
    ensures products[i].stock >= 0
  {
  }

  lemma FreshId(products: seq<Product>)
    requires RoomAhead(products)
    ensures Find(products, GeneratedId(|products| + 1)).None?
  {
  }

  lemma NextNonNegative(products: seq<Product>, call: Call)
    requires NonNegative(products) && CreatesStock(call)
    ensures NonNegative(Next(products, call))
  {
  }

  lemma FindAt(products: seq<Product>, i: nat)
    requires Distinct(products) && i < |products|
    ensures Find(products, products[i].id) == Some(i)
  {
  }

  /** One call moves a product's stock by exactly its accepted delta. */
  lemma NextConserves(products: seq<Product>, call: Call, i: nat)
    requires Good(products) && i < |products| && products[i].stock >= 0
    ensures |products| <= |Next(products, call)|
    ensures Next(products, call)[i].id == products[i].id
    ensures Next(products, call)[i].stock == products[i].stock +
            (if call.UpdateStock? && call.id == products[i].id && Answer(products, call).Ok? then call.delta else 0)
  {
    hide Next;
    NextKeepsPosition(products, call, i);
    if call.UpdateStock? && call.id == products[i].id {
      FindAt(products, i);
      WrapIsExact(products[i].stock, call.delta);
    }
  }

  /** Conservation: over any run, each product's stock is what it was plus the sum of the accepted deltas,
      it never turns negative, and no product moves or disappears. */
  lemma {:induction false} StockIsConserved(products: seq<Product>, calls: seq<Call>, i: nat)
    requires Good(products) && NonNegative(products) && i < |products|
    requires forall c | c in calls :: CreatesStock(c)
    ensures NonNegative(After(products, calls))
    ensures |products| <= |After(products, calls)| && After(products, calls)[i].id == products[i].id
    ensures After(products, calls)[i].stock == products[i].stock + AcceptedDeltas(products, calls, products[i].id)
  {
    hide Good, NonNegative, Next, Answer;
    if calls != [] {
      var init, c := calls[..|calls| - 1], calls[|calls| - 1];
      assert c in calls && forall x | x in init :: x in calls;
      StockIsConserved(products, init, i);
      RunIsGood(products, init);
      NextNonNegative(After(products, init), c);
      assert After(products, init)[i].stock >= 0 by { StockAt(After(products, init), i); }
      NextConserves(After(products, init), c, i);
    }
  }

  // ---------- products created on the way ----------

  lemma {:induction false} AfterJoin(products: seq<Product>, a: seq<Call>, b: seq<Call>)
    ensures After(products, a + b) == After(After(products, a), b)
  {
    hide Next;
    if b == [] {
      assert a + b == a;
    } else {
      assert (a + b)[..|a + b| - 1] == a + b[..|b| - 1];
      AfterJoin(products, a, b[..|b| - 1]);
    }
  }

  /** An accepted create puts the product of the command at the end of the list. */
  lemma CreatedIsLast(products: seq<Product>, cmd: CreateCommand)
    requires Answer(products, Create(cmd)).Ok?
    ensures var next, n := Next(products, Create(cmd)), |products|;
            && |next| == n + 1 && next[..n] == products
            && next[n] == Product("prod-" + Digits(n + 1), cmd.sku, cmd.name, cmd.description, cmd.priceCents, cmd.currency, cmd.stock, true)
  {
  }

  /** Conservation for a product created on the way: its first stock is the command's, and from then on its stock is
      that plus the accepted deltas, to the end of the run. */
  lemma StockOfCreated(products: seq<Product>, before: seq<Call>, cmd: CreateCommand, later: seq<Call>)
    requires Good(products) && NonNegative(products)
    requires forall c | c in before + [Create(cmd)] + later :: CreatesStock(c)
    requires Answer(After(products, before), Create(cmd)).Ok?
    ensures var start, n, end := After(products, before + [Create(cmd)]), |After(products, before)|,
                                 After(products, before + [Create(cmd)] + later);
            && n < |start| && n < |end|
            && end[n].id == start[n].id == "prod-" + Digits(n + 1)
            && end[n].stock == cmd.stock + AcceptedDeltas(start, later, start[n].id)
  {
    var now := After(products, before);
    var create := [Create(cmd)];
    var start := After(products, before + create);
    AfterCreate(products, before, cmd);
    AfterJoin(products, before + create, later);
    RunIsGood(products, before + create);
    forall c | c in before + create || c in later
      ensures CreatesStock(c)
    {
      assert c in before + create + later;
    }
    RunStaysNonNegative(products, before + create);
    hide *;
    StockIsConserved(start, later, |now|);
  }

  lemma AfterCreate(products: seq<Product>, before: seq<Call>, cmd: CreateCommand)
    requires Answer(After(products, before), Create(cmd)).Ok?
    ensures var now, start := After(products, before), After(products, before + [Create(cmd)]);
            |now| < |start| && start[|now|].id == "prod-" + Digits(|now| + 1) && start[|now|].stock == cmd.stock
  {
    CreatedIsLast(After(products, before), cmd);
    assert (before + [Create(cmd)])[..|before|] == before;
    hide Next, Answer, Digits;
  }

  lemma {:induction false} RunStaysNonNegative(products: seq<Product>, calls: seq<Call>)
    requires NonNegative(products) && forall c | c in calls :: CreatesStock(c)
    ensures NonNegative(After(products, calls))
  {
    if calls != [] {
      var init, c := calls[..|calls| - 1], calls[|calls| - 1];
      assert c in calls && forall x | x in init :: x in calls;
      RunStaysNonNegative(products, init);
      NextNonNegative(After(products, init), c);
    }
  }

  /** No product has a negative stock or price, ids and SKUs are distinct, and generated ids fresh. */
  ghost predicate Stocked(products: seq<Product>) {
    Good(products) && forall i | 0 <= i < |products| :: products[i].stock >= 0 && products[i].priceCents >= 0
  }

  /** The call asks for nothing that the database's CHECK constraints refuse whatever the table holds. The shop
      has no such constraints. */
  predicate Checked(call: Call) {
    match call
    case Create(cmd) => cmd.priceCents >= 0 && cmd.stock >= 0
    case Update(cmd) => cmd.priceCents.None? || cmd.priceCents.value >= 0
    case UpdateStock(_, _) => true
  }

  lemma NextIsStocked(products: seq<Product>, call: Call)
    requires Stocked(products) && Checked(call)
    ensures Stocked(Next(products, call))
  {
    NextIsGood(products, call);
  }
}
