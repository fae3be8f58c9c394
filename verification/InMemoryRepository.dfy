/** The repository that keeps products in a slice and, beside it, in a map by id. */
module InMemoryRepository {
  import opened Domain
  import opened Decimal
  import opened Listing
  import opened Shop

  const DEFAULT_PRODUCTS: seq<Product> := [
    Product("prod-001", "SKU-TSHIRT-001", "Go T-Shirt", "Soft cotton t-shirt with Go gopher print", 2499, "USD", 42, true),
    Product("prod-002", "SKU-MUG-001", "Observability Mug", "Ceramic mug for logs, metrics and traces discussions", 1599, "USD", 30, true),
    Product("prod-003", "SKU-STICKER-001", "Telemetry Stickers Pack", "Stickers pack with Kafka, Prometheus and Jaeger themes", 799, "USD", 120, true),
    Product("prod-004", "SKU-HOODIE-001", "SRE Hoodie", "Warm hoodie for incident response nights", 5999, "USD", 12, true),
    Product("prod-005", "SKU-NOTEBOOK-001", "Runbook Notebook", "Notebook for runbooks, postmortems and debug notes", 1299, "USD", 55, true)
  ]

  class ProductRepository {
    var products: seq<Product>
    var byID: map<string, Product>

    /** Slice and map tell the same story. */
    ghost predicate Valid()
      reads this
    {
      Distinct(products) && byID == Index(products)
    }

    constructor ()
      ensures products == [] && byID == map[]
    {
      products, byID := [], map[];
    }

    method List(limit: nat, offset: nat, canceled: bool) returns (r: Result<seq<Product>>)
      ensures canceled ==> r == Err(Canceled)
      ensures !canceled ==> r == Ok(Slice(products, limit, offset))
    {
      if canceled {
        return Err(Canceled);
      }
      if offset >= |products| {
        return Ok([]);
      }
      var end := offset + limit;
      if end > |products| {
        end := |products|;
      }
      assert products[offset..end] == Slice(products, limit, offset);
      return Ok(products[offset..end]);
    }

    method GetByID(id: string, canceled: bool) returns (r: Result<Product>)
      ensures canceled ==> r == Err(Canceled)
      ensures !canceled ==> r == if id in byID then Ok(byID[id]) else Err(NotFound)
      ensures !canceled && Valid() ==> r == match Find(products, id) case None => Err(NotFound) case Some(i) => Ok(products[i])
    {
      if Valid() {
        IndexFind(products, id);
      }
      if canceled {
        return Err(Canceled);
      }
      if id !in byID {
        return Err(NotFound);
      }
      return Ok(byID[id]);
    }

    /** Nothing is asked of the store. The map follows the slice; both stay in step, and ids distinct, if there was
        room for the generated id. */
    method Create(cmd: CreateCommand) returns (r: Result<Product>)
      modifies this
      ensures r == Answer(old(products), Call.Create(cmd)) && products == Next(old(products), Call.Create(cmd))
      ensures r.Ok? <==> forall i | 0 <= i < |old(products)| :: old(products)[i].sku != cmd.sku
      ensures r.Ok? ==>
                && r.value.id == "prod-" + Digits(|old(products)| + 1)
                && r.value.sku == cmd.sku && r.value.name == cmd.name && r.value.description == cmd.description
                && r.value.priceCents == cmd.priceCents && r.value.currency == cmd.currency
                && r.value.stock == cmd.stock && r.value.active
                && products == old(products) + [r.value]
      ensures r.Err? ==> r.error == AlreadyExists && products == old(products)
      ensures byID == if r.Ok? then old(byID)[r.value.id := r.value] else old(byID)
      ensures old(byID) == Index(old(products)) ==> byID == Index(products)
      ensures old(Good(products) && Valid()) ==> Good(products) && Valid()
    {
      if Good(products) {
        NextIsGood(products, Call.Create(cmd));
      }
      var i := 0;
      while i < |products|
        invariant i <= |products|
        invariant forall j | 0 <= j < i :: products[j].sku != cmd.sku
      {
        if products[i].sku == cmd.sku {
          return Err(AlreadyExists);
        }
        i := i + 1;
      }
      var product := cmd.Build("prod-" + Digits(|products| + 1));
      products := products + [product];
      byID := byID[product.id := product];
      assert products[..|products| - 1] == old(products);
      return Ok(product);
    }

    method Update(cmd: UpdateCommand) returns (r: Result<Product>)
      modifies this
      ensures cmd.id !in old(byID) ==> r == Err(NotFound) && products == old(products) && byID == old(byID)
      ensures cmd.id in old(byID) ==> r == Ok(cmd.Patch(old(byID)[cmd.id])) && Replaced(old(products), old(byID), r.value)
      ensures old(Valid()) ==>
                && Valid() && (old(Good(products)) ==> Good(products))
                && r == Answer(old(products), Call.Update(cmd)) && products == Next(old(products), Call.Update(cmd))
    {
      if Valid() {
        InStep(products, Call.Update(cmd), cmd.id);
      }
      if cmd.id !in byID {
        return Err(NotFound);
      }
      var product := byID[cmd.id];
      if cmd.name.Some? {
        product := product.(name := cmd.name.value);
      }
      if cmd.description.Some? {
        product := product.(description := cmd.description.value);
      }
      if cmd.priceCents.Some? {
        product := product.(priceCents := cmd.priceCents.value);
      }
      if cmd.active.Some? {
        product := product.(active := cmd.active.value);
      }
      Replace(product);
      return Ok(product);
    }

    method UpdateStock(productId: string, delta: Int32) returns (r: Result<Product>)
      modifies this
      ensures productId !in old(byID) ==> r == Err(NotFound)
      ensures productId in old(byID) ==>
                var sum := Wrap32(old(byID)[productId].stock + delta);
                r == if sum < 0 then Err(InsufficientStock) else Ok(old(byID)[productId].(stock := sum))
      ensures if r.Ok? then Replaced(old(products), old(byID), r.value) else products == old(products) && byID == old(byID)
      ensures old(Valid()) ==>
                && Valid() && (old(Good(products)) ==> Good(products))
                && r == Answer(old(products), Call.UpdateStock(productId, delta))
                && products == Next(old(products), Call.UpdateStock(productId, delta))
    {
      hide Wrap32, Index, Good;
      if Valid() {
        InStep(products, Call.UpdateStock(productId, delta), productId);
      }
      if productId !in byID {
        return Err(NotFound);
      }
      var product := byID[productId];
      var newStock := Wrap32(product.stock + delta);
      if newStock < 0 {
        return Err(InsufficientStock);
      }
      product := product.(stock := newStock);
      Replace(product);
      return Ok(product);
    }

    /** The product has been put into the map under its id and in place of the first slice element with it. */
    ghost predicate Replaced(before: seq<Product>, index: map<string, Product>, product: Product)
      reads this
    {
      && byID == index[product.id := product]
      && products == ReplaceFirst(before, product)
    }

    /** The end of both updates: the map entry, then the first slice element with the same id. */
    method Replace(product: Product)
      modifies this
      ensures Replaced(old(products), old(byID), product)
    {
      byID := byID[product.id := product];
      var i := 0;
      while i < |products|
        invariant i <= |products|
        invariant products == old(products)
        invariant forall j | 0 <= j < i :: products[j].id != product.id
      {
        if products[i].id == product.id {
          products := products[i := product];
          FirstFound(old(products), product.id, i);
          return;
        }
        i := i + 1;
      }
    }
  }

  function ReplaceFirst(products: seq<Product>, product: Product): seq<Product> {
    match Find(products, product.id)
    case None => products
    case Some(i) => products[i := product]
  }

  lemma FirstFound(products: seq<Product>, id: string, i: nat)
    requires i < |products| && products[i].id == id && forall j | 0 <= j < i :: products[j].id != id
    ensures Find(products, id) == Some(i)
  {
  }

  /** In a store whose slice and map are in step, changing the product `id` changes both alike. */
  lemma InStep(products: seq<Product>, call: Call, id: string)
    requires Distinct(products) && !call.Create? && id == (if call.Update? then call.update.id else call.id)
    ensures id in Index(products) <==> Find(products, id).Some?
    ensures id in Index(products) ==> Index(products)[id] == products[Find(products, id).value]
    ensures Distinct(Next(products, call)) && (Good(products) ==> Good(Next(products, call)))
    ensures Answer(products, call).Ok? ==>
              var p := Answer(products, call).value;
              Next(products, call) == ReplaceFirst(products, p) && Index(Next(products, call)) == Index(products)[p.id := p]
  {
    IndexFind(products, id);
    if Good(products) {
      NextIsGood(products, call);
    }
    if Answer(products, call).Ok? {
      var p, i := Answer(products, call).value, Find(products, id).value;
      assert products[i].id == p.id && products[i].sku == p.sku;
      IndexReplace(products, p, i);
    }
  }

  lemma {:induction false} IndexReplace(products: seq<Product>, product: Product, i: nat)
    requires i < |products| && products[i].id == product.id
    requires forall j | 0 <= j < |products| && j != i :: products[j].id != product.id
    ensures Index(products[i := product]) == Index(products)[product.id := product]
  {
    var n := |products| - 1;
    if i == n {
      assert products[i := product][..n] == products[..n];
    } else {
      IndexReplace(products[..n], product, i);
      assert products[i := product][..n] == products[..n][i := product];
      assert products[n].id != product.id;
    }
  }

  /** Builds a repository from a seed, or from the default products when there is none; a seed with an
      invalid product is refused with the first fault. */
  method NewProductRepository(seed: seq<Product>) returns (r: Result<ProductRepository>)
    ensures var source := if seed == [] then DEFAULT_PRODUCTS else seed;
            && (r.Ok? <==> forall i | 0 <= i < |source| :: IsValid(source[i]))
            && (r.Ok? ==> fresh(r.value) && r.value.products == source && r.value.byID == Index(source))
            && (r.Ok? && Distinct(source) ==> r.value.Valid())
            && (r.Err? ==> FirstFault(source, r.error))
  {
    var source := seed;
    if source == [] {
      source := DEFAULT_PRODUCTS;
    }
    hide IsValid, Product.Validate, Index, ProductRepository.Valid;
    var repo := new ProductRepository();
    assert Index([]) == map[] by { EmptyIndex(); }
    var i := 0;
    while i < |source|
      invariant i <= |source| && fresh(repo)
      invariant forall j | 0 <= j < i :: IsValid(source[j])
      invariant repo.products == source[..i] && repo.byID == Index(source[..i])
    {
      ValidateIsValid(source[i]);
      var fault := source[i].Validate();
      if fault.Some? {
        FirstFaultFound(source, i);
        return Err(InvalidProduct(fault.value));
      }
      repo.products := repo.products + [source[i]];
      repo.byID := repo.byID[source[i].id := source[i]];
      IndexAppend(source[..i], source[i]);
      assert source[..i + 1] == source[..i] + [source[i]];
      i := i + 1;
    }
    assert source[..i] == source;
    if Distinct(source) {
      IsInStep(repo);
    }
    return Ok(repo);
  }

  lemma IsInStep(repo: ProductRepository)
    requires Distinct(repo.products) && repo.byID == Index(repo.products)
    ensures repo.Valid()
  {
  }

  lemma EmptyIndex()
    ensures Index([]) == map[]
  {
  }

  lemma IndexAppend(products: seq<Product>, p: Product)
    ensures Index(products + [p]) == Index(products)[p.id := p]
  {
    assert (products + [p])[..|products|] == products;
  }

  /** The error names the first fault of the first invalid product. */
  ghost predicate FirstFault(source: seq<Product>, error: Error) {
    exists i: nat, f: Fault ::
      && i < |source| && error == InvalidProduct(f)
      && (forall j | 0 <= j < i :: IsValid(source[j]))
      && ProductHas(source[i], f) && forall g | Rank(g) < Rank(f) :: !ProductHas(source[i], g)
  }

  lemma FirstFaultFound(source: seq<Product>, i: nat)
    requires i < |source| && source[i].Validate().Some? && forall j | 0 <= j < i :: IsValid(source[j])
    ensures FirstFault(source, InvalidProduct(source[i].Validate().value))
  {
    var f := source[i].Validate().value;
    ProductFault(source[i], f);
    assert ProductHas(source[i], f);
  }

  lemma DefaultIdIsNotGenerated(suffix: string, k: nat)
    requires |suffix| == 3 && suffix[0] == '0' && k > 0
    ensures "prod-" + suffix != GeneratedId(k)
  {
    NoLeadingZero(k);
    assert ("prod-" + suffix)[5] == '0' && GeneratedId(k)[5] == Digits(k)[0];
  }

  /** The default products make a safe seed, thanks to the leading zeros of their ids. */
  lemma DefaultSeedIsSafe()
    ensures Good(DEFAULT_PRODUCTS)
    ensures forall p | p in DEFAULT_PRODUCTS :: p.Validate().None?
  {
    var ids := ["001", "002", "003", "004", "005"];
    forall i, k: nat | 0 <= i < |DEFAULT_PRODUCTS| && |DEFAULT_PRODUCTS| < k
      ensures DEFAULT_PRODUCTS[i].id != GeneratedId(k)
    {
      assert DEFAULT_PRODUCTS[i].id == "prod-" + ids[i];
      DefaultIdIsNotGenerated(ids[i], k);
    }
    forall i, j | 0 <= i < j < |DEFAULT_PRODUCTS|
      ensures DEFAULT_PRODUCTS[i].id != DEFAULT_PRODUCTS[j].id
      ensures DEFAULT_PRODUCTS[i].sku != DEFAULT_PRODUCTS[j].sku
    {
      assert DEFAULT_PRODUCTS[i].id[7] != DEFAULT_PRODUCTS[j].id[7];
      SkuLetters(i);
      SkuLetters(j);
    }
  }

  lemma SkuLetters(i: nat)
    requires i < 5
    ensures DEFAULT_PRODUCTS[i].sku[4..6] == ["TS", "MU", "ST", "HO", "NO"][i]
  {
    assert "SKU-TSHIRT-001"[4..6] == "TS";
    assert "SKU-MUG-001"[4..6] == "MU";
    assert "SKU-STICKER-001"[4..6] == "ST";
    assert "SKU-HOODIE-001"[4..6] == "HO";
    assert "SKU-NOTEBOOK-001"[4..6] == "NO";
  }

  /** The default products by number. */
  lemma DefaultNumbersAre(i: nat)
    requires i < 5
    ensures |DEFAULT_PRODUCTS| == 5
    ensures DEFAULT_PRODUCTS[i].priceCents == [2499, 1599, 799, 5999, 1299][i]
    ensures DEFAULT_PRODUCTS[i].stock == [42, 30, 120, 12, 55][i]
    ensures DEFAULT_PRODUCTS[i].currency == "USD" && DEFAULT_PRODUCTS[i].active
  {
  }

  lemma DefaultIdsAre(i: nat)
    requires i < 5
    ensures DEFAULT_PRODUCTS[i].id == ["prod-001", "prod-002", "prod-003", "prod-004", "prod-005"][i]
    ensures DEFAULT_PRODUCTS[i].sku ==
            ["SKU-TSHIRT-001", "SKU-MUG-001", "SKU-STICKER-001", "SKU-HOODIE-001", "SKU-NOTEBOOK-001"][i]
  {
  }

  lemma DefaultNamesAre(i: nat)
    requires i < 5
    ensures DEFAULT_PRODUCTS[i].name ==
            ["Go T-Shirt", "Observability Mug", "Telemetry Stickers Pack", "SRE Hoodie", "Runbook Notebook"][i]
  {
  }
}
