/** The in-memory shop as a value: a list of products and what each call makes of it. */
module Shop {
  import opened Domain
  import opened Decimal

  /** Two's complement on 32 bits. */
  function Wrap32(x: int): Int32 {
    (x + 0x8000_0000) % 0x1_0000_0000 - 0x8000_0000
  }

  function GeneratedId(k: nat): string {
    "prod-" + Digits(k)
  }

  /** Position of the first product with the given id. */
  function Find(products: seq<Product>, id: string): (r: Option<nat>)
    ensures r.Some? ==> r.value < |products| && products[r.value].id == id
    ensures r.Some? ==> forall i | 0 <= i < r.value :: products[i].id != id
    ensures r.None? ==> forall i | 0 <= i < |products| :: products[i].id != id
  {
    if products == [] then None
    else if products[0].id == id then Some(0)
    else
      match Find(products[1..], id)
      case None => None
      case Some(i) => Some(i + 1)
  }

  datatype Call = Create(create: CreateCommand) | Update(update: UpdateCommand) | UpdateStock(id: string, delta: Int32)

  /** The answer of a call. */
  function Answer(products: seq<Product>, call: Call): Result<Product> {
    match call
    case Create(cmd) =>
      if exists i | 0 <= i < |products| :: products[i].sku == cmd.sku then Err(AlreadyExists)
      else Ok(cmd.Build(GeneratedId(|products| + 1)))
    case Update(cmd) =>
      (match Find(products, cmd.id)
       case None => Err(NotFound)
       case Some(i) => Ok(cmd.Patch(products[i])))
    case UpdateStock(id, delta) =>
      match Find(products, id)
      case None => Err(NotFound)
      case Some(i) =>
        var newStock := Wrap32(products[i].stock + delta);
        if newStock < 0 then Err(InsufficientStock) else Ok(products[i].(stock := newStock))
  }

  /** The list after a call: a refused call changes nothing, a created product goes last, any other replaces
      the product it came from. */
  function Next(products: seq<Product>, call: Call): seq<Product> {
    match Answer(products, call)
    case Err(_) => products
    case Ok(p) =>
      match Find(products, p.id)
      case Some(i) => if call.Create? then products + [p] else products[i := p]
      case None => products + [p]
  }

  function After(products: seq<Product>, calls: seq<Call>): seq<Product> {
    if calls == [] then products else Next(After(products, calls[..|calls| - 1]), calls[|calls| - 1])
  }

  ghost predicate Distinct(products: seq<Product>) {
    && (forall i, j | 0 <= i < j < |products| :: products[i].id != products[j].id)
    && (forall i, j | 0 <= i < j < |products| :: products[i].sku != products[j].sku)
  }

  /** No product has an id that a later create would generate. */
  ghost predicate RoomAhead(products: seq<Product>) {
    forall i, k: nat | 0 <= i < |products| && |products| < k :: products[i].id != GeneratedId(k)
  }

  ghost predicate Good(products: seq<Product>) {
    Distinct(products) && RoomAhead(products)
  }

  /** The index by id of a list. */
  function Index(products: seq<Product>): map<string, Product> {
    if products == [] then map[]
    else
      var last := products[|products| - 1];
      Index(products[..|products| - 1])[last.id := last]
  }

  lemma {:induction false} IndexFind(products: seq<Product>, id: string)
    requires Distinct(products)
    ensures id in Index(products) <==> Find(products, id).Some?
    ensures id in Index(products) ==> Index(products)[id] == products[Find(products, id).value]
  {
    if products != [] {
      var n := |products| - 1;
      IndexFind(products[..n], id);
      if id != products[n].id && Find(products[..n], id).Some? {
        assert products[Find(products[..n], id).value].id == id;
      }
    }
  }

  lemma GeneratedIdsDiffer(k: nat, m: nat)
    requires GeneratedId(k) == GeneratedId(m)
    ensures k == m
  {
    assert GeneratedId(k)[5..] == Digits(k) && GeneratedId(m)[5..] == Digits(m);
    DigitsDenote(k);
    DigitsDenote(m);
  }

  lemma AppendIsGood(products: seq<Product>, p: Product)
    requires Good(products) && p.id == GeneratedId(|products| + 1)
    requires forall i | 0 <= i < |products| :: products[i].sku != p.sku
    ensures Find(products, p.id).None?
    ensures Good(products + [p])
  {
    assert Find(products, p.id).None?;
    forall k: nat | |products| + 1 < k
      ensures p.id != GeneratedId(k)
    {
      if p.id == GeneratedId(k) {
        GeneratedIdsDiffer(|products| + 1, k);
      }
    }
  }

  lemma ReplaceIsGood(products: seq<Product>, i: nat, p: Product)
    requires Good(products) && i < |products| && p.id == products[i].id && p.sku == products[i].sku
    ensures Good(products[i := p])
  {
  }

  /** Ids and SKUs stay distinct and generated ids stay fresh. */
  lemma NextIsGood(products: seq<Product>, call: Call)
    requires Good(products)
    ensures Good(Next(products, call))
    ensures call.Create? && Answer(products, call).Ok? ==> Find(products, GeneratedId(|products| + 1)).None?
  {
    hide Good;
    if Answer(products, call).Ok? {
      var p := Answer(products, call).value;
      if call.Create? {
        AppendIsGood(products, p);
      } else {
        ReplaceIsGood(products, Find(products, p.id).value, p);
      }
    }
  }

  lemma {:induction false} RunIsGood(products: seq<Product>, calls: seq<Call>)
    requires Good(products)
    ensures Good(After(products, calls))
  {
    if calls != [] {
      RunIsGood(products, calls[..|calls| - 1]);
      NextIsGood(After(products, calls[..|calls| - 1]), calls[|calls| - 1]);
    }
  }
}
