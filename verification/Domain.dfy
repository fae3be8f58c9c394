/** Products, the commands that change them, and the rules a stored product obeys. */
module Domain {
  type Int32 = x: int | -0x8000_0000 <= x <= 0x7fff_ffff
  type Int64 = x: int | -0x8000_0000_0000_0000 <= x <= 0x7fff_ffff_ffff_ffff

  datatype Option<+T> = None | Some(value: T) {
    function GetOr(default: T): T {
      match this
      case Some(v) => v
      case None => default
    }
  }

  /** Every way an operation can report failure. `Storage` stands for an error of the database driver
      and `CacheFailure` for an error of the cache client, whatever their text. */
  datatype Error =
    | NotFound
    | AlreadyExists
    | InvalidPagination
    | InvalidProduct(fault: Fault)
    | InsufficientStock
    | IdRequired
    | ZeroDelta
    | Canceled
    | Storage
    | CacheFailure

  datatype Fault =
    | MissingId
    | MissingSku
    | MissingName
    | NegativePrice
    | MissingCurrency
    | NegativeStock

  datatype Result<+T> = Ok(value: T) | Err(error: Error)

  datatype Product = Product(
    id: string,
    sku: string,
    name: string,
    description: string,
    priceCents: Int64,
    currency: string,
    stock: Int32,
    active: bool)
  {
    /** The first rule the product breaks, or None when it is valid. */
    function Validate(): Option<Fault> {
      if id == "" then Some(MissingId)
      else if sku == "" then Some(MissingSku)
      else if name == "" then Some(MissingName)
      else if priceCents < 0 then Some(NegativePrice)
      else if currency == "" then Some(MissingCurrency)
      else if stock < 0 then Some(NegativeStock)
      else None
    }
  }

  datatype CreateCommand = CreateCommand(
    sku: string,
    name: string,
    description: string,
    priceCents: Int64,
    currency: string,
    stock: Int32)
  {
    function Validate(): Option<Fault> {
      if TrimSpace(sku) == "" then Some(MissingSku)
      else if TrimSpace(name) == "" then Some(MissingName)
      else if priceCents < 0 then Some(NegativePrice)
      else if TrimSpace(currency) == "" then Some(MissingCurrency)
      else if stock < 0 then Some(NegativeStock)
      else None
    }

    /** The product a successful create stores under the given id. */
    function Build(id: string): Product {
      Product(id, sku, name, description, priceCents, currency, stock, true)
    }
  }

  /** An absent field means "leave it alone". */
  datatype UpdateCommand = UpdateCommand(
    id: string,
    name: Option<string>,
    description: Option<string>,
    priceCents: Option<Int64>,
    active: Option<bool>)
  {
    function Validate(): Option<Fault> {
      if TrimSpace(id) == "" then Some(MissingId)
      else if name.Some? && TrimSpace(name.value) == "" then Some(MissingName)
      else if priceCents.Some? && priceCents.value < 0 then Some(NegativePrice)
      else None
    }

    /** Field-by-field patch of a product. */
    function Patch(p: Product): Product {
      p.(name := name.GetOr(p.name),
         description := description.GetOr(p.description),
         priceCents := priceCents.GetOr(p.priceCents),
         active := active.GetOr(p.active))
    }
  }

  /** White space as Go's unicode.IsSpace defines it. */
  predicate IsSpace(c: char) {
    || '\t' <= c <= '\r'
    || c == ' '
    || c == '\U{0085}'
    || c == '\U{00A0}'
    || c == '\U{1680}'
    || '\U{2000}' <= c <= '\U{200A}'
    || c == '\U{2028}'
    || c == '\U{2029}'
    || c == '\U{202F}'
    || c == '\U{205F}'
    || c == '\U{3000}'
  }

  function TrimLeft(s: string): string {
    if s != "" && IsSpace(s[0]) then TrimLeft(s[1..]) else s
  }

  function TrimRight(s: string): string {
    if s != "" && IsSpace(s[|s| - 1]) then TrimRight(s[..|s| - 1]) else s
  }

  function TrimSpace(s: string): string {
    TrimRight(TrimLeft(s))
  }

  /** A string that survives trimming is not empty; this is how the commands' trimmed checks
      imply the products' plain ones. */
  lemma TrimmedNonEmpty(s: string)
    requires TrimSpace(s) != ""
    ensures s != ""
  {
  }

  // ---------- what trimming and validation mean ----------

  predicate Blank(s: string) {
    forall i | 0 <= i < |s| :: IsSpace(s[i])
  }

  /** The white space of Unicode, code point by code point. */
  lemma SpaceIs(c: char)
    ensures IsSpace(c) <==>
            c as int in {9, 10, 11, 12, 13, 32, 0x85, 0xA0, 0x1680,
                         0x2000, 0x2001, 0x2002, 0x2003, 0x2004, 0x2005, 0x2006, 0x2007, 0x2008, 0x2009, 0x200A,
                         0x2028, 0x2029, 0x202F, 0x205F, 0x3000}
  {
  }

  /** `t` is what is left of `s` between the blanks at its two ends. */
  ghost predicate Trims(s: string, t: string) {
    exists i, j :: 0 <= i <= j <= |s| && t == s[i..j] && Blank(s[..i]) && Blank(s[j..]) &&
                   (t != "" ==> !IsSpace(t[0]) && !IsSpace(t[|t| - 1]))
  }

  lemma {:induction false} TrimLeftSpec(s: string) returns (i: nat)
    ensures i <= |s| && TrimLeft(s) == s[i..] && Blank(s[..i]) && (i < |s| ==> !IsSpace(s[i]))
  {
    i := 0;
    if s != "" && IsSpace(s[0]) {
      i := TrimLeftSpec(s[1..]);
      i := i + 1;
      assert s[..i] == [s[0]] + s[1..][..i - 1];
    }
  }

  lemma {:induction false} TrimRightSpec(s: string) returns (j: nat)
    ensures j <= |s| && TrimRight(s) == s[..j] && Blank(s[j..]) && (j > 0 ==> !IsSpace(s[j - 1]))
  {
    j := |s|;
    if s != "" && IsSpace(s[|s| - 1]) {
      j := TrimRightSpec(s[..|s| - 1]);
      assert s[j..] == s[..|s| - 1][j..] + [s[|s| - 1]];
    }
  }

  lemma TrimSpaceTrims(s: string)
    ensures Trims(s, TrimSpace(s))
  {
    var i := TrimLeftSpec(s);
    var j := TrimRightSpec(s[i..]);
    assert TrimSpace(s) == s[i..i + j] && s[i + j..] == s[i..][j..];
  }

  lemma BlankTrims(s: string)
    ensures TrimSpace(s) == "" <==> Blank(s)
  {
    var i := TrimLeftSpec(s);
    var j := TrimRightSpec(s[i..]);
    if TrimSpace(s) == "" {
      assert s == s[..i] + s[i..][j..];
    }
  }

  /** In which order faults are looked for. */
  function Rank(f: Fault): nat {
    match f
    case MissingId => 0
    case MissingSku => 1
    case MissingName => 2
    case NegativePrice => 3
    case MissingCurrency => 4
    case NegativeStock => 5
  }

  predicate ProductHas(p: Product, f: Fault) {
    match f
    case MissingId => p.id == ""
    case MissingSku => p.sku == ""
    case MissingName => p.name == ""
    case NegativePrice => p.priceCents < 0
    case MissingCurrency => p.currency == ""
    case NegativeStock => p.stock < 0
  }

  predicate CreateHas(c: CreateCommand, f: Fault) {
    match f
    case MissingId => false
    case MissingSku => Blank(c.sku)
    case MissingName => Blank(c.name)
    case NegativePrice => c.priceCents < 0
    case MissingCurrency => Blank(c.currency)
    case NegativeStock => c.stock < 0
  }

  predicate UpdateHas(c: UpdateCommand, f: Fault) {
    match f
    case MissingId => Blank(c.id)
    case MissingName => c.name.Some? && Blank(c.name.value)
    case NegativePrice => c.priceCents.Some? && c.priceCents.value < 0
    case _ => false
  }

  /** Validation reports the first fault there is, and none if there is none. */
  lemma ProductFault(p: Product, f: Fault)
    ensures p.Validate() == Some(f) <==> ProductHas(p, f) && forall g | Rank(g) < Rank(f) :: !ProductHas(p, g)
    ensures p.Validate().None? <==> forall g :: !ProductHas(p, g)
  {
    assert p.Validate().Some? ==> ProductHas(p, p.Validate().value);
    assert forall g | Rank(g) < 5 :: g in {MissingId, MissingSku, MissingName, NegativePrice, MissingCurrency};
  }

  lemma CreateFault(c: CreateCommand, f: Fault)
    ensures c.Validate() == Some(f) <==> CreateHas(c, f) && forall g | Rank(g) < Rank(f) :: !CreateHas(c, g)
    ensures c.Validate().None? <==> forall g :: !CreateHas(c, g)
  {
    BlankTrims(c.sku);
    BlankTrims(c.name);
    BlankTrims(c.currency);
    hide Blank, TrimSpace;
    assert c.Validate().Some? ==> CreateHas(c, c.Validate().value);
  }

  lemma UpdateFault(c: UpdateCommand, f: Fault)
    ensures c.Validate() == Some(f) <==> UpdateHas(c, f) && forall g | Rank(g) < Rank(f) :: !UpdateHas(c, g)
    ensures c.Validate().None? <==> forall g :: !UpdateHas(c, g)
  {
    BlankTrims(c.id);
    if c.name.Some? {
      BlankTrims(c.name.value);
    }
    hide Blank, TrimSpace;
    assert c.Validate().Some? ==> UpdateHas(c, c.Validate().value);
  }

  /** All that validity asks of a product. */
  predicate IsValid(p: Product) {
    p.id != "" && p.sku != "" && p.name != "" && p.priceCents >= 0 && p.currency != "" && p.stock >= 0
  }

  lemma ValidateIsValid(p: Product)
    ensures p.Validate().None? <==> IsValid(p)
  {
  }
}
