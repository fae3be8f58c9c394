/** The UPDATE statement of the Postgres repository: how it is put together, and how a database reads it.

    The builder writes text and collects arguments. The reader knows nothing of the builder: it splits the text
    into words and signs, parses them, looks names up in its own catalogue and runs the statement. */
module UpdateStatement {
  import opened Domain
  import opened Decimal
  import opened Database

  datatype SqlValue = Text(text: string) | BigInt(number: Int64) | Integer(small: Int32) | Boolean(flag: bool)

  // ---------- words ----------

  datatype Token = Word(text: string) | Placeholder(index: nat) | Sign(mark: char)

  predicate IsBlank(c: char) {
    c == ' ' || c == '\n' || c == '\t' || c == '\r'
  }

  predicate IsLetter(c: char) {
    'a' <= c <= 'z' || 'A' <= c <= 'Z' || c == '_'
  }

  predicate IsName(s: string) {
    s != "" && forall i | 0 <= i < |s| :: IsLetter(s[i])
  }

  /** Length of the longest prefix of letters. */
  function WordLength(s: string): (n: nat)
    ensures n <= |s|
  {
    if s != "" && IsLetter(s[0]) then 1 + WordLength(s[1..]) else 0
  }

  function DigitsLength(s: string): (n: nat)
    ensures n <= |s| && forall i | 0 <= i < n :: IsDigit(s[i])
  {
    if s != "" && IsDigit(s[0]) then 1 + DigitsLength(s[1..]) else 0
  }

  function Lex(s: string): seq<Token>
    decreases |s|
  {
    if s == "" then []
    else if IsBlank(s[0]) then Lex(s[1..])
    else if IsLetter(s[0]) then
      var n := WordLength(s);
      [Word(s[..n])] + Lex(s[n..])
    else if s[0] == '$' && DigitsLength(s[1..]) > 0 then
      var n := DigitsLength(s[1..]);
      [Placeholder(Value(s[1..][..n]))] + Lex(s[1..][n..])
    else [Sign(s[0])] + Lex(s[1..])
  }

  // ---------- grammar ----------

  /** One item of the SET list: a column set to NOW() or to a numbered placeholder. */
  datatype Clause = Now(column: string) | Param(column: string, index: nat)

  datatype Statement = Statement(table: string, sets: seq<Clause>, key: string, keyIndex: nat, returning: seq<string>)

  datatype Parsed<T> = Failed | Parsed(value: T, rest: seq<Token>)

  function ParseClause(ts: seq<Token>): (r: Parsed<Clause>)
    ensures r.Parsed? ==> |r.rest| < |ts|
  {
    if |ts| >= 3 && ts[0].Word? && ts[1] == Sign('=') && ts[2].Placeholder? then
      Parsed(Param(ts[0].text, ts[2].index), ts[3..])
    else if |ts| >= 5 && ts[0].Word? && ts[1] == Sign('=') && ts[2] == Word("NOW") && ts[3] == Sign('(') && ts[4] == Sign(')') then
      Parsed(Now(ts[0].text), ts[5..])
    else Failed
  }

  function ParseClauses(ts: seq<Token>): (r: Parsed<seq<Clause>>)
    decreases |ts|
  {
    match ParseClause(ts)
    case Failed => Failed
    case Parsed(clause, rest) =>
      if rest != [] && rest[0] == Sign(',') then
        match ParseClauses(rest[1..])
        case Failed => Failed
        case Parsed(more, after) => Parsed([clause] + more, after)
      else Parsed([clause], rest)
  }

  /** A list of names up to the end. */
  function ParseNames(ts: seq<Token>): Option<seq<string>>
    decreases |ts|
  {
    if ts == [] || !ts[0].Word? then None
    else if |ts| == 1 then Some([ts[0].text])
    else if ts[1] != Sign(',') then None
    else
      match ParseNames(ts[2..])
      case None => None
      case Some(more) => Some([ts[0].text] + more)
  }

  function ParseCondition(table: string, sets: seq<Clause>, ts: seq<Token>): Option<Statement> {
    if |ts| >= 5 && ts[0] == Word("WHERE") && ts[1].Word? && ts[2] == Sign('=') && ts[3].Placeholder? && ts[4] == Word("RETURNING")
    then
      match ParseNames(ts[5..])
      case None => None
      case Some(names) => Some(Statement(table, sets, ts[1].text, ts[3].index, names))
    else None
  }

  function ParseTokens(ts: seq<Token>): Option<Statement> {
    if |ts| >= 3 && ts[0] == Word("UPDATE") && ts[1].Word? && ts[2] == Word("SET") then
      match ParseClauses(ts[3..])
      case Failed => None
      case Parsed(sets, rest) => ParseCondition(ts[1].text, sets, rest)
    else None
  }

  function Parse(text: string): Option<Statement> {
    ParseTokens(Lex(text))
  }

  // ---------- catalogue and execution ----------

  /** The columns of the table that a product is made of. */
  function Lookup(p: Product, column: string): Option<SqlValue> {
    if column == "id" then Some(Text(p.id))
    else if column == "sku" then Some(Text(p.sku))
    else if column == "name" then Some(Text(p.name))
    else if column == "description" then Some(Text(p.description))
    else if column == "price_cents" then Some(BigInt(p.priceCents))
    else if column == "currency" then Some(Text(p.currency))
    else if column == "stock" then Some(Integer(p.stock))
    else if column == "active" then Some(Boolean(p.active))
    else None
  }

  predicate Accepts(column: string, v: SqlValue) {
    match v
    case Text(_) => column in {"id", "sku", "name", "description", "currency"}
    case BigInt(_) => column == "price_cents"
    case Integer(_) => column == "stock"
    case Boolean(_) => column == "active"
  }

  function SetColumn(p: Product, column: string, v: SqlValue): Product {
    match v
    case Text(text) =>
      if column == "id" then p.(id := text)
      else if column == "sku" then p.(sku := text)
      else if column == "name" then p.(name := text)
      else if column == "description" then p.(description := text)
      else p.(currency := text)
    case BigInt(number) => p.(priceCents := number)
    case Integer(small) => p.(stock := small)
    case Boolean(flag) => p.(active := flag)
  }

  /** Only the two time stamps take NOW(). They are not part of a product. */
  predicate ClauseOk(c: Clause, args: seq<SqlValue>) {
    match c
    case Now(column) => column in {"created_at", "updated_at"}
    case Param(column, index) => 1 <= index <= |args| && Accepts(column, args[index - 1])
  }

  function Assign(p: Product, c: Clause, args: seq<SqlValue>): Product
    requires ClauseOk(c, args)
  {
    if c.Now? then p else SetColumn(p, c.column, args[c.index - 1])
  }

  function AssignAll(p: Product, cs: seq<Clause>, args: seq<SqlValue>): Product
    requires forall i | 0 <= i < |cs| :: ClauseOk(cs[i], args)
  {
    if cs == [] then p else Assign(AssignAll(p, cs[..|cs| - 1], args), cs[|cs| - 1], args)
  }

  /** The placeholders of the SET list, from left to right. */
  function SetPlaceholders(cs: seq<Clause>): seq<nat> {
    if cs == [] then []
    else SetPlaceholders(cs[..|cs| - 1]) + (if cs[|cs| - 1].Param? then [cs[|cs| - 1].index] else [])
  }

  function Placeholders(s: Statement): seq<nat> {
    SetPlaceholders(s.sets) + [s.keyIndex]
  }

  /** What the database checks before it looks at any row: the table, one argument per placeholder and nothing
      over, known columns, each set once, arguments of the right type. */
  predicate Prepared(s: Statement, args: seq<SqlValue>) {
    && s.table == "products"
    && (forall k | 1 <= k <= |args| :: k in Placeholders(s))
    && (forall k | k in Placeholders(s) :: 1 <= k <= |args|)
    && (forall i | 0 <= i < |s.sets| :: ClauseOk(s.sets[i], args))
    && (forall i, j | 0 <= i < j < |s.sets| :: s.sets[i].column != s.sets[j].column)
    && 1 <= s.keyIndex <= |args|
    && Accepts(s.key, args[s.keyIndex - 1])
    && forall i | 0 <= i < |s.returning| :: Lookup(BLANK, s.returning[i]).Some?
  }

  const BLANK := Product("", "", "", "", 0, "", 0, true)

  /** The rows whose column holds the value. */
  function Matches(t: Table, column: string, v: SqlValue): set<string> {
    set x | x in t && Lookup(t[x], column) == Some(v)
  }

  /** The values of the listed columns, in the order of the list. */
  function Returned(p: Product, columns: seq<string>): seq<SqlValue> {
    seq(|columns|, i requires 0 <= i < |columns| => Lookup(p, columns[i]).GetOr(Text("")))
  }

  /** The table a statement leaves and the row it returns. */
  datatype Updated = Updated(table: Table, row: seq<SqlValue>)

  /** Prepare, find the row by the column of the condition, set the columns, check the constraint, return what was
      asked for. No row is "not found". A condition that more than one row meets is out of this reader's scope,
      as is a change of the key; both count as errors. */
  function Interpret(t: Table, s: Statement, args: seq<SqlValue>): Result<Updated> {
    if !Prepared(s, args) then Err(Storage)
    else
      var found := Matches(t, s.key, args[s.keyIndex - 1]);
      if found == {} then Err(NotFound)
      else if exists id | id in found :: found == {id} then
        assert forall x, y | x in found && y in found && found == {x} && found == {y} :: x == y;
        var id :| id in found && found == {id};
        var p := AssignAll(t[id], s.sets, args);
        if p.priceCents < 0 || p.stock < 0 || p.id != id then Err(Storage)
        else Ok(Updated(t[id := p], Returned(p, s.returning)))
      else Err(Storage)
  }

  function RunUpdate(t: Table, query: string, args: seq<SqlValue>): Result<Updated> {
    match Parse(query)
    case None => Err(Storage)
    case Some(s) => Interpret(t, s, args)
  }

  /** The row is read by position: eight values into the eight fields. */
  function ScanProduct(row: seq<SqlValue>): Result<Product> {
    if |row| == 8 && row[0].Text? && row[1].Text? && row[2].Text? && row[3].Text? && row[4].BigInt? && row[5].Text?
       && row[6].Integer? && row[7].Boolean?
    then Ok(Product(row[0].text, row[1].text, row[2].text, row[3].text, row[4].number, row[5].text, row[6].small, row[7].flag))
    else Err(Storage)
  }

  /** What an UPDATE does that changes one row into `p` and returns all of it. */
  function Effect(t: Table, r: Result<Product>): Result<Updated> {
    match r
    case Err(e) => Err(e)
    case Ok(p) =>
      Ok(Updated(t[p.id := p],
                 [Text(p.id), Text(p.sku), Text(p.name), Text(p.description), BigInt(p.priceCents), Text(p.currency),
                  Integer(p.stock), Boolean(p.active)]))
  }

  // ---------- rendered statements ----------

  function RenderClause(c: Clause): string {
    match c
    case Now(column) => column + " = NOW()"
    case Param(column, index) => column + " = $" + Digits(index)
  }

  function Join(parts: seq<string>, separator: string): string {
    if parts == [] then ""
    else if |parts| == 1 then parts[0]
    else parts[0] + separator + Join(parts[1..], separator)
  }

  function RenderClauses(cs: seq<Clause>): seq<string> {
    seq(|cs|, i requires 0 <= i < |cs| => RenderClause(cs[i]))
  }

  function RenderCondition(key: string, index: nat, returning: seq<string>): string {
    "\n        WHERE " + (key + (" = " + (("$" + Digits(index)) + ("\n        RETURNING " + (Join(returning, ", ") + "\n    ")))))
  }

  function Render(s: Statement): string {
    "\n        UPDATE " + (s.table + ("\n        SET " + (Join(RenderClauses(s.sets), ", ") + RenderCondition(s.key, s.keyIndex, s.returning))))
  }

  /** Columns, key and table are names, and neither list is empty. */
  ghost predicate WellNamed(s: Statement) {
    && IsName(s.table) && IsName(s.key)
    && s.sets != [] && (forall i | 0 <= i < |s.sets| :: IsName(s.sets[i].column))
    && s.returning != [] && (forall i | 0 <= i < |s.returning| :: IsName(s.returning[i]))
  }

  // ---------- reading them back ----------

  lemma {:induction false} WordRead(w: string, rest: string)
    requires forall i | 0 <= i < |w| :: IsLetter(w[i])
    requires rest == "" || !IsLetter(rest[0])
    ensures WordLength(w + rest) == |w|
  {
    if w == "" {
      assert w + rest == rest;
    } else {
      WordRead(w[1..], rest);
      assert (w + rest)[1..] == w[1..] + rest;
    }
  }

  lemma {:induction false} DigitsRead(digits: string, rest: string)
    requires forall i | 0 <= i < |digits| :: IsDigit(digits[i])
    requires rest == "" || !IsDigit(rest[0])
    ensures DigitsLength(digits + rest) == |digits|
  {
    if digits == "" {
      assert digits + rest == rest;
    } else {
      DigitsRead(digits[1..], rest);
      assert (digits + rest)[1..] == digits[1..] + rest;
    }
  }

  lemma LexWord(w: string, rest: string)
    requires IsName(w) && (rest == "" || !IsLetter(rest[0]))
    ensures Lex(w + rest) == [Word(w)] + Lex(rest)
  {
    WordRead(w, rest);
    assert (w + rest)[..|w|] == w && (w + rest)[|w|..] == rest;
    assert !IsBlank((w + rest)[0]);
  }

  lemma LexDollar(s: string, digits: string, rest: string)
    requires s == "$" + (digits + rest) && digits != "" && DigitsLength(digits + rest) == |digits|
    requires forall i | 0 <= i < |digits| :: IsDigit(digits[i])
    ensures Lex(s) == [Placeholder(Value(digits))] + Lex(rest)
  {
    assert s[0] == '$' && s[1..] == digits + rest;
    assert (digits + rest)[..|digits|] == digits && (digits + rest)[|digits|..] == rest;
    hide Value;
  }

  lemma LexPlaceholder(n: nat, rest: string)
    requires rest == "" || !IsDigit(rest[0])
    ensures Lex(("$" + Digits(n)) + rest) == [Placeholder(n)] + Lex(rest)
  {
    hide Lex, Digits, DigitsLength, Value;
    DigitsDenote(n);
    DigitsRead(Digits(n), rest);
    assert ("$" + Digits(n)) + rest == "$" + (Digits(n) + rest);
    LexDollar(("$" + Digits(n)) + rest, Digits(n), rest);
  }

  lemma {:induction false} LexBlanks(blanks: string, rest: string)
    requires forall i | 0 <= i < |blanks| :: IsBlank(blanks[i])
    ensures Lex(blanks + rest) == Lex(rest)
  {
    if blanks == "" {
      assert blanks + rest == rest;
    } else {
      assert (blanks + rest)[1..] == blanks[1..] + rest;
      LexBlanks(blanks[1..], rest);
    }
  }

  lemma LexSign(c: char, rest: string)
    requires !IsBlank(c) && !IsLetter(c) && c != '$'
    ensures Lex([c] + rest) == [Sign(c)] + Lex(rest)
  {
    assert ([c] + rest)[1..] == rest;
  }

  /** Blanks, a word and a blank, as between the keywords. */
  lemma LexKeyword(text: string, blanks: string, w: string, gap: char, rest: string)
    requires (forall i | 0 <= i < |blanks| :: IsBlank(blanks[i])) && IsName(w) && IsBlank(gap)
    requires text == blanks + w + [gap]
    ensures Lex(text + rest) == [Word(w)] + Lex(rest)
  {
    assert text + rest == blanks + (w + ([gap] + rest));
    LexBlanks(blanks, w + ([gap] + rest));
    assert !IsLetter(([gap] + rest)[0]);
    LexWord(w, [gap] + rest);
    LexBlanks([gap], rest);
  }

  /** The sign between a column and its value. */
  lemma LexEquals(rest: string)
    ensures Lex(" = " + rest) == [Sign('=')] + Lex(rest)
  {
    assert " = " + rest == " " + (['='] + (" " + rest));
    LexBlanks(" ", ['='] + (" " + rest));
    LexSign('=', " " + rest);
    LexBlanks(" ", rest);
  }

  lemma LexComma(rest: string)
    ensures Lex(", " + rest) == [Sign(',')] + Lex(rest)
  {
    assert ", " + rest == [','] + (" " + rest);
    LexSign(',', " " + rest);
    LexBlanks(" ", rest);
  }

  function ClauseTokens(c: Clause): seq<Token> {
    match c
    case Now(column) => [Word(column), Sign('='), Word("NOW"), Sign('('), Sign(')')]
    case Param(column, index) => [Word(column), Sign('='), Placeholder(index)]
  }

  lemma LexNow(rest: string)
    ensures Lex("NOW()" + rest) == [Word("NOW"), Sign('('), Sign(')')] + Lex(rest)
  {
    hide Lex;
    assert "NOW()" + rest == "NOW" + (['('] + ([')'] + rest));
    LexWord("NOW", ['('] + ([')'] + rest));
    LexSign('(', [')'] + rest);
    LexSign(')', rest);
  }

  lemma LexSetNow(column: string, rest: string)
    requires IsName(column)
    ensures Lex((column + " = NOW()") + rest) == ClauseTokens(Now(column)) + Lex(rest)
  {
    hide Lex, IsName;
    assert (column + " = NOW()") + rest == column + (" = " + ("NOW()" + rest));
    LexWord(column, " = " + ("NOW()" + rest));
    LexEquals("NOW()" + rest);
    LexNow(rest);
  }

  lemma LexSetParam(column: string, index: nat, rest: string)
    requires IsName(column) && (rest == "" || !IsDigit(rest[0]))
    ensures Lex((column + " = $" + Digits(index)) + rest) == ClauseTokens(Param(column, index)) + Lex(rest)
  {
    hide Lex, IsName, Digits;
    var value := ("$" + Digits(index)) + rest;
    assert (column + " = $" + Digits(index)) + rest == column + (" = " + value);
    LexWord(column, " = " + value);
    LexEquals(value);
    LexPlaceholder(index, rest);
  }

  lemma LexClause(c: Clause, rest: string)
    requires IsName(c.column) && (rest == "" || !IsDigit(rest[0]))
    ensures Lex(RenderClause(c) + rest) == ClauseTokens(c) + Lex(rest)
  {
    hide Lex, ClauseTokens, Digits, IsName;
    match c
    case Now(column) => LexSetNow(column, rest);
    case Param(column, index) => LexSetParam(column, index, rest);
  }

  function ClausesTokens(cs: seq<Clause>): seq<Token> {
    if cs == [] then []
    else if |cs| == 1 then ClauseTokens(cs[0])
    else ClauseTokens(cs[0]) + ([Sign(',')] + ClausesTokens(cs[1..]))
  }

  /** A rendered list is its first clause, a comma, and the rendered rest. */
  lemma ListSplits(cs: seq<Clause>, rest: string)
    requires |cs| > 1
    ensures Join(RenderClauses(cs), ", ") + rest ==
            RenderClause(cs[0]) + (", " + (Join(RenderClauses(cs[1..]), ", ") + rest))
  {
    assert RenderClauses(cs)[1..] == RenderClauses(cs[1..]);
  }

  lemma {:induction false} LexClauses(cs: seq<Clause>, rest: string)
    requires cs != [] && (forall i | 0 <= i < |cs| :: IsName(cs[i].column))
    requires rest == "" || !IsDigit(rest[0])
    ensures Lex(Join(RenderClauses(cs), ", ") + rest) == ClausesTokens(cs) + Lex(rest)
    decreases |cs|
  {
    hide Lex, RenderClause, ClauseTokens;
    if |cs| == 1 {
      LexClause(cs[0], rest);
      assert RenderClauses(cs)[0] == RenderClause(cs[0]);
    } else {
      var more := Join(RenderClauses(cs[1..]), ", ") + rest;
      ListSplits(cs, rest);
      LexClause(cs[0], ", " + more);
      LexComma(more);
      LexClauses(cs[1..], rest);
    }
  }

  function NamesTokens(names: seq<string>): seq<Token> {
    if names == [] then []
    else if |names| == 1 then [Word(names[0])]
    else [Word(names[0]), Sign(',')] + NamesTokens(names[1..])
  }

  lemma {:induction false} LexNames(names: seq<string>, rest: string)
    requires names != [] && (forall i | 0 <= i < |names| :: IsName(names[i]))
    requires rest == "" || !IsLetter(rest[0])
    ensures Lex(Join(names, ", ") + rest) == NamesTokens(names) + Lex(rest)
    decreases |names|
  {
    hide Lex, IsName;
    if |names| == 1 {
      LexWord(names[0], rest);
    } else {
      var more := Join(names[1..], ", ") + rest;
      assert Join(names, ", ") + rest == names[0] + (", " + more);
      LexWord(names[0], ", " + more);
      LexComma(more);
      LexNames(names[1..], rest);
    }
  }

  lemma ParseOneMore(name: string, names: seq<string>, ts: seq<Token>)
    requires ts != [] && ParseNames(ts) == Some(names)
    ensures ParseNames([Word(name), Sign(',')] + ts) == Some([name] + names)
  {
    assert ([Word(name), Sign(',')] + ts)[2..] == ts;
  }

  lemma {:induction false} NamesParse(names: seq<string>)
    requires names != []
    ensures ParseNames(NamesTokens(names)) == Some(names)
  {
    if |names| == 1 {
      assert names == [names[0]];
    } else {
      var first, rest := names[0], names[1..];
      NamesParse(rest);
      ParseOneMore(first, rest, NamesTokens(rest));
      assert names == [first] + rest;
    }
  }

  lemma ClauseParses(c: Clause, rest: seq<Token>)
    ensures ParseClause(ClauseTokens(c) + rest) == Parsed(c, rest)
  {
    var ts := ClauseTokens(c) + rest;
    assert ts[|ClauseTokens(c)|..] == rest;
  }

  lemma {:induction false} ClausesParse(cs: seq<Clause>, rest: seq<Token>)
    requires cs != [] && (rest == [] || rest[0] != Sign(','))
    ensures ParseClauses(ClausesTokens(cs) + rest) == Parsed(cs, rest)
    decreases |cs|
  {
    hide ParseClause, ClauseTokens;
    if |cs| == 1 {
      ClauseParses(cs[0], rest);
      assert cs == [cs[0]];
    } else {
      var more := ClausesTokens(cs[1..]) + rest;
      assert ClausesTokens(cs) + rest == ClauseTokens(cs[0]) + ([Sign(',')] + more);
      ClauseParses(cs[0], [Sign(',')] + more);
      ClausesParse(cs[1..], rest);
      assert ([Sign(',')] + more)[1..] == more;
      assert cs == [cs[0]] + cs[1..];
    }
  }

  function ConditionTokens(key: string, index: nat, returning: seq<string>): seq<Token> {
    [Word("WHERE"), Word(key), Sign('='), Placeholder(index), Word("RETURNING")] + NamesTokens(returning)
  }

  lemma LexCondition(key: string, index: nat, returning: seq<string>)
    requires IsName(key) && returning != [] && (forall i | 0 <= i < |returning| :: IsName(returning[i]))
    ensures Lex(RenderCondition(key, index, returning)) == ConditionTokens(key, index, returning)
  {
    hide Lex;
    var names := Join(returning, ", ") + "\n    ";
    var tail := "\n        RETURNING " + names;
    LexKeyword("\n        WHERE ", "\n        ", "WHERE", ' ', key + (" = " + (("$" + Digits(index)) + tail)));
    LexWord(key, " = " + (("$" + Digits(index)) + tail));
    LexEquals(("$" + Digits(index)) + tail);
    LexPlaceholder(index, tail);
    LexKeyword("\n        RETURNING ", "\n        ", "RETURNING", ' ', names);
    LexNames(returning, "\n    ");
    LexBlanks("\n    ", "");
    assert "\n    " + "" == "\n    ";
    assert Lex("") == [] by { NothingToLex(); }
  }

  lemma NothingToLex()
    ensures Lex("") == []
  {
  }

  lemma ConditionParses(table: string, sets: seq<Clause>, key: string, index: nat, returning: seq<string>)
    requires returning != []
    ensures ParseCondition(table, sets, ConditionTokens(key, index, returning)) == Some(Statement(table, sets, key, index, returning))
  {
    NamesParse(returning);
    assert ConditionTokens(key, index, returning)[5..] == NamesTokens(returning);
  }

  lemma LexStatement(s: Statement)
    requires WellNamed(s)
    ensures Lex(Render(s)) ==
            [Word("UPDATE"), Word(s.table), Word("SET")] + (ClausesTokens(s.sets) + ConditionTokens(s.key, s.keyIndex, s.returning))
  {
    hide Lex, Join, RenderClauses, ClausesTokens, ConditionTokens;
    var condition := RenderCondition(s.key, s.keyIndex, s.returning);
    assert condition != "" && condition[0] == '\n';
    hide RenderCondition;
    var sets := Join(RenderClauses(s.sets), ", ") + condition;
    LexKeyword("\n        UPDATE ", "\n        ", "UPDATE", ' ', s.table + ("\n        SET " + sets));
    LexWord(s.table, "\n        SET " + sets);
    LexKeyword("\n        SET ", "\n        ", "SET", ' ', sets);
    LexClauses(s.sets, condition);
    LexCondition(s.key, s.keyIndex, s.returning);
  }

  /** Reading gives back every statement that was rendered, whatever its table, columns and numbers. */
  lemma RenderedStatementReads(s: Statement)
    requires WellNamed(s)
    ensures Parse(Render(s)) == Some(s)
  {
    hide Lex, Render;
    LexStatement(s);
    var condition := ConditionTokens(s.key, s.keyIndex, s.returning);
    var sets := ClausesTokens(s.sets) + condition;
    var ts := [Word("UPDATE"), Word(s.table), Word("SET")] + sets;
    assert ts[3..] == sets;
    ClausesParse(s.sets, condition);
    ConditionParses(s.table, s.sets, s.key, s.keyIndex, s.returning);
  }

  // ---------- what the collected clauses do ----------

  function UpTo(n: nat): seq<nat> {
    seq(n, i requires 0 <= i < n => i + 1)
  }

  /** The columns that carry the fields of a command. */
  predicate HasField(cmd: UpdateCommand, column: string) {
    || column == "updated_at"
    || (column == "name" && cmd.name.Some?)
    || (column == "description" && cmd.description.Some?)
    || (column == "price_cents" && cmd.priceCents.Some?)
    || (column == "active" && cmd.active.Some?)
  }

  /** The clauses and arguments collected so far do to a row what the command `part` says. */
  ghost predicate Covers(cs: seq<Clause>, args: seq<SqlValue>, part: UpdateCommand) {
    && cs != []
    && (forall i | 0 <= i < |cs| :: HasField(part, cs[i].column) && IsName(cs[i].column))
    && (forall i | 0 <= i < |cs| :: ClauseOk(cs[i], args))
    && (forall i, j | 0 <= i < j < |cs| :: cs[i].column != cs[j].column)
    && SetPlaceholders(cs) == UpTo(|args|)
    && (forall p: Product :: AssignAll(p, cs, args) == part.Patch(p))
  }

  lemma {:induction false} MoreArguments(p: Product, cs: seq<Clause>, args: seq<SqlValue>, v: SqlValue)
    requires forall i | 0 <= i < |cs| :: ClauseOk(cs[i], args)
    ensures forall i | 0 <= i < |cs| :: ClauseOk(cs[i], args + [v])
    ensures AssignAll(p, cs, args + [v]) == AssignAll(p, cs, args)
  {
    if cs != [] {
      MoreArguments(p, cs[..|cs| - 1], args, v);
      assert ClauseOk(cs[|cs| - 1], args);
    }
  }

  /** A field of a command under its column. */
  predicate IsField(column: string, v: SqlValue) {
    match v
    case Text(_) => column == "name" || column == "description"
    case BigInt(_) => column == "price_cents"
    case Integer(_) => false
    case Boolean(_) => column == "active"
  }

  function WithField(cmd: UpdateCommand, column: string, v: SqlValue): UpdateCommand
    requires IsField(column, v)
  {
    match v
    case Text(text) => if column == "name" then cmd.(name := Some(text)) else cmd.(description := Some(text))
    case BigInt(number) => cmd.(priceCents := Some(number))
    case Boolean(flag) => cmd.(active := Some(flag))
  }

  lemma FieldAdds(part: UpdateCommand, column: string, v: SqlValue, c: string, p: Product)
    requires IsField(column, v)
    ensures Accepts(column, v) && IsName(column)
    ensures HasField(WithField(part, column, v), c) <==> HasField(part, c) || c == column
    ensures SetColumn(part.Patch(p), column, v) == WithField(part, column, v).Patch(p)
  {
    assert IsName("name") && IsName("description") && IsName("price_cents") && IsName("active");
  }

  lemma NextAssigns(cs: seq<Clause>, args: seq<SqlValue>, part: UpdateCommand, column: string, v: SqlValue, p: Product)
    requires (forall i | 0 <= i < |cs| :: ClauseOk(cs[i], args)) && AssignAll(p, cs, args) == part.Patch(p) && IsField(column, v)
    ensures var cs' := cs + [Param(column, |args| + 1)]; forall i | 0 <= i < |cs'| :: ClauseOk(cs'[i], args + [v])
    ensures AssignAll(p, cs + [Param(column, |args| + 1)], args + [v]) == WithField(part, column, v).Patch(p)
  {
    var cs' := cs + [Param(column, |args| + 1)];
    assert cs'[..|cs|] == cs;
    MoreArguments(p, cs, args, v);
    FieldAdds(part, column, v, column, p);
    hide Accepts, SetColumn, WithField, IsField;
  }

  lemma CoversNext(cs: seq<Clause>, args: seq<SqlValue>, part: UpdateCommand, column: string, v: SqlValue)
    requires Covers(cs, args, part) && IsField(column, v) && !HasField(part, column)
    ensures Covers(cs + [Param(column, |args| + 1)], args + [v], WithField(part, column, v))
  {
    var c, next := Param(column, |args| + 1), WithField(part, column, v);
    var cs', args' := cs + [c], args + [v];
    hide HasField, IsName, WithField, IsField, ClauseOk, AssignAll;
    assert cs'[..|cs|] == cs;
    assert SetPlaceholders(cs') == UpTo(|args'|);
    NextAssigns(cs, args, part, column, v, BLANK);
    forall i | 0 <= i < |cs'|
      ensures HasField(next, cs'[i].column) && IsName(cs'[i].column)
    {
      FieldAdds(part, column, v, cs'[i].column, BLANK);
    }
    forall p: Product
      ensures AssignAll(p, cs', args') == next.Patch(p)
    {
      NextAssigns(cs, args, part, column, v, p);
    }
  }

  /** `setClauses` is the text of clauses that cover `part`. */
  ghost predicate Compiles(setClauses: seq<string>, args: seq<SqlValue>, part: UpdateCommand) {
    exists cs :: Covers(cs, args, part) && setClauses == RenderClauses(cs)
  }

  lemma NothingCompiles(id: string)
    ensures Compiles(["updated_at = NOW()"], [], UpdateCommand(id, None, None, None, None))
  {
    var cs := [Now("updated_at")];
    assert cs[..0] == [];
    assert IsName("updated_at");
    assert Covers(cs, [], UpdateCommand(id, None, None, None, None));
    assert "updated_at" + " = NOW()" == "updated_at = NOW()";
    assert RenderClauses(cs) == ["updated_at = NOW()"];
  }

  lemma FieldCompiles(setClauses: seq<string>, args: seq<SqlValue>, part: UpdateCommand, column: string, v: SqlValue, text: string)
    requires Compiles(setClauses, args, part) && IsField(column, v) && !HasField(part, column)
    requires text == column + " = $"
    ensures Compiles(setClauses + [text + Digits(|args| + 1)], args + [v], WithField(part, column, v))
  {
    hide Covers, HasField, IsField, WithField, Digits;
    var cs :| Covers(cs, args, part) && setClauses == RenderClauses(cs);
    var c := Param(column, |args| + 1);
    CoversNext(cs, args, part, column, v);
    assert RenderClause(c) == text + Digits(|args| + 1);
    assert RenderClauses(cs + [c]) == setClauses + [RenderClause(c)];
  }

  const COLUMNS: seq<string> := ["id", "sku", "name", "description", "price_cents", "currency", "stock", "active"]

  lemma ColumnsRead(p: Product, t: Table)
    ensures forall i | 0 <= i < |COLUMNS| :: IsName(COLUMNS[i]) && Lookup(p, COLUMNS[i]).Some?
    ensures Effect(t, Ok(p)) == Ok(Updated(t[p.id := p], Returned(p, COLUMNS)))
  {
    assert Returned(p, COLUMNS) ==
           [Text(p.id), Text(p.sku), Text(p.name), Text(p.description), BigInt(p.priceCents), Text(p.currency),
            Integer(p.stock), Boolean(p.active)];
  }

  /** The statement that the collected clauses make: on the table, by the id, with all columns returned. */
  function Compiled(cs: seq<Clause>, n: nat): Statement {
    Statement("products", cs, "id", n, COLUMNS)
  }

  lemma CompiledIsPrepared(cs: seq<Clause>, args: seq<SqlValue>, cmd: UpdateCommand)
    requires Covers(cs, args, cmd)
    ensures Placeholders(Compiled(cs, |args| + 1)) == UpTo(|args| + 1)
    ensures Prepared(Compiled(cs, |args| + 1), args + [Text(cmd.id)])
  {
    var s, all := Compiled(cs, |args| + 1), args + [Text(cmd.id)];
    assert Placeholders(s) == UpTo(|all|);
    forall k | 1 <= k <= |all|
      ensures k in Placeholders(s)
    {
      assert UpTo(|all|)[k - 1] == k;
    }
    MoreArguments(BLANK, cs, args, Text(cmd.id));
    ColumnsRead(BLANK, map[]);
  }

  lemma RowById(t: Table, id: string)
    requires KeysMatch(t)
    ensures Matches(t, "id", Text(id)) == if id in t then {id} else {}
  {
  }

  /** It does to any table what the patch does. */
  lemma CompiledRuns(cs: seq<Clause>, args: seq<SqlValue>, cmd: UpdateCommand, t: Table)
    requires Covers(cs, args, cmd) && TableOk(t)
    ensures Interpret(t, Compiled(cs, |args| + 1), args + [Text(cmd.id)]) == Effect(t, Execute(t, Change(cmd)))
  {
    CompiledIsPrepared(cs, args, cmd);
    RowById(t, cmd.id);
    MoreArguments(BLANK, cs, args, Text(cmd.id));
    if cmd.id in t {
      MoreArguments(t[cmd.id], cs, args, Text(cmd.id));
      ColumnsRead(cmd.Patch(t[cmd.id]), t);
      hide Prepared, Matches, Lookup, Returned, Covers, ClauseOk;
      var p := AssignAll(t[cmd.id], cs, args + [Text(cmd.id)]);
      assert p == cmd.Patch(t[cmd.id]);
    }
  }

  // ---------- the builder ----------

  const HEAD := "\n        UPDATE products\n        SET "
  const WHERE := "\n        WHERE id = $"
  const RETURNING := "\n        RETURNING id, sku, name, " + "description, price_cents, " + "currency, stock, active\n    "

  lemma JoinMore(name: string, names: seq<string>)
    requires names != []
    ensures Join([name] + names, ", ") == name + ", " + Join(names, ", ")
  {
    assert ([name] + names)[1..] == names;
  }

  lemma LastColumns()
    ensures Join(COLUMNS[5..], ", ") + "\n    " == "currency, stock, active\n    "
  {
    hide Join;
    JoinOne("active");
    JoinMore("stock", ["active"]);
    JoinMore("currency", ["stock"] + ["active"]);
    assert COLUMNS[5..] == ["currency"] + (["stock"] + ["active"]);
    assert "currency" + ", " + ("stock" + ", " + "active") + "\n    " == "currency, stock, active\n    ";
  }

  lemma LaterColumns()
    ensures Join(COLUMNS[3..], ", ") + "\n    " == "description, price_cents, " + "currency, stock, active\n    "
  {
    hide Join;
    LastColumns();
    JoinMore("price_cents", COLUMNS[5..]);
    JoinMore("description", ["price_cents"] + COLUMNS[5..]);
    assert COLUMNS[3..] == ["description"] + (["price_cents"] + COLUMNS[5..]);
    assert "description" + ", " + ("price_cents" + ", ") == "description, price_cents, ";
    var rest := Join(COLUMNS[5..], ", ");
    RegroupTwo("description", "price_cents", ", ", rest, "\n    ");
  }

  lemma RegroupTwo(a: string, b: string, separator: string, rest: string, ending: string)
    ensures (a + separator + (b + separator + rest)) + ending == (a + separator + (b + separator)) + (rest + ending)
  {
  }

  lemma RegroupThree(head: string, a: string, b: string, c: string, separator: string, rest: string, ending: string)
    ensures head + ((a + separator + (b + separator + (c + separator + rest))) + ending) ==
            (head + (a + separator + (b + separator + (c + separator)))) + (rest + ending)
  {
  }

  lemma JoinOne(name: string)
    ensures Join([name], ", ") == name
  {
  }

  lemma ColumnsJoin()
    ensures "\n        RETURNING " + (Join(COLUMNS, ", ") + "\n    ") == RETURNING
  {
    hide Join;
    LaterColumns();
    JoinMore("name", COLUMNS[3..]);
    JoinMore("sku", ["name"] + COLUMNS[3..]);
    JoinMore("id", ["sku"] + (["name"] + COLUMNS[3..]));
    assert COLUMNS == ["id"] + (["sku"] + (["name"] + COLUMNS[3..]));
    assert "\n        RETURNING " + ("id" + ", " + ("sku" + ", " + ("name" + ", "))) == "\n        RETURNING id, sku, name, ";
    RegroupThree("\n        RETURNING ", "id", "sku", "name", ", ", Join(COLUMNS[3..], ", "), "\n    ");
  }

  /** The text the builder writes is the compiled statement, rendered. */
  lemma BuiltIsRendered(cs: seq<Clause>, n: nat)
    ensures HEAD + Join(RenderClauses(cs), ", ") + WHERE + Digits(n) + RETURNING == Render(Compiled(cs, n))
  {
    hide Join, RenderClauses, Digits;
    ColumnsJoin();
    assert "\n        UPDATE " + "products" + "\n        SET " == HEAD;
    assert "\n        WHERE " + "id" + " = " + "$" == WHERE;
    Regroup("\n        UPDATE ", "products", "\n        SET ", Join(RenderClauses(cs), ", "),
            "\n        WHERE ", "id", " = ", "$", Digits(n), RETURNING);
  }

  lemma Regroup(a: string, b: string, c: string, d: string, e: string, f: string, g: string, h: string, i: string, j: string)
    ensures (a + b + c) + d + (e + f + g + h) + i + j == a + (b + (c + (d + (e + (f + (g + ((h + i) + j)))))))
  {
  }

  lemma CompiledTextRuns(setClauses: seq<string>, args: seq<SqlValue>, cmd: UpdateCommand, query: string)
    requires Compiles(setClauses, args, cmd)
    requires query == HEAD + Join(setClauses, ", ") + WHERE + Digits(|args| + 1) + RETURNING
    ensures Parse(query).Some? && Placeholders(Parse(query).value) == UpTo(|args| + 1)
    ensures forall t: Table | TableOk(t) :: RunUpdate(t, query, args + [Text(cmd.id)]) == Effect(t, Execute(t, Change(cmd)))
  {
    var cs :| Covers(cs, args, cmd) && setClauses == RenderClauses(cs);
    BuiltIsRendered(cs, |args| + 1);
    CompiledIsPrepared(cs, args, cmd);
    CompiledIsWellNamed(cs, args, cmd);
    RenderedStatementReads(Compiled(cs, |args| + 1));
    hide Render, Join, Parse, Covers, Interpret, TableOk;
    forall t: Table | TableOk(t)
      ensures RunUpdate(t, query, args + [Text(cmd.id)]) == Effect(t, Execute(t, Change(cmd)))
    {
      CompiledRuns(cs, args, cmd, t);
    }
  }

  lemma CompiledIsWellNamed(cs: seq<Clause>, args: seq<SqlValue>, cmd: UpdateCommand)
    requires Covers(cs, args, cmd)
    ensures WellNamed(Compiled(cs, |args| + 1))
  {
    ColumnsRead(BLANK, map[]);
    assert IsName("products") && IsName("id");
  }

  /** Collects a SET clause and an argument for every field that is present, counting placeholders. */
  method CollectFields(cmd: UpdateCommand) returns (setClauses: seq<string>, args: seq<SqlValue>, argIdx: nat)
    ensures argIdx == |args| + 1
    ensures Compiles(setClauses, args, cmd)
  {
    hide Compiles, Digits;
    setClauses := ["updated_at = NOW()"];
    args := [];
    argIdx := 1;
    ghost var part := UpdateCommand(cmd.id, None, None, None, None);
    NothingCompiles(cmd.id);
    if cmd.name.Some? {
      FieldCompiles(setClauses, args, part, "name", Text(cmd.name.value), "name = $");
      setClauses := setClauses + ["name = $" + Digits(argIdx)];
      args := args + [Text(cmd.name.value)];
      argIdx := argIdx + 1;
    }
    part := part.(name := cmd.name);
    assert Compiles(setClauses, args, part);
    if cmd.description.Some? {
      FieldCompiles(setClauses, args, part, "description", Text(cmd.description.value), "description = $");
      setClauses := setClauses + ["description = $" + Digits(argIdx)];
      args := args + [Text(cmd.description.value)];
      argIdx := argIdx + 1;
    }
    part := part.(description := cmd.description);
    assert Compiles(setClauses, args, part);
    if cmd.priceCents.Some? {
      FieldCompiles(setClauses, args, part, "price_cents", BigInt(cmd.priceCents.value), "price_cents = $");
      setClauses := setClauses + ["price_cents = $" + Digits(argIdx)];
      args := args + [BigInt(cmd.priceCents.value)];
      argIdx := argIdx + 1;
    }
    part := part.(priceCents := cmd.priceCents);
    assert Compiles(setClauses, args, part);
    if cmd.active.Some? {
      FieldCompiles(setClauses, args, part, "active", Boolean(cmd.active.value), "active = $");
      setClauses := setClauses + ["active = $" + Digits(argIdx)];
      args := args + [Boolean(cmd.active.value)];
      argIdx := argIdx + 1;
    }
    assert part.(active := cmd.active) == cmd;
  }

  /** Builds the UPDATE text and its arguments. Whatever the command, the text parses, it uses placeholders $1..$n
      once each for n arguments, and running it on any table does what the field-by-field patch does, with the
      same "not found". */
  method BuildUpdate(cmd: UpdateCommand) returns (query: string, args: seq<SqlValue>)
    ensures Parse(query).Some?
    ensures Placeholders(Parse(query).value) == UpTo(|args|)
    ensures forall t: Table | TableOk(t) :: RunUpdate(t, query, args) == Effect(t, Execute(t, Change(cmd)))
  {
    var setClauses, fields, argIdx := CollectFields(cmd);
    query := HEAD + Join(setClauses, ", ") + WHERE + Digits(argIdx) + RETURNING;
    CompiledTextRuns(setClauses, fields, cmd, query);
    args := fields + [Text(cmd.id)];
  }

  /** Reading a returned row by position gives back the product it was made of. */
  lemma ReturnedRowScans(t: Table, p: Product)
    ensures Effect(t, Ok(p)).Ok? && ScanProduct(Effect(t, Ok(p)).value.row) == Ok(p)
    ensures Effect(t, Ok(p)).value.table == t[p.id := p]
  {
  }
}
