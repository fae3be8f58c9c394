/** The keys of the cache and the pattern that picks the list keys out of them. */
module RedisKeys {
  import opened Decimal

  const PRODUCT_PREFIX := "catalog:product:"
  const LIST_PREFIX := "catalog:list:v1:"
  const LIMIT := "limit="
  const OFFSET := "offset="
  const LIST_PATTERN := LIST_PREFIX + "*"

  function ProductKey(id: string): string {
    PRODUCT_PREFIX + id
  }

  function ListKey(limit: int, offset: int): string {
    LIST_PREFIX + (LIMIT + Render(limit)) + ":" + (OFFSET + Render(offset))
  }

  /** The keys and the pattern, letter by letter. */
  lemma KeysAre(id: string, limit: int, offset: int)
    ensures ProductKey(id) == "catalog:product:" + id
    ensures ListKey(limit, offset) == "catalog:list:v1:limit=" + Render(limit) + ":offset=" + Render(offset)
    ensures LIST_PATTERN == "catalog:list:v1:*"
  {
    hide Render;
    var l, o := Render(limit), Render(offset);
    assert "catalog:list:v1:limit=" == "catalog:list:v1:" + "limit=" && ":offset=" == ":" + "offset=";
    assert "catalog:list:v1:" + ("limit=" + l) + ":" + ("offset=" + o) == ("catalog:list:v1:" + "limit=") + l + (":" + "offset=") + o;
    assert "catalog:list:v1:" + "*" == "catalog:list:v1:*";
  }

  /** Glob matching as the MATCH option of SCAN does it, for patterns of literal characters, `?` and `*`. */
  predicate Glob(pattern: string, s: string)
    decreases |pattern| + |s|
  {
    if pattern == "" then s == ""
    else if pattern[0] == '*' then Glob(pattern[1..], s) || (s != "" && Glob(pattern, s[1..]))
    else s != "" && (pattern[0] == '?' || pattern[0] == s[0]) && Glob(pattern[1..], s[1..])
  }

  predicate Literal(s: string) {
    forall i | 0 <= i < |s| :: s[i] != '*' && s[i] != '?'
  }

  lemma {:induction false} StarMatchesAll(s: string)
    ensures Glob("*", s)
  {
    if s == "" {
      assert Glob("*"[1..], s);
    } else {
      StarMatchesAll(s[1..]);
    }
  }

  /** A literal followed by a star matches exactly what starts with the literal. */
  lemma {:induction false} PrefixPattern(prefix: string, s: string)
    requires Literal(prefix)
    ensures Glob(prefix + "*", s) <==> prefix <= s
  {
    if prefix == "" {
      assert prefix + "*" == "*";
      StarMatchesAll(s);
    } else {
      assert (prefix + "*")[1..] == prefix[1..] + "*";
      if s != "" {
        PrefixPattern(prefix[1..], s[1..]);
        assert prefix <= s <==> prefix[0] == s[0] && prefix[1..] <= s[1..];
      }
    }
  }

  lemma PatternMatchesListKeys(s: string)
    ensures Glob(LIST_PATTERN, s) <==> LIST_PREFIX <= s
  {
    PrefixPattern(LIST_PREFIX, s);
  }

  lemma ProductKeysDiffer(id: string, other: string)
    requires ProductKey(id) == ProductKey(other)
    ensures id == other
  {
    assert ProductKey(id)[|PRODUCT_PREFIX|..] == id;
    assert ProductKey(other)[|PRODUCT_PREFIX|..] == other;
  }

  lemma {:induction false} SplitAtColon(a: string, b: string, c: string, d: string)
    requires ':' !in a && ':' !in c && a + ":" + b == c + ":" + d
    ensures a == c && b == d
  {
    var x, y := a + ":" + b, c + ":" + d;
    assert x[0] == if a == "" then ':' else a[0];
    assert y[0] == if c == "" then ':' else c[0];
    if a == "" {
      assert x[1..] == b && y[1..] == d;
    } else {
      assert x[1..] == a[1..] + ":" + b && y[1..] == c[1..] + ":" + d;
      SplitAtColon(a[1..], b, c[1..], d);
      assert a == [a[0]] + a[1..] && c == [c[0]] + c[1..];
    }
  }

  lemma ListKeysDiffer(limit: int, offset: int, limit': int, offset': int)
    requires ListKey(limit, offset) == ListKey(limit', offset')
    ensures limit == limit' && offset == offset'
  {
    var a, b, c, d := LIMIT + Render(limit), OFFSET + Render(offset), LIMIT + Render(limit'), OFFSET + Render(offset');
    RenderAlphabet(limit);
    RenderAlphabet(limit');
    hide Render;
    assert ListKey(limit, offset)[|LIST_PREFIX|..] == a + ":" + b;
    assert ListKey(limit', offset')[|LIST_PREFIX|..] == c + ":" + d;
    SplitAtColon(a, b, c, d);
    assert a[|LIMIT|..] == Render(limit) && c[|LIMIT|..] == Render(limit');
    assert b[|OFFSET|..] == Render(offset) && d[|OFFSET|..] == Render(offset');
    RenderInjective(limit, limit');
    RenderInjective(offset, offset');
  }

  /** The key language is unambiguous: the two families never meet, whatever text an id holds, and the
      pattern matches all list keys and no product key. */
  lemma FamiliesApart(id: string, limit: int, offset: int)
    ensures ProductKey(id) != ListKey(limit, offset)
    ensures Glob(LIST_PATTERN, ListKey(limit, offset))
    ensures !Glob(LIST_PATTERN, ProductKey(id))
  {
    assert ProductKey(id)[8] == 'p' && LIST_PREFIX[8] == 'l';
    assert LIST_PREFIX <= ListKey(limit, offset);
    PatternMatchesListKeys(ListKey(limit, offset));
    PatternMatchesListKeys(ProductKey(id));
  }
}
