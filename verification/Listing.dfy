/** SELECT ... ORDER BY id LIMIT n OFFSET m over the products table. Ids compare code point by code point. */
module Listing {
  import opened Domain
  import opened Database

  predicate Less(a: string, b: string) {
    b != "" && (a == "" || a[0] < b[0] || (a[0] == b[0] && Less(a[1..], b[1..])))
  }

  /** `a` and `b` agree up to position `k`, where `a` ends or has the smaller character. */
  ghost predicate SmallerAt(a: string, b: string, k: nat) {
    k <= |a| && k < |b| && a[..k] == b[..k] && (k == |a| || a[k] < b[k])
  }

  /** How ids compare: a proper prefix comes first, and else the first difference decides. */
  ghost predicate Precedes(a: string, b: string) {
    exists k: nat :: SmallerAt(a, b, k)
  }

  lemma SmallerAtStart(a: string, b: string)
    ensures SmallerAt(a, b, 0) <==> b != "" && (a == "" || a[0] < b[0])
  {
  }

  lemma SmallerLater(a: string, b: string, k: nat)
    requires k > 0
    ensures SmallerAt(a, b, k) <==> a != "" && b != "" && a[0] == b[0] && SmallerAt(a[1..], b[1..], k - 1)
  {
    if k <= |a| && k < |b| {
      var a', b' := a[1..], b[1..];
      assert a[..k] == [a[0]] + a'[..k - 1] && b[..k] == [b[0]] + b'[..k - 1];
      assert a[..k][0] == a[0] && b[..k][0] == b[0];
      assert a[..k][1..] == a'[..k - 1] && b[..k][1..] == b'[..k - 1];
      assert a[..k] == b[..k] <==> a[0] == b[0] && a'[..k - 1] == b'[..k - 1];
    }
  }

  lemma PrecedesUnfolds(a: string, b: string)
    ensures Precedes(a, b) <==> SmallerAt(a, b, 0) || (a != "" && b != "" && a[0] == b[0] && Precedes(a[1..], b[1..]))
  {
    hide SmallerAt;
    if Precedes(a, b) {
      var k: nat :| SmallerAt(a, b, k);
      if k > 0 {
        SmallerLater(a, b, k);
      }
    }
    if a != "" && b != "" && a[0] == b[0] && Precedes(a[1..], b[1..]) {
      var k: nat :| SmallerAt(a[1..], b[1..], k);
      SmallerLater(a, b, k + 1);
      assert SmallerAt(a, b, k + 1);
    }
  }

  lemma {:induction false} LessIsPrecedes(a: string, b: string)
    ensures Less(a, b) <==> Precedes(a, b)
  {
    SmallerAtStart(a, b);
    PrecedesUnfolds(a, b);
    hide SmallerAt, Precedes;
    if a != "" && b != "" {
      LessIsPrecedes(a[1..], b[1..]);
    }
  }

  lemma {:induction false} LessTotal(a: string, b: string)
    ensures a == b || Less(a, b) || Less(b, a)
    ensures !(Less(a, b) && Less(b, a)) && !Less(a, a)
  {
    if a != "" && b != "" {
      LessTotal(a[1..], b[1..]);
      if a[0] == b[0] && a[1..] == b[1..] {
        assert a == [a[0]] + a[1..] && b == [b[0]] + b[1..];
      }
    }
    if a != "" {
      LessTotal(a[1..], a[1..]);
    }
  }

  lemma {:induction false} LessTransitive(a: string, b: string, c: string)
    requires Less(a, b) && Less(b, c)
    ensures Less(a, c)
  {
    if a != "" && a[0] == b[0] == c[0] {
      LessTransitive(a[1..], b[1..], c[1..]);
    }
  }

  predicate Least(ids: set<string>, m: string) {
    m in ids && forall x | x in ids :: x == m || Less(m, x)
  }

  lemma {:induction false} LeastExists(ids: set<string>)
    requires ids != {}
    ensures exists m :: Least(ids, m)
    decreases |ids|
  {
    var x :| x in ids;
    var rest := ids - {x};
    if rest == {} {
      assert ids == {x};
      assert Least(ids, x);
    } else {
      LeastExists(rest);
      var m :| Least(rest, m);
      LessTotal(x, m);
      if Less(x, m) {
        forall y | y in ids
          ensures y == x || Less(x, y)
        {
          if y != x && y != m {
            LessTransitive(x, m, y);
          }
        }
        assert Least(ids, x);
      } else {
        assert Least(ids, m);
      }
    }
  }

  lemma LeastUnique(ids: set<string>, m: string, n: string)
    requires Least(ids, m) && Least(ids, n)
    ensures m == n
  {
    LessTotal(m, n);
  }

  function SortedIds(ids: set<string>): seq<string> {
    if ids == {} then []
    else
      LeastExists(ids);
      assert forall m, n | Least(ids, m) && Least(ids, n) :: m == n by {
        forall m, n | Least(ids, m) && Least(ids, n)
          ensures m == n
        {
          LeastUnique(ids, m, n);
        }
      }
      var m :| m in ids && Least(ids, m);
      [m] + SortedIds(ids - {m})
  }

  /** The listing holds every row once, in strictly increasing order of id. */
  lemma SortedIdsSpec(ids: set<string>)
    ensures |SortedIds(ids)| == |ids|
    ensures forall x :: x in SortedIds(ids) <==> x in ids
    ensures forall i, j | 0 <= i < j < |SortedIds(ids)| :: Precedes(SortedIds(ids)[i], SortedIds(ids)[j])
  {
    SortedIdsIncrease(ids);
    forall i, j | 0 <= i < j < |SortedIds(ids)|
      ensures Precedes(SortedIds(ids)[i], SortedIds(ids)[j])
    {
      LessIsPrecedes(SortedIds(ids)[i], SortedIds(ids)[j]);
    }
  }

  lemma {:induction false} SortedIdsIncrease(ids: set<string>)
    ensures |SortedIds(ids)| == |ids|
    ensures forall x :: x in SortedIds(ids) <==> x in ids
    ensures forall i, j | 0 <= i < j < |SortedIds(ids)| :: Less(SortedIds(ids)[i], SortedIds(ids)[j])
  {
    if ids != {} {
      var m := SortedIds(ids)[0];
      assert Least(ids, m) && SortedIds(ids) == [m] + SortedIds(ids - {m});
      SortedIdsIncrease(ids - {m});
      forall i, j | 0 <= i < j < |SortedIds(ids)|
        ensures Less(SortedIds(ids)[i], SortedIds(ids)[j])
      {
        assert SortedIds(ids)[j] in SortedIds(ids - {m});
      }
    }
  }

  function Rows(t: Table, ids: seq<string>): seq<Product>
    requires forall i | 0 <= i < |ids| :: ids[i] in t
  {
    seq(|ids|, i requires 0 <= i < |ids| => t[ids[i]])
  }

  /** The whole table in listing order. */
  function Listed(t: Table): seq<Product> {
    SortedIdsSpec(t.Keys);
    Rows(t, SortedIds(t.Keys))
  }

  /** LIMIT and OFFSET. */
  function Slice<T>(s: seq<T>, limit: nat, offset: nat): seq<T> {
    if offset >= |s| then []
    else if offset + limit > |s| then s[offset..]
    else s[offset..offset + limit]
  }

  function Page(t: Table, limit: nat, offset: nat): seq<Product> {
    Slice(Listed(t), limit, offset)
  }

  // ---------- what a page is, without sorting ----------

  ghost function Below(t: Table, id: string): set<string> {
    set x | x in t && Precedes(x, id)
  }

  /** As many rows as the window holds; the i-th is a row of the table that exactly offset + i ids precede. */
  ghost predicate IsPage(t: Table, limit: nat, offset: nat, items: seq<Product>) {
    && |items| == (if |t| <= offset then 0 else if |t| < offset + limit then |t| - offset else limit)
    && (forall i | 0 <= i < |items| :: items[i].id in t && t[items[i].id] == items[i])
    && (forall i | 0 <= i < |items| :: |Below(t, items[i].id)| == offset + i)
  }

  lemma {:induction false} PrefixCount(ids: seq<string>, n: nat)
    requires n <= |ids| && forall i, j | 0 <= i < j < |ids| :: ids[i] != ids[j]
    ensures |set x | x in ids[..n]| == n
  {
    if n > 0 {
      PrefixCount(ids, n - 1);
      var init, all := ids[..n - 1], ids[..n];
      assert all == init + [ids[n - 1]];
      assert (set x | x in all) == (set x | x in init) + {ids[n - 1]};
    }
  }

  /** In the listing, exactly `i` ids precede the i-th. */
  lemma RankInListing(t: Table, i: nat)
    requires i < |SortedIds(t.Keys)|
    ensures |Below(t, SortedIds(t.Keys)[i])| == i
  {
    var ids := SortedIds(t.Keys);
    SortedIdsIncrease(t.Keys);
    forall j, k | 0 <= j < k < |ids|
      ensures ids[j] != ids[k]
    {
      LessTotal(ids[j], ids[k]);
    }
    forall j | 0 <= j < |ids|
      ensures Precedes(ids[j], ids[i]) <==> j < i
    {
      LessTotal(ids[j], ids[i]);
      LessIsPrecedes(ids[j], ids[i]);
    }
    PrefixCount(ids, i);
    assert Below(t, ids[i]) == set x | x in ids[..i];
  }

  lemma PageLength(t: Table, limit: nat, offset: nat)
    ensures |Page(t, limit, offset)| == if |t| <= offset then 0 else if |t| < offset + limit then |t| - offset else limit
    ensures forall i | 0 <= i < |Page(t, limit, offset)| ::
              offset + i < |Listed(t)| && Page(t, limit, offset)[i] == Listed(t)[offset + i]
  {
    SortedIdsSpec(t.Keys);
    assert |t| == |t.Keys|;
  }

  lemma ListedRow(t: Table, r: nat)
    requires KeysMatch(t) && r < |Listed(t)|
    ensures var p := Listed(t)[r]; p.id in t && t[p.id] == p && |Below(t, p.id)| == r
  {
    SortedIdsSpec(t.Keys);
    assert SortedIds(t.Keys)[r] in SortedIds(t.Keys);
    RankInListing(t, r);
  }

  lemma RowOfRank(t: Table, p: Product, r: nat)
    requires KeysMatch(t) && p.id in t && t[p.id] == p && |Below(t, p.id)| == r
    ensures r < |Listed(t)| && Listed(t)[r] == p
  {
    SortedIdsSpec(t.Keys);
    var k :| 0 <= k < |SortedIds(t.Keys)| && SortedIds(t.Keys)[k] == p.id;
    RankInListing(t, k);
  }

  /** The page the query answers is the only list of rows that fits the window. */
  lemma PageExactly(t: Table, limit: nat, offset: nat, items: seq<Product>)
    requires KeysMatch(t)
    ensures items == Page(t, limit, offset) <==> IsPage(t, limit, offset, items)
  {
    hide KeysMatch, Page, Listed, Below;
    var page := Page(t, limit, offset);
    PageLength(t, limit, offset);
    forall i | 0 <= i < |page|
      ensures page[i].id in t && t[page[i].id] == page[i] && |Below(t, page[i].id)| == offset + i
    {
      assert page[i] == Page(t, limit, offset)[i];
      ListedRow(t, offset + i);
    }
    if IsPage(t, limit, offset, items) {
      forall i | 0 <= i < |page|
        ensures items[i] == page[i]
      {
        RowOfRank(t, items[i], offset + i);
      }
    }
  }
}
