/** The order of first deliveries, restricted to some of the products. */
module OutboxSequence {
  import opened Domain
  import opened Events
  import opened Database
  import opened Outbox
  import opened OutboxDelivery
  import opened OutboxOrder

  /** The event ids of the log in order of first occurrence. */
  ghost function Firsts(log: seq<Message>): seq<string> {
    if log == [] then []
    else
      var init, id := log[..|log| - 1], log[|log| - 1].eventId;
      if Copies(init, id) > 0 then Firsts(init) else Firsts(init) + [id]
  }

  lemma {:induction false} FirstsAreDelivered(log: seq<Message>, id: string)
    ensures id in Firsts(log) <==> Copies(log, id) > 0
  {
    if log != [] {
      FirstsAreDelivered(log[..|log| - 1], id);
    }
  }

  ghost predicate Distinct(ids: seq<string>) {
    forall i, j | 0 <= i < j < |ids| :: ids[i] != ids[j]
  }

  lemma {:induction false} FirstsDistinct(log: seq<Message>)
    ensures Distinct(Firsts(log))
  {
    if log != [] {
      FirstsDistinct(log[..|log| - 1]);
      FirstsAreDelivered(log[..|log| - 1], log[|log| - 1].eventId);
    }
  }

  /** The row is an event of one of the products `ks`. */
  ghost predicate Concerns(rows: map<string, Row>, id: string, ks: iset<string>) {
    id in rows && rows[id].key in ks
  }

  /** The events of the products `ks`, in the order given. */
  ghost function Only(rows: map<string, Row>, ids: seq<string>, ks: iset<string>): seq<string> {
    if ids == [] then []
    else
      var init, id := ids[..|ids| - 1], ids[|ids| - 1];
      if Concerns(rows, id, ks) then Only(rows, init, ks) + [id] else Only(rows, init, ks)
  }

  lemma OnlyAppend(rows: map<string, Row>, ids: seq<string>, id: string, ks: iset<string>)
    ensures Only(rows, ids + [id], ks) == Only(rows, ids, ks) + (if Concerns(rows, id, ks) then [id] else [])
  {
    assert (ids + [id])[..|ids|] == ids;
  }

  lemma {:induction false} OnlyHas(rows: map<string, Row>, ids: seq<string>, ks: iset<string>, id: string)
    ensures id in Only(rows, ids, ks) <==> id in ids && Concerns(rows, id, ks)
  {
    if ids != [] {
      OnlyHas(rows, ids[..|ids| - 1], ks, id);
      assert ids == ids[..|ids| - 1] + [ids[|ids| - 1]];
    }
  }

  lemma {:induction false} OnlyPrefix(rows: map<string, Row>, ids: seq<string>, ids': seq<string>, ks: iset<string>)
    requires ids <= ids'
    ensures Only(rows, ids, ks) <= Only(rows, ids', ks)
    decreases |ids'|
  {
    if ids == ids' {
    } else {
      OnlyPrefix(rows, ids, ids'[..|ids'| - 1], ks);
    }
  }

  /** Bookkeeping and new rows do not change which of the old events concern a product. */
  lemma {:induction false} OnlyFrame(rows: map<string, Row>, rows': map<string, Row>, ids: seq<string>, ks: iset<string>)
    requires RowsGrow(rows, rows') && forall i | 0 <= i < |ids| :: ids[i] in rows
    ensures Only(rows', ids, ks) == Only(rows, ids, ks)
  {
    if ids != [] {
      var id := ids[|ids| - 1];
      assert Keeps(rows[id], rows'[id]);
      OnlyFrame(rows, rows', ids[..|ids| - 1], ks);
    }
  }

  lemma {:induction false} OnlyDistinct(rows: map<string, Row>, ids: seq<string>, ks: iset<string>)
    requires Distinct(ids)
    ensures Distinct(Only(rows, ids, ks))
  {
    if ids != [] {
      var init, id := ids[..|ids| - 1], ids[|ids| - 1];
      OnlyDistinct(rows, init, ks);
      OnlyHas(rows, init, ks, id);
      assert id !in init;
    }
  }

  ghost predicate Ascending(rows: map<string, Row>, ids: seq<string>) {
    forall i, j | 0 <= i < j < |ids| :: Older(rows, ids[i], ids[j])
  }

  lemma {:induction false} OnlyAscending(rows: map<string, Row>, ids: seq<string>, ks: iset<string>)
    requires Ascending(rows, ids)
    ensures Ascending(rows, Only(rows, ids, ks))
  {
    if ids != [] {
      var init, id := ids[..|ids| - 1], ids[|ids| - 1];
      OnlyAscending(rows, init, ks);
      forall x | x in Only(rows, init, ks)
        ensures Older(rows, x, id)
      {
        OnlyHas(rows, init, ks, x);
        var i :| 0 <= i < |init| && init[i] == x;
        assert Older(rows, ids[i], ids[|ids| - 1]);
      }
    }
  }

  ghost const EVERYTHING: iset<string> := iset k: string | true

  lemma {:induction false} OnlyEverything(rows: map<string, Row>, ids: seq<string>)
    requires forall i | 0 <= i < |ids| :: ids[i] in rows
    ensures Only(rows, ids, EVERYTHING) == ids
  {
    if ids != [] {
      OnlyEverything(rows, ids[..|ids| - 1]);
    }
  }

  /** Delivery follows commit order: whatever was delivered, everything older had been delivered too or
      had a failed publish call. Read at every prefix of a run, this orders first deliveries. */
  lemma DeliveryFollowsCommits(base: Table, ls: seq<Label>, id: string, prior: string)
    requires TableOk(base) && IsRun(Init(base), ls) && InCommitOrder(Init(base), ls)
    requires var s := After(Init(base), ls); Copies(s.log, id) > 0 && Older(s.db.rows, prior, id)
    ensures Copies(After(Init(base), ls).log, prior) > 0 || prior in Failures(ls)
  {
    RunIsOrdered(base, ls);
  }

  /** What a publish step can do to the log. */
  lemma PublishAppends(base: Table, s: State, l: Label)
    requires Sound(base, s) && Enabled(s, l) && l.Publish?
    ensures l.id in s.db.rows && s.db.rows[l.id].key == s.db.rows[l.id].payload.productId
    ensures Step(s, l).db == s.db
    ensures Step(s, l).log ==
            s.log + (if l.outcome.ErrorLost? then [] else [MessageOf(EventOf(l.id, s.db.rows[l.id]))])
  {
    var w := s.workers[l.p];
    assert w.batch[w.pos] in w.batch;
    assert WorkOk(s, w) && FromRow(s.db.rows, w.batch[w.pos]);
    assert Labelled(l.id, s.db.rows[l.id]);
  }

  lemma DeliveredHasRow(base: Table, s: State, id: string)
    requires Sound(base, s) && Copies(s.log, id) > 0
    ensures id in s.db.rows
  {
    CopiesMember(s.log, id);
    var m :| m in s.log && m.eventId == id;
    assert MessageOk(s.db.rows, m);
  }

  lemma FirstsHaveRows(base: Table, s: State)
    requires Sound(base, s)
    ensures forall i | 0 <= i < |Firsts(s.log)| :: Firsts(s.log)[i] in s.db.rows
  {
    forall i | 0 <= i < |Firsts(s.log)|
      ensures Firsts(s.log)[i] in s.db.rows
    {
      FirstsAreDelivered(s.log, Firsts(s.log)[i]);
      DeliveredHasRow(base, s, Firsts(s.log)[i]);
    }
  }

  lemma CommitOrderIsTotal(db: Db, a: string, b: string)
    requires Indexed(db) && CommitsOrdered(db) && a in db.rows && b in db.rows && a != b
    ensures Older(db.rows, a, b) || Older(db.rows, b, a)
  {
    var i :| 0 <= i < |db.commits| && db.commits[i] == a;
    var j :| 0 <= j < |db.commits| && db.commits[j] == b;
    if i < j {
      assert Older(db.rows, db.commits[i], db.commits[j]);
    } else {
      assert Older(db.rows, db.commits[j], db.commits[i]);
    }
  }
}
