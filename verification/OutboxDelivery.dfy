/** What every run keeps, whatever fails and however many publishers there are. */
module OutboxDelivery {
  import opened Domain
  import opened Events
  import opened Database
  import opened Outbox

  /** An outbox row keeps its identity for ever; only its bookkeeping moves, and `sent` is final. */
  ghost predicate Keeps(r: Row, r': Row) {
    && r' == r.(status := r'.status, attempts := r'.attempts)
    && (r.status == Sent ==> r'.status == Sent)
    && r.attempts <= r'.attempts
  }

  ghost predicate RowsGrow(rows: map<string, Row>, rows': map<string, Row>) {
    forall id | id in rows :: id in rows' && Keeps(rows[id], rows'[id])
  }

  ghost predicate FromRow(rows: map<string, Row>, e: Event) {
    e.id in rows && e == EventOf(e.id, rows[e.id])
  }

  ghost predicate WorkOk(s: State, w: Work) {
    && w.pos <= |w.batch|
    && (w.phase != Publishing ==> w.pos < |w.batch|)
    && (w.phase == Delivered ==> Copies(s.log, w.batch[w.pos].id) > 0)
    && (forall e | e in w.batch :: FromRow(s.db.rows, e))
  }

  ghost predicate MessageOk(rows: map<string, Row>, m: Message) {
    m.eventId in rows && m == MessageOf(EventOf(m.eventId, rows[m.eventId]))
  }

  ghost predicate Sound(base: Table, s: State) {
    && ChangeLog(base, s.db)
    && (forall p | p in s.workers :: WorkOk(s, s.workers[p]))
    && (forall m | m in s.log :: MessageOk(s.db.rows, m))
    && (forall id | id in s.db.rows && s.db.rows[id].status == Sent :: Copies(s.log, id) > 0)
  }

  lemma StepGrows(s: State, l: Label)
    requires Enabled(s, l)
    ensures RowsGrow(s.db.rows, Step(s, l).db.rows)
    ensures s.log <= Step(s, l).log
    ensures s.db.commits <= Step(s, l).db.commits
    ensures forall id :: Copies(s.log, id) <= Copies(Step(s, l).log, id)
  {
    if l.Publish? {
      CopiesAppend(s.log, MessageOf(s.workers[l.p].batch[s.workers[l.p].pos]));
    }
  }

  /** Bookkeeping on a row leaves the change log alone. */
  lemma MarkKeepsChangeLog(base: Table, db: Db, rows': map<string, Row>)
    requires ChangeLog(base, db) && RowsGrow(db.rows, rows') && rows'.Keys == db.rows.Keys
    ensures ChangeLog(base, db.(rows := rows'))
  {
    var db' := db.(rows := rows');
    assert Indexed(db');
    assert Payloads(db') == Payloads(db);
  }

  lemma WorkStaysOk(s: State, s': State, w: Work)
    requires WorkOk(s, w) && RowsGrow(s.db.rows, s'.db.rows)
    requires forall id :: Copies(s.log, id) <= Copies(s'.log, id)
    ensures WorkOk(s', w)
  {
    forall e | e in w.batch
      ensures FromRow(s'.db.rows, e)
    {
      assert FromRow(s.db.rows, e) && Keeps(s.db.rows[e.id], s'.db.rows[e.id]);
    }
  }

  lemma StepKeepsWorkers(base: Table, s: State, l: Label)
    requires Sound(base, s) && Enabled(s, l)
    ensures forall p | p in Step(s, l).workers :: WorkOk(Step(s, l), Step(s, l).workers[p])
  {
    var s' := Step(s, l);
    StepGrows(s, l);
    forall p | p in s'.workers
      ensures WorkOk(s', s'.workers[p])
    {
      if p in s.workers {
        WorkStaysOk(s, s', s.workers[p]);
        if l.Publish? && l.p == p {
          CopiesAppend(s.log, MessageOf(s.workers[p].batch[s.workers[p].pos]));
        }
      }
    }
  }

  lemma StepKeepsLog(base: Table, s: State, l: Label)
    requires Sound(base, s) && Enabled(s, l)
    ensures forall m | m in Step(s, l).log :: MessageOk(Step(s, l).db.rows, m)
  {
    var s' := Step(s, l);
    StepGrows(s, l);
    forall m | m in s'.log
      ensures MessageOk(s'.db.rows, m)
    {
      if m in s.log {
        assert MessageOk(s.db.rows, m) && Keeps(s.db.rows[m.eventId], s'.db.rows[m.eventId]);
      } else {
        assert l.Publish?;
        var w := s.workers[l.p];
        assert WorkOk(s, w) && w.batch[w.pos] in w.batch;
        assert m == MessageOf(w.batch[w.pos]);
      }
    }
  }

  lemma StepKeepsChangeLog(base: Table, s: State, l: Label)
    requires ChangeLog(base, s.db) && Enabled(s, l)
    ensures ChangeLog(base, Step(s, l).db)
  {
    StepGrows(s, l);
    if l.Transact? {
      CommitKeepsChangeLog(base, s.db, l.m);
    } else {
      assert Step(s, l).db == s.db.(rows := Step(s, l).db.rows);
      MarkKeepsChangeLog(base, s.db, Step(s, l).db.rows);
    }
  }

  lemma StepKeepsSent(s: State, l: Label, id: string)
    requires Enabled(s, l) && (l.MarkSent? ==> WorkOk(s, s.workers[l.p]))
    requires id in s.db.rows && s.db.rows[id].status == Sent ==> Copies(s.log, id) > 0
    requires id in Step(s, l).db.rows && Step(s, l).db.rows[id].status == Sent
    ensures Copies(Step(s, l).log, id) > 0
  {
    StepGrows(s, l);
  }

  lemma StepKeepsSound(base: Table, s: State, l: Label)
    requires Sound(base, s) && Enabled(s, l)
    ensures Sound(base, Step(s, l))
  {
    var s' := Step(s, l);
    StepKeepsWorkers(base, s, l);
    StepKeepsLog(base, s, l);
    StepKeepsChangeLog(base, s, l);
    forall id | id in s'.db.rows && s'.db.rows[id].status == Sent
      ensures Copies(s'.log, id) > 0
    {
      StepKeepsSent(s, l, id);
    }
  }

  lemma {:induction false} RunIsSound(base: Table, ls: seq<Label>)
    requires TableOk(base) && IsRun(Init(base), ls)
    ensures Sound(base, After(Init(base), ls))
  {
    if ls == [] {
      assert Payloads(Fresh(base)) == [];
    } else {
      RunIsSound(base, ls[..|ls| - 1]);
      StepKeepsSound(base, After(Init(base), ls[..|ls| - 1]), ls[|ls| - 1]);
    }
  }

  /** No loss: a row marked sent is in the log. */
  lemma NoLoss(base: Table, ls: seq<Label>, id: string)
    requires TableOk(base) && IsRun(Init(base), ls)
    requires var rows := After(Init(base), ls).db.rows; id in rows && rows[id].status == Sent
    ensures exists m :: m in After(Init(base), ls).log && m.eventId == id
  {
    RunIsSound(base, ls);
    CopiesMember(After(Init(base), ls).log, id);
  }

  /** No invention: a message agrees with the one row that carries its event id in topic, key, type and
      payload, and that row describes a product change its own transaction committed. */
  lemma NoInvention(base: Table, ls: seq<Label>, m: Message)
    requires TableOk(base) && IsRun(Init(base), ls) && m in After(Init(base), ls).log
    ensures var rows := After(Init(base), ls).db.rows;
            && m.eventId in rows
            && var row := rows[m.eventId];
               && m.topic == row.topic == "catalog.products.v1"
               && m.key == row.key == m.value.productId
               && m.eventType == row.eventType == m.value.eventType
               && m.value == row.payload
               && m.value.eventId == m.eventId
               && m.source == "catalog-service"
    ensures m.eventId in After(Init(base), ls).db.commits
  {
    RunIsSound(base, ls);
    var s := After(Init(base), ls);
    assert MessageOk(s.db.rows, m) && Labelled(m.eventId, s.db.rows[m.eventId]);
  }

  /** Sent never reverts, rows never change identity, and neither the log nor the outbox ever shrinks. */
  lemma {:induction false} NothingReverts(s: State, ls: seq<Label>, n: nat)
    requires IsRun(s, ls) && n <= |ls|
    ensures IsRun(s, ls[..n])
    ensures RowsGrow(After(s, ls[..n]).db.rows, After(s, ls).db.rows)
    ensures After(s, ls[..n]).log <= After(s, ls).log
    ensures After(s, ls[..n]).db.commits <= After(s, ls).db.commits
  {
    if n == |ls| {
      assert ls[..n] == ls;
    } else {
      var init := ls[..|ls| - 1];
      NothingReverts(s, init, n);
      assert init[..n] == ls[..n];
      StepGrows(After(s, init), ls[|ls| - 1]);
      RowsGrowTransitive(After(s, ls[..n]).db.rows, After(s, init).db.rows, After(s, ls).db.rows);
    }
  }

  lemma RowsGrowTransitive(a: map<string, Row>, b: map<string, Row>, c: map<string, Row>)
    requires RowsGrow(a, b) && RowsGrow(b, c)
    ensures RowsGrow(a, c)
  {
    forall id | id in a
      ensures id in c && Keeps(a[id], c[id])
    {
      assert Keeps(a[id], b[id]) && Keeps(b[id], c[id]);
    }
  }
}
