/** In what order events can reach the log.

    Everything here assumes that `created_at` follows commit order without ties. That is an assumption
    about the database clock, because NOW() is the start of a transaction and not its commit. */
module OutboxOrder {
  import opened Domain
  import opened Events
  import opened Database
  import opened Outbox
  import opened OutboxDelivery

  /** The events some publish call reported as failed. */
  ghost function Failures(ls: seq<Label>): set<string> {
    set l | l in ls && l.Publish? && !l.outcome.Acked? :: l.id
  }

  ghost predicate Latest(s: State, l: Label) {
    l.Transact? ==> forall id | id in s.db.rows :: s.db.rows[id].createdAt < l.m.createdAt
  }

  ghost predicate InCommitOrder(s: State, ls: seq<Label>)
    requires IsRun(s, ls)
  {
    ls == [] ||
    (InCommitOrder(s, ls[..|ls| - 1]) && Latest(After(s, ls[..|ls| - 1]), ls[|ls| - 1]))
  }

  /** Event `id` had its chance: it was delivered, or a publish call for it failed. */
  ghost predicate Handled(s: State, failed: set<string>, id: string) {
    Copies(s.log, id) > 0 || id in failed
  }

  ghost predicate Older(rows: map<string, Row>, a: string, b: string) {
    a in rows && b in rows && rows[a].createdAt < rows[b].createdAt
  }

  /** Everything older than the k-th event of a batch is handled or stands earlier in the batch. */
  ghost predicate NoGapBefore(s: State, failed: set<string>, w: Work, k: nat)
    requires k < |w.batch|
  {
    forall id | Older(s.db.rows, id, w.batch[k].id) ::
      Handled(s, failed, id) || exists j | 0 <= j < k :: w.batch[j].id == id
  }

  ghost predicate WorkOrdered(s: State, failed: set<string>, w: Work) {
    && (forall j | 0 <= j < |w.batch| && (j < w.pos || (j == w.pos && w.phase != Publishing)) ::
          Handled(s, failed, w.batch[j].id))
    && (forall k | 0 <= k < |w.batch| :: NoGapBefore(s, failed, w, k))
  }

  ghost predicate CommitsOrdered(db: Db) {
    forall i, j | 0 <= i < j < |db.commits| :: Older(db.rows, db.commits[i], db.commits[j])
  }

  ghost predicate DeliveredInOrder(s: State, failed: set<string>) {
    forall id, prior | Copies(s.log, id) > 0 && Older(s.db.rows, prior, id) :: Handled(s, failed, prior)
  }

  ghost predicate Ordered(s: State, failed: set<string>) {
    && CommitsOrdered(s.db)
    && (forall p | p in s.workers :: WorkOrdered(s, failed, s.workers[p]))
    && DeliveredInOrder(s, failed)
  }

  ghost function Failing(l: Label): set<string> {
    if l.Publish? && !l.outcome.Acked? then {l.id} else {}
  }

  lemma HandledStays(s: State, l: Label, failed: set<string>, id: string)
    requires Enabled(s, l) && Handled(s, failed, id)
    ensures Handled(Step(s, l), failed + Failing(l), id)
  {
    StepGrows(s, l);
  }

  /** An old row is older than another after a step exactly when it was before; a new row is newest. */
  lemma OlderStays(s: State, l: Label, a: string, b: string)
    requires Enabled(s, l) && Latest(s, l) && b in s.db.rows
    ensures Older(Step(s, l).db.rows, a, b) <==> Older(s.db.rows, a, b)
  {
    StepGrows(s, l);
    assert Keeps(s.db.rows[b], Step(s, l).db.rows[b]);
    if a in s.db.rows {
      assert Keeps(s.db.rows[a], Step(s, l).db.rows[a]);
    }
  }

  lemma StepKeepsCommitsOrdered(base: Table, s: State, l: Label)
    requires ChangeLog(base, s.db) && Enabled(s, l) && Latest(s, l) && CommitsOrdered(s.db)
    ensures CommitsOrdered(Step(s, l).db)
  {
    var db' := Step(s, l).db;
    StepGrows(s, l);
    forall i, j | 0 <= i < j < |db'.commits|
      ensures Older(db'.rows, db'.commits[i], db'.commits[j])
    {
      assert db'.commits[i] == s.db.commits[i];
      if j < |s.db.commits| {
        assert Older(s.db.rows, s.db.commits[i], s.db.commits[j]);
        OlderStays(s, l, s.db.commits[i], s.db.commits[j]);
      }
    }
  }

  lemma OldWorkStaysOrdered(s: State, l: Label, failed: set<string>, w: Work)
    requires Enabled(s, l) && Latest(s, l)
    requires WorkOk(s, w) && WorkOrdered(s, failed, w)
    ensures WorkOrdered(Step(s, l), failed + Failing(l), w)
  {
    var s', failed' := Step(s, l), failed + Failing(l);
    forall j | 0 <= j < |w.batch| && (j < w.pos || (j == w.pos && w.phase != Publishing))
      ensures Handled(s', failed', w.batch[j].id)
    {
      HandledStays(s, l, failed, w.batch[j].id);
    }
    forall k, id | 0 <= k < |w.batch| && Older(s'.db.rows, id, w.batch[k].id)
      ensures Handled(s', failed', id) || exists j | 0 <= j < k :: w.batch[j].id == id
    {
      assert FromRow(s.db.rows, w.batch[k]) by { assert w.batch[k] in w.batch; }
      OlderStays(s, l, id, w.batch[k].id);
      assert NoGapBefore(s, failed, w, k);
      if Handled(s, failed, id) {
        HandledStays(s, l, failed, id);
      }
    }
  }

  /** A batch is an oldest-first prefix of the rows not yet marked sent, so nothing is skipped. */
  lemma FetchIsOrdered(base: Table, s: State, failed: set<string>, ids: seq<string>)
    requires Sound(base, s) && OldestPending(s.db.rows, ids, BATCH_SIZE)
    ensures WorkOrdered(s, failed, Work(Snapshot(s.db.rows, ids), 0, Publishing))
  {
    var w := Work(Snapshot(s.db.rows, ids), 0, Publishing);
    forall k, id | 0 <= k < |w.batch| && Older(s.db.rows, id, w.batch[k].id)
      ensures Handled(s, failed, id) || exists j | 0 <= j < k :: w.batch[j].id == id
    {
      if s.db.rows[id].status == Pending {
        assert id in ids;
        var j :| 0 <= j < |ids| && ids[j] == id;
        assert j < k;
        assert w.batch[j].id == id;
      }
    }
  }

  lemma WorkFrame(s: State, s': State, failed: set<string>, w: Work)
    requires s.db == s'.db && s.log == s'.log && WorkOrdered(s, failed, w)
    ensures WorkOrdered(s', failed, w)
  {
    forall k | 0 <= k < |w.batch|
      ensures NoGapBefore(s', failed, w, k)
    {
      assert NoGapBefore(s, failed, w, k);
      forall id | Older(s'.db.rows, id, w.batch[k].id)
        ensures Handled(s', failed, id) || exists j | 0 <= j < k :: w.batch[j].id == id
      {
        assert Handled(s, failed, id) || exists j | 0 <= j < k :: w.batch[j].id == id;
      }
    }
  }

  /** The acting publisher's own progress. */
  lemma ProgressStaysOrdered(s: State, l: Label, failed: set<string>, p: nat)
    requires Enabled(s, l) && (l.Publish? || l.MarkSent? || l.MarkFailed?) && l.p == p
    requires WorkOk(s, s.workers[p]) && WorkOrdered(s, failed, s.workers[p])
    ensures WorkOrdered(Step(s, l), failed + Failing(l), Step(s, l).workers[p])
  {
    var w, s' := s.workers[p], Step(s, l);
    OldWorkStaysOrdered(s, l, failed, w);
    if l.Publish? {
      CopiesAppend(s.log, MessageOf(w.batch[w.pos]));
      assert Handled(s', failed + Failing(l), w.batch[w.pos].id);
    }
    forall k | 0 <= k < |w.batch|
      ensures NoGapBefore(s', failed + Failing(l), s'.workers[p], k)
    {
      assert NoGapBefore(s', failed + Failing(l), w, k);
    }
  }

  predicate Acts(l: Label, p: nat) {
    (l.Publish? || l.MarkSent? || l.MarkFailed?) && l.p == p
  }

  /** A step of somebody else leaves a publisher's own work alone. */
  lemma OthersWork(s: State, l: Label, p: nat)
    requires Enabled(s, l) && p in Step(s, l).workers && !Acts(l, p)
    ensures p in s.workers ==> Step(s, l).workers[p] == s.workers[p]
    ensures p !in s.workers ==> l.Fetch? && l.p == p
  {
  }

  lemma StepKeepsWorkOrdered(base: Table, s: State, l: Label, failed: set<string>, p: nat)
    requires Sound(base, s) && Enabled(s, l) && Latest(s, l)
    requires p in s.workers ==> WorkOrdered(s, failed, s.workers[p])
    requires p in Step(s, l).workers
    ensures WorkOrdered(Step(s, l), failed + Failing(l), Step(s, l).workers[p])
  {
    if Acts(l, p) {
      ProgressStaysOrdered(s, l, failed, p);
    } else {
      OthersWork(s, l, p);
      if p in s.workers {
        OldWorkStaysOrdered(s, l, failed, s.workers[p]);
      } else {
        assert failed + Failing(l) == failed;
        FetchIsOrdered(base, s, failed, l.ids);
        WorkFrame(s, Step(s, l), failed, Work(Snapshot(s.db.rows, l.ids), 0, Publishing));
      }
    }
  }

  lemma StepKeepsDelivered(base: Table, s: State, l: Label, failed: set<string>)
    requires Sound(base, s) && Enabled(s, l) && Latest(s, l) && Ordered(s, failed)
    ensures DeliveredInOrder(Step(s, l), failed + Failing(l))
  {
    var s', failed' := Step(s, l), failed + Failing(l);
    StepGrows(s, l);
    forall id, prior | Copies(s'.log, id) > 0 && Older(s'.db.rows, prior, id)
      ensures Handled(s', failed', prior)
    {
      if Copies(s.log, id) > 0 {
        assert id in s.db.rows by {
          CopiesMember(s.log, id);
          var m :| m in s.log && m.eventId == id;
          assert MessageOk(s.db.rows, m);
        }
        OlderStays(s, l, prior, id);
        HandledStays(s, l, failed, prior);
      } else {
        assert l.Publish?;
        var w := s.workers[l.p];
        assert WorkOk(s, w) && WorkOrdered(s, failed, w);
        CopiesAppend(s.log, MessageOf(w.batch[w.pos]));
        assert w.batch[w.pos].id == id;
        assert NoGapBefore(s, failed, w, w.pos);
        assert Handled(s, failed, prior);
        HandledStays(s, l, failed, prior);
      }
    }
  }

  lemma StepKeepsOrdered(base: Table, s: State, l: Label, failed: set<string>)
    requires Sound(base, s) && Enabled(s, l) && Latest(s, l) && Ordered(s, failed)
    ensures Ordered(Step(s, l), failed + Failing(l))
  {
    StepKeepsCommitsOrdered(base, s, l);
    StepKeepsDelivered(base, s, l, failed);
    forall p | p in Step(s, l).workers
      ensures WorkOrdered(Step(s, l), failed + Failing(l), Step(s, l).workers[p])
    {
      StepKeepsWorkOrdered(base, s, l, failed, p);
    }
  }

  lemma FailuresSnoc(ls: seq<Label>, l: Label)
    ensures Failures(ls + [l]) == Failures(ls) + Failing(l)
  {
  }

  lemma {:induction false} RunIsOrdered(base: Table, ls: seq<Label>)
    requires TableOk(base) && IsRun(Init(base), ls) && InCommitOrder(Init(base), ls)
    ensures Ordered(After(Init(base), ls), Failures(ls))
  {
    if ls != [] {
      var init, l := ls[..|ls| - 1], ls[|ls| - 1];
      RunIsOrdered(base, init);
      RunIsSound(base, init);
      assert ls == init + [l];
      FailuresSnoc(init, l);
      StepKeepsOrdered(base, After(Init(base), init), l, Failures(init));
    }
  }
}
