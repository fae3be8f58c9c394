/** Exactly when events reach the log in commit order, for runs in which anything may fail.

    After a publish error the publisher goes on with the next event of its batch. Whether that harms the
    order depends on one thing only: an event that is delivered for the first time while an earlier one of
    the same batch has not been delivered overtakes it. Everything is stated for any choice of products, so
    it holds for one product on its own as well as for the log as a whole. */
module OutboxOvertaking {
  import opened Domain
  import opened Events
  import opened Database
  import opened Outbox
  import opened OutboxDelivery
  import opened OutboxOrder
  import opened OutboxSequence

  /** A batch is in commit order, and whatever is older than one of its events stands before it in the batch
      or has been delivered. No publish failure changes that. */
  ghost predicate Gapless(s: State, w: Work) {
    && (forall j, k | 0 <= j < k < |w.batch| :: Older(s.db.rows, w.batch[j].id, w.batch[k].id))
    && (forall k | 0 <= k < |w.batch| :: NoGapBefore(s, {}, w, k))
  }

  ghost predicate AllGapless(s: State) {
    CommitsOrdered(s.db) && forall p | p in s.workers :: Gapless(s, s.workers[p])
  }

  lemma FetchIsGapless(base: Table, s: State, ids: seq<string>)
    requires Sound(base, s) && CommitsOrdered(s.db) && OldestPending(s.db.rows, ids, BATCH_SIZE)
    ensures Gapless(s, Work(Snapshot(s.db.rows, ids), 0, Publishing))
  {
    var w := Work(Snapshot(s.db.rows, ids), 0, Publishing);
    FetchIsOrdered(base, s, {}, ids);
    forall j, k | 0 <= j < k < |w.batch|
      ensures Older(s.db.rows, w.batch[j].id, w.batch[k].id)
    {
      assert ids[j] in s.db.rows && ids[k] in s.db.rows && ids[j] != ids[k];
      CommitOrderIsTotal(s.db, ids[j], ids[k]);
    }
  }

  lemma OldWorkStaysGapless(s: State, l: Label, w: Work, w': Work)
    requires Enabled(s, l) && Latest(s, l) && WorkOk(s, w) && Gapless(s, w) && w'.batch == w.batch
    ensures Gapless(Step(s, l), w')
  {
    var s' := Step(s, l);
    StepGrows(s, l);
    forall k, id | 0 <= k < |w.batch|
      ensures Older(s'.db.rows, id, w.batch[k].id) <==> Older(s.db.rows, id, w.batch[k].id)
    {
      assert FromRow(s.db.rows, w.batch[k]) by { assert w.batch[k] in w.batch; }
      OlderStays(s, l, id, w.batch[k].id);
    }
    forall k, id | 0 <= k < |w.batch| && Older(s'.db.rows, id, w.batch[k].id)
      ensures Handled(s', {}, id) || exists j | 0 <= j < k :: w'.batch[j].id == id
    {
      assert NoGapBefore(s, {}, w, k);
    }
  }

  lemma BatchesStay(s: State, l: Label, p: nat)
    requires Enabled(s, l) && p in Step(s, l).workers
    ensures p in s.workers ==> Step(s, l).workers[p].batch == s.workers[p].batch
    ensures p !in s.workers ==> l.Fetch? && l.p == p
  {
  }

  lemma StepKeepsGapless(base: Table, s: State, l: Label)
    requires Sound(base, s) && AllGapless(s) && Enabled(s, l) && Latest(s, l)
    ensures AllGapless(Step(s, l))
  {
    StepKeepsCommitsOrdered(base, s, l);
    forall p | p in Step(s, l).workers
      ensures Gapless(Step(s, l), Step(s, l).workers[p])
    {
      BatchesStay(s, l, p);
      if p in s.workers {
        OldWorkStaysGapless(s, l, s.workers[p], Step(s, l).workers[p]);
      } else {
        FetchIsGapless(base, s, l.ids);
        FetchedFrame(s, Step(s, l), Work(Snapshot(s.db.rows, l.ids), 0, Publishing));
      }
    }
  }

  lemma FetchedFrame(s: State, s': State, w: Work)
    requires s.db == s'.db && s.log == s'.log && Gapless(s, w)
    ensures Gapless(s', w)
  {
    forall k, id | 0 <= k < |w.batch| && Older(s'.db.rows, id, w.batch[k].id)
      ensures Handled(s', {}, id) || exists j | 0 <= j < k :: w.batch[j].id == id
    {
      assert NoGapBefore(s, {}, w, k);
    }
  }

  lemma {:induction false} RunIsGapless(base: Table, ls: seq<Label>)
    requires TableOk(base) && IsRun(Init(base), ls) && InCommitOrder(Init(base), ls)
    ensures Sound(base, After(Init(base), ls)) && AllGapless(After(Init(base), ls))
  {
    hide Gapless, CommitsOrdered;
    RunIsSound(base, ls);
    if ls == [] {
      NothingCommitted(base);
    } else {
      RunIsGapless(base, ls[..|ls| - 1]);
      StepKeepsGapless(base, After(Init(base), ls[..|ls| - 1]), ls[|ls| - 1]);
    }
  }

  lemma NothingCommitted(base: Table)
    ensures CommitsOrdered(Fresh(base))
  {
  }

  /** The step delivers an event of the products `ks` for the first time, past an undelivered one of theirs in
      the same batch. */
  ghost predicate Overtakes(s: State, l: Label, ks: iset<string>) {
    && l.Publish? && !l.outcome.ErrorLost? && l.p in s.workers
    && Copies(s.log, l.id) == 0 && Concerns(s.db.rows, l.id, ks)
    && var w := s.workers[l.p];
       exists j | 0 <= j < w.pos && j < |w.batch| :: Copies(s.log, w.batch[j].id) == 0 && Concerns(s.db.rows, w.batch[j].id, ks)
  }

  ghost predicate NeverOvertakes(s: State, ls: seq<Label>, ks: iset<string>)
    requires IsRun(s, ls)
  {
    ls == [] ||
    (NeverOvertakes(s, ls[..|ls| - 1], ks) && !Overtakes(After(s, ls[..|ls| - 1]), ls[|ls| - 1], ks))
  }

  /** The first deliveries of the products `ks` are a prefix of their commits. */
  ghost predicate InOrder(s: State, ks: iset<string>) {
    Only(s.db.rows, Firsts(s.log), ks) <= Only(s.db.rows, s.db.commits, ks)
  }

  /** An event overtakes exactly when something older of the same products has not been delivered. */
  lemma OvertakingExactly(s: State, l: Label, ks: iset<string>)
    requires AllGapless(s) && Enabled(s, l) && l.Publish? && !l.outcome.ErrorLost?
    requires Copies(s.log, l.id) == 0 && Concerns(s.db.rows, l.id, ks)
    ensures Overtakes(s, l, ks) <==>
            exists prior :: Older(s.db.rows, prior, l.id) && Concerns(s.db.rows, prior, ks) && Copies(s.log, prior) == 0
  {
    var w := s.workers[l.p];
    assert Gapless(s, w) && NoGapBefore(s, {}, w, w.pos);
    if Overtakes(s, l, ks) {
      var j :| 0 <= j < w.pos && j < |w.batch| && Copies(s.log, w.batch[j].id) == 0 && Concerns(s.db.rows, w.batch[j].id, ks);
      assert Older(s.db.rows, w.batch[j].id, l.id);
    }
  }

  /** Appending to a part of an ascending list gives a longer part exactly when nothing earlier is missing. */
  lemma NextInOrder(rows: map<string, Row>, all: seq<string>, d: nat, id: string)
    requires Ascending(rows, all) && Distinct(all) && d <= |all|
    requires id in all && id !in all[..d]
    ensures all[..d] + [id] <= all <==> forall x | x in all && Older(rows, x, id) :: x in all[..d]
  {
    var m :| 0 <= m < |all| && all[m] == id;
    assert forall i | 0 <= i < d :: all[i] in all[..d];
    if d < m {
      assert Older(rows, all[d], all[m]);
      assert all[d] !in all[..d];
      assert (all[..d] + [id])[d] != all[d];
    } else {
      assert all[..d] + [id] == all[..d + 1];
      forall x | x in all && Older(rows, x, id)
        ensures x in all[..d]
      {
        var i :| 0 <= i < |all| && all[i] == x;
        EarlierIfOlder(rows, all, i, m);
        assert all[..d][i] == x;
      }
    }
  }

  lemma EarlierIfOlder(rows: map<string, Row>, all: seq<string>, i: nat, m: nat)
    requires Ascending(rows, all) && i < |all| && m < |all| && Older(rows, all[i], all[m])
    ensures i < m
  {
  }

  lemma CommitsOf(db: Db, ks: iset<string>)
    requires Indexed(db) && CommitsOrdered(db)
    ensures Ascending(db.rows, Only(db.rows, db.commits, ks)) && Distinct(Only(db.rows, db.commits, ks))
    ensures forall id :: id in Only(db.rows, db.commits, ks) <==> Concerns(db.rows, id, ks)
  {
    OnlyAscending(db.rows, db.commits, ks);
    OnlyDistinct(db.rows, db.commits, ks);
    forall id
      ensures id in Only(db.rows, db.commits, ks) <==> Concerns(db.rows, id, ks)
    {
      OnlyHas(db.rows, db.commits, ks, id);
    }
  }

  lemma DeliveredOf(base: Table, s: State, ks: iset<string>)
    requires Sound(base, s)
    ensures forall id :: id in Only(s.db.rows, Firsts(s.log), ks) <==> Copies(s.log, id) > 0 && Concerns(s.db.rows, id, ks)
  {
    forall id
      ensures id in Only(s.db.rows, Firsts(s.log), ks) <==> Copies(s.log, id) > 0 && Concerns(s.db.rows, id, ks)
    {
      OnlyHas(s.db.rows, Firsts(s.log), ks, id);
      FirstsAreDelivered(s.log, id);
    }
  }

  /** The first delivery of an event that concerns `ks` extends their order if and only if it does not
      overtake. */
  lemma FirstDeliveryKeepsOrderExactly(base: Table, s: State, l: Label, ks: iset<string>)
    requires Sound(base, s) && AllGapless(s) && InOrder(s, ks)
    requires Enabled(s, l) && l.Publish? && !l.outcome.ErrorLost?
    requires Copies(s.log, l.id) == 0 && Concerns(s.db.rows, l.id, ks)
    ensures Only(s.db.rows, Firsts(s.log), ks) + [l.id] <= Only(s.db.rows, s.db.commits, ks) <==> !Overtakes(s, l, ks)
  {
    var all, firsts := Only(s.db.rows, s.db.commits, ks), Only(s.db.rows, Firsts(s.log), ks);
    OvertakingExactly(s, l, ks);
    CommitsOf(s.db, ks);
    DeliveredOf(base, s, ks);
    assert firsts == all[..|firsts|];
    NextInOrder(s.db.rows, all, |firsts|, l.id);
  }

  /** One delivery keeps the products `ks` in commit order if and only if it does not overtake among them. */
  lemma DeliveryKeepsOrderExactly(base: Table, s: State, l: Label, ks: iset<string>)
    requires Sound(base, s) && AllGapless(s) && InOrder(s, ks)
    requires Enabled(s, l) && l.Publish? && !l.outcome.ErrorLost?
    ensures InOrder(Step(s, l), ks) <==> !Overtakes(s, l, ks)
  {
    PublishAppends(base, s, l);
    var m := MessageOf(EventOf(l.id, s.db.rows[l.id]));
    assert (s.log + [m])[..|s.log|] == s.log;
    if Copies(s.log, l.id) == 0 {
      OnlyAppend(s.db.rows, Firsts(s.log), l.id, ks);
      if Concerns(s.db.rows, l.id, ks) {
        FirstDeliveryKeepsOrderExactly(base, s, l, ks);
      }
    }
  }

  lemma CommitsHaveRows(base: Table, s: State)
    requires Sound(base, s)
    ensures forall i | 0 <= i < |s.db.commits| :: s.db.commits[i] in s.db.rows
  {
  }

  /** What one step leaves of the two sequences: both only grow at the end. */
  lemma SequencesGrow(base: Table, s: State, l: Label, ks: iset<string>)
    requires Sound(base, s) && Enabled(s, l)
    ensures Only(s.db.rows, Firsts(s.log), ks) <= Only(Step(s, l).db.rows, Firsts(Step(s, l).log), ks)
    ensures Only(s.db.rows, s.db.commits, ks) <= Only(Step(s, l).db.rows, Step(s, l).db.commits, ks)
    ensures Step(s, l).log == s.log ==>
              Only(Step(s, l).db.rows, Firsts(Step(s, l).log), ks) == Only(s.db.rows, Firsts(s.log), ks)
  {
    var s' := Step(s, l);
    StepGrows(s, l);
    FirstsHaveRows(base, s);
    CommitsHaveRows(base, s);
    FirstsGrow(s, l);
    OnlyFrame(s.db.rows, s'.db.rows, Firsts(s.log), ks);
    OnlyFrame(s.db.rows, s'.db.rows, s.db.commits, ks);
    OnlyPrefix(s'.db.rows, Firsts(s.log), Firsts(s'.log), ks);
    OnlyPrefix(s'.db.rows, s.db.commits, s'.db.commits, ks);
  }

  lemma StepKeepsOrderExactly(base: Table, s: State, l: Label, ks: iset<string>)
    requires Sound(base, s) && AllGapless(s) && InOrder(s, ks) && Enabled(s, l)
    ensures InOrder(Step(s, l), ks) <==> !Overtakes(s, l, ks)
  {
    if l.Publish? && !l.outcome.ErrorLost? {
      DeliveryKeepsOrderExactly(base, s, l, ks);
    } else {
      SequencesGrow(base, s, l, ks);
    }
  }

  lemma FirstsGrow(s: State, l: Label)
    requires Enabled(s, l)
    ensures Firsts(s.log) <= Firsts(Step(s, l).log)
  {
    if Step(s, l).log != s.log {
      assert Step(s, l).log[..|s.log|] == s.log;
    }
  }

  lemma TwoPrefixes(a: seq<string>, b: seq<string>, all: seq<string>)
    requires Distinct(all) && a <= all && b <= all && forall x | x in a :: x in b
    ensures a <= b
  {
    forall i | 0 <= i < |a|
      ensures i < |b| && a[i] == b[i]
    {
      assert a[i] in a;
      var j :| 0 <= j < |b| && b[j] == a[i];
      assert all[j] == all[i];
    }
    if a != [] {
      var last := |a| - 1;
      assert a[last] in a;
      assert last < |b|;
    }
  }

  /** A log out of order stays out of order: new commits only go to the end. */
  lemma DisorderStays(base: Table, s: State, l: Label, ks: iset<string>)
    requires Sound(base, s) && AllGapless(s) && Enabled(s, l) && Latest(s, l) && InOrder(Step(s, l), ks)
    ensures InOrder(s, ks)
  {
    var s' := Step(s, l);
    SequencesGrow(base, s, l, ks);
    StepKeepsSound(base, s, l);
    StepKeepsGapless(base, s, l);
    CommitsOf(s'.db, ks);
    CommitsOf(s.db, ks);
    DeliveredOf(base, s, ks);
    TwoPrefixes(Only(s.db.rows, Firsts(s.log), ks), Only(s.db.rows, s.db.commits, ks), Only(s'.db.rows, s'.db.commits, ks));
  }

  /** The exact condition for order, whatever crashes, lost marks, failed publish calls and overlapping stale
      batches there are: the log without repetitions, restricted to any choice of products, is a prefix of
      their commit order if and only if no delivery ever overtook among them. */
  lemma {:induction false} OrderIffNoOvertaking(base: Table, ls: seq<Label>, ks: iset<string>)
    requires TableOk(base) && IsRun(Init(base), ls) && InCommitOrder(Init(base), ls)
    ensures InOrder(After(Init(base), ls), ks) <==> NeverOvertakes(Init(base), ls, ks)
  {
    if ls != [] {
      var init, l := ls[..|ls| - 1], ls[|ls| - 1];
      var s := After(Init(base), init);
      hide InOrder, Overtakes, AllGapless, Sound;
      OrderIffNoOvertaking(base, init, ks);
      RunIsGapless(base, init);
      if InOrder(s, ks) {
        StepKeepsOrderExactly(base, s, l, ks);
      } else if InOrder(Step(s, l), ks) {
        DisorderStays(base, s, l, ks);
      }
    } else {
      assert Firsts(Init(base).log) == [];
    }
  }

  /** Order among many products is order among fewer. */
  lemma {:induction false} FewerProducts(s: State, ls: seq<Label>, ks: iset<string>, some: iset<string>)
    requires IsRun(s, ls) && NeverOvertakes(s, ls, ks) && some <= ks
    ensures NeverOvertakes(s, ls, some)
  {
    if ls != [] {
      FewerProducts(s, ls[..|ls| - 1], ks, some);
    }
  }

  /** No event of the products `ks` ever had a failed publish call. */
  ghost predicate Untroubled(rows: map<string, Row>, failed: set<string>, ks: iset<string>) {
    forall id | id in failed && id in rows :: rows[id].key !in ks
  }

  lemma UntroubledBefore(s: State, l: Label, failed: set<string>, ks: iset<string>)
    requires Enabled(s, l) && Untroubled(Step(s, l).db.rows, failed + Failing(l), ks)
    ensures Untroubled(s.db.rows, failed, ks)
  {
    StepGrows(s, l);
    forall id | id in failed && id in s.db.rows
      ensures s.db.rows[id].key !in ks
    {
      assert Keeps(s.db.rows[id], Step(s, l).db.rows[id]);
    }
  }

  lemma UntroubledStep(s: State, l: Label, failed: set<string>, ks: iset<string>)
    requires Enabled(s, l) && Ordered(s, failed) && Untroubled(s.db.rows, failed, ks)
    ensures !Overtakes(s, l, ks)
  {
    if l.Publish? {
      var w := s.workers[l.p];
      assert WorkOrdered(s, failed, w);
      assert forall j | 0 <= j < w.pos :: Handled(s, failed, w.batch[j].id);
    }
  }

  /** Only a failed publish call for one of the products themselves can lead to overtaking among them. */
  lemma {:induction false} NoFailureNoOvertaking(base: Table, ls: seq<Label>, ks: iset<string>)
    requires TableOk(base) && IsRun(Init(base), ls) && InCommitOrder(Init(base), ls)
    requires Untroubled(After(Init(base), ls).db.rows, Failures(ls), ks)
    ensures NeverOvertakes(Init(base), ls, ks)
  {
    if ls != [] {
      var init, l := ls[..|ls| - 1], ls[|ls| - 1];
      assert ls == init + [l];
      FailuresSnoc(init, l);
      hide Overtakes, Ordered, Untroubled;
      UntroubledBefore(After(Init(base), init), l, Failures(init), ks);
      NoFailureNoOvertaking(base, init, ks);
      RunIsOrdered(base, init);
      UntroubledStep(After(Init(base), init), l, Failures(init), ks);
    }
  }

  /** For the whole log, order means that the first deliveries are a prefix of the commits. */
  lemma WholeLogInOrder(base: Table, s: State)
    requires Sound(base, s)
    ensures InOrder(s, EVERYTHING) <==> Firsts(s.log) <= s.db.commits
  {
    FirstsHaveRows(base, s);
    CommitsHaveRows(base, s);
    OnlyEverything(s.db.rows, Firsts(s.log));
    OnlyEverything(s.db.rows, s.db.commits);
  }

  /** In order and without gaps: as long as every publish call succeeds, the log with repetitions dropped
      is a prefix of the commit order, whatever crashes, marks that fail and overlapping stale batches
      there were. */
  lemma InOrderWithoutGaps(base: Table, ls: seq<Label>)
    requires TableOk(base) && IsRun(Init(base), ls) && InCommitOrder(Init(base), ls)
    requires Failures(ls) == {}
    ensures Firsts(After(Init(base), ls).log) <= After(Init(base), ls).db.commits
  {
    NoFailureNoOvertaking(base, ls, EVERYTHING);
    OrderIffNoOvertaking(base, ls, EVERYTHING);
    RunIsSound(base, ls);
    WholeLogInOrder(base, After(Init(base), ls));
  }
}
