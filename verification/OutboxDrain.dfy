/** How long an event waits behind events that never publish. */
module OutboxDrain {
  import opened Database
  import opened Outbox
  import opened OutboxDelivery
  import opened OutboxAccounting
  import opened OutboxOrder

  /** Publisher `p` has no trouble but with `poison`: its publish calls for other events succeed, its marks for
      sent events are applied, and rows that arrive are newer than `c`. Whatever else happens is left open:
      other publishers may do or fail to do anything, and anybody may crash, `p` included. */
  predicate Drains(l: Label, p: nat, poison: set<string>, c: int) {
    && (l.Publish? && l.p == p && l.id !in poison ==> l.outcome.Acked?)
    && (l.MarkSent? && l.p == p ==> l.applied)
    && (l.Transact? ==> c < l.m.createdAt)
  }

  /** Healthy pending events that an oldest-first query may put before `e`. */
  ghost function Waiting(rows: map<string, Row>, poison: set<string>, e: string): set<string>
    requires e in rows
  {
    set id | id in rows && id != e && id !in poison && rows[id].status == Pending && rows[id].createdAt <= rows[e].createdAt
  }

  /** Poison events that an oldest-first query may put before an event created at `c`. */
  ghost function PoisonAhead(rows: map<string, Row>, poison: set<string>, c: int): set<string> {
    set id | id in rows && id in poison && rows[id].createdAt <= c
  }

  /** The batches publisher `p` finished. */
  function Batches(ls: seq<Label>, p: nat): nat {
    if ls == [] then 0 else Batches(ls[..|ls| - 1], p) + (if ls[|ls| - 1] == Finish(p) then 1 else 0)
  }

  function Ids(w: Work): set<string> {
    set x | x in w.batch :: x.id
  }

  /** The healthy part of a batch is sent up to the current position. */
  ghost predicate SentSoFar(s: State, w: Work, poison: set<string>) {
    && w.pos <= |w.batch|
    && (forall i | 0 <= i < w.pos && w.batch[i].id !in poison :: IsSent(s, w.batch[i].id))
    && (w.phase != Publishing ==> w.pos < |w.batch| && (w.phase == Failed ==> w.batch[w.pos].id in poison))
    && (forall x | x in w.batch :: x.id in s.db.rows)
  }

  /** Either `e` is sent, or the finished batches took `used` events off the `k` that waited before it and
      the one being worked on holds `e` or takes `gain` more. */
  ghost predicate Progress(s: State, p: nat, poison: set<string>, e: string, gain: int, k: int, used: int) {
    && e in s.db.rows
    && (!IsSent(s, e) ==>
          && |Waiting(s.db.rows, poison, e)| + used <= k
          && (p in s.workers ==>
                && SentSoFar(s, s.workers[p], poison)
                && (e in Ids(s.workers[p]) || |Waiting(s.db.rows, poison, e) - Ids(s.workers[p])| + used + gain <= k)))
  }

  /** A batch that leaves `e` out is full, and all of it stands before `e`. */
  lemma FullBatchGains(rows: map<string, Row>, ids: seq<string>, poison: set<string>, e: string)
    requires OldestPending(rows, ids, BATCH_SIZE) && e in rows && rows[e].status == Pending && e !in ids
    ensures var taken := set id | id in ids;
            |Waiting(rows, poison, e) - taken| + BATCH_SIZE - |PoisonAhead(rows, poison, rows[e].createdAt)|
            <= |Waiting(rows, poison, e)|
  {
    var taken := set id | id in ids;
    var waiting, ahead := Waiting(rows, poison, e), PoisonAhead(rows, poison, rows[e].createdAt);
    DistinctCount(ids);
    assert taken - ahead <= waiting by {
      forall id | id in taken - ahead
        ensures id in waiting
      {
        var i :| 0 <= i < |ids| && ids[i] == id;
        assert rows[ids[i]].createdAt <= rows[e].createdAt;
      }
    }
    CardinalityOfDifference(taken, ahead);
    SubsetRemoval(waiting, taken - ahead);
    assert waiting - taken <= waiting - (taken - ahead);
    SubsetCount(waiting - taken, waiting - (taken - ahead));
  }

  lemma {:induction false} DistinctCount(ids: seq<string>)
    requires forall i, j | 0 <= i < j < |ids| :: ids[i] != ids[j]
    ensures |set id | id in ids| == |ids|
  {
    if ids != [] {
      var init, last := ids[..|ids| - 1], ids[|ids| - 1];
      DistinctCount(init);
      assert ids == init + [last];
      assert (set id | id in ids) == (set id | id in init) + {last};
    }
  }

  lemma CardinalityOfDifference<T>(a: set<T>, b: set<T>)
    ensures |a - b| >= |a| - |b|
  {
    assert a == (a - b) + (a * b);
    SubsetCount(a * b, b);
  }

  lemma {:induction false} SubsetCount<T>(a: set<T>, b: set<T>)
    requires a <= b
    ensures |a| <= |b|
  {
    assert b == a + (b - a);
  }

  lemma SubsetRemoval<T>(a: set<T>, b: set<T>)
    requires b <= a
    ensures |a - b| == |a| - |b|
  {
    assert a == (a - b) + b;
  }

  lemma RowsDrain(s: State, l: Label, p: nat, poison: set<string>, e: string)
    requires Enabled(s, l) && e in s.db.rows && Drains(l, p, poison, s.db.rows[e].createdAt)
    ensures e in Step(s, l).db.rows && Step(s, l).db.rows[e].createdAt == s.db.rows[e].createdAt
    ensures Waiting(Step(s, l).db.rows, poison, e) <= Waiting(s.db.rows, poison, e)
    ensures PoisonAhead(Step(s, l).db.rows, poison, s.db.rows[e].createdAt) == PoisonAhead(s.db.rows, poison, s.db.rows[e].createdAt)
    ensures IsSent(s, e) ==> IsSent(Step(s, l), e)
  {
    StepGrows(s, l);
    forall id | id in s.db.rows
      ensures Keeps(s.db.rows[id], Step(s, l).db.rows[id])
    {
    }
  }

  lemma SentSoFarStays(s: State, s': State, w: Work, poison: set<string>)
    requires SentSoFar(s, w, poison) && RowsGrow(s.db.rows, s'.db.rows)
    ensures SentSoFar(s', w, poison)
  {
    forall i | 0 <= i < w.pos && w.batch[i].id !in poison
      ensures IsSent(s', w.batch[i].id)
    {
      assert IsSent(s, w.batch[i].id) && Keeps(s.db.rows[w.batch[i].id], s'.db.rows[w.batch[i].id]);
    }
  }

  /** The acting publisher keeps its promise through publish and mark. */
  lemma WorkProgresses(s: State, l: Label, p: nat, poison: set<string>, c: int)
    requires Enabled(s, l) && Drains(l, p, poison, c) && Acts(l, p)
    requires SentSoFar(s, s.workers[p], poison)
    ensures SentSoFar(Step(s, l), Step(s, l).workers[p], poison)
    ensures Ids(Step(s, l).workers[p]) == Ids(s.workers[p])
  {
    StepGrows(s, l);
    var w := s.workers[p];
    SentSoFarStays(s, Step(s, l), w, poison);
    assert w.batch[w.pos] in w.batch;
  }

  lemma SnapshotIds(rows: map<string, Row>, ids: seq<string>)
    requires forall i | 0 <= i < |ids| :: ids[i] in rows
    ensures Ids(Work(Snapshot(rows, ids), 0, Publishing)) == set id | id in ids
  {
    var w := Work(Snapshot(rows, ids), 0, Publishing);
    forall id | id in ids
      ensures id in Ids(w)
    {
      var i :| 0 <= i < |ids| && ids[i] == id;
      assert w.batch[i] in w.batch && w.batch[i].id == id;
    }
  }

  lemma FetchProgresses(s: State, l: Label, p: nat, poison: set<string>, e: string, gain: int, k: int, used: int)
    requires Enabled(s, l) && l.Fetch? && l.p == p && e in s.db.rows && s.db.rows[e].status == Pending
    requires gain <= BATCH_SIZE - |PoisonAhead(s.db.rows, poison, s.db.rows[e].createdAt)|
    requires |Waiting(s.db.rows, poison, e)| + used <= k
    ensures Progress(Step(s, l), p, poison, e, gain, k, used)
  {
    SnapshotIds(s.db.rows, l.ids);
    assert Step(s, l).db == s.db;
    if e !in l.ids {
      FullBatchGains(s.db.rows, l.ids, poison, e);
    }
  }

  lemma FinishProgresses(s: State, l: Label, p: nat, poison: set<string>, e: string, gain: int, k: int, used: int)
    requires Enabled(s, l) && l.Finish? && l.p == p && e !in poison
    requires Progress(s, p, poison, e, gain, k, used)
    ensures Progress(Step(s, l), p, poison, e, gain, k, used + gain)
  {
    var w := s.workers[p];
    if !IsSent(s, e) {
      assert e !in Ids(w);
      assert Waiting(s.db.rows, poison, e) - Ids(w) == Waiting(s.db.rows, poison, e);
    }
  }

  /** A publisher in the middle of its batch, whoever takes the step, as long as it stays in it. */
  lemma BatchProgresses(s: State, l: Label, p: nat, poison: set<string>, c: int)
    requires Enabled(s, l) && Drains(l, p, poison, c) && p in s.workers && p in Step(s, l).workers
    requires SentSoFar(s, s.workers[p], poison)
    ensures SentSoFar(Step(s, l), Step(s, l).workers[p], poison) && Ids(Step(s, l).workers[p]) == Ids(s.workers[p])
  {
    if Acts(l, p) {
      WorkProgresses(s, l, p, poison, c);
    } else {
      OthersWork(s, l, p);
      StepGrows(s, l);
      SentSoFarStays(s, Step(s, l), s.workers[p], poison);
    }
  }

  lemma Enters(s: State, l: Label, p: nat)
    requires Enabled(s, l) && p in Step(s, l).workers && p !in s.workers
    ensures l.Fetch? && l.p == p
  {
  }

  lemma StepProgresses(s: State, l: Label, p: nat, poison: set<string>, e: string, gain: int, k: int, used: int)
    requires Progress(s, p, poison, e, gain, k, used) && e !in poison
    requires Enabled(s, l) && Drains(l, p, poison, s.db.rows[e].createdAt)
    requires gain <= BATCH_SIZE - |PoisonAhead(s.db.rows, poison, s.db.rows[e].createdAt)|
    ensures Progress(Step(s, l), p, poison, e, gain, k, used + (if l == Finish(p) then gain else 0))
  {
    RowsDrain(s, l, p, poison, e);
    if IsSent(s, e) {
    } else if l.Fetch? && l.p == p {
      FetchProgresses(s, l, p, poison, e, gain, k, used);
    } else if l == Finish(p) {
      FinishProgresses(s, l, p, poison, e, gain, k, used);
    } else {
      hide SentSoFar, Drains, IsSent;
      var before, after := Waiting(s.db.rows, poison, e), Waiting(Step(s, l).db.rows, poison, e);
      SubsetCount(after, before);
      if p in Step(s, l).workers {
        assert p in s.workers by {
          if p !in s.workers { Enters(s, l, p); }
        }
        BatchProgresses(s, l, p, poison, s.db.rows[e].createdAt);
        SubsetCount(after - Ids(s.workers[p]), before - Ids(s.workers[p]));
      }
      hide Step, Enabled, Waiting, Ids;
    }
  }

  lemma {:induction false} RowsDrainOverRun(s: State, ls: seq<Label>, p: nat, poison: set<string>, e: string)
    requires IsRun(s, ls) && e in s.db.rows
    requires forall l | l in ls :: Drains(l, p, poison, s.db.rows[e].createdAt)
    ensures var s', c := After(s, ls), s.db.rows[e].createdAt;
            && e in s'.db.rows && s'.db.rows[e].createdAt == c
            && PoisonAhead(s'.db.rows, poison, c) == PoisonAhead(s.db.rows, poison, c)
  {
    if ls != [] {
      var init, l := ls[..|ls| - 1], ls[|ls| - 1];
      assert l in ls && forall x | x in init :: x in ls;
      RowsDrainOverRun(s, init, p, poison, e);
      RowsDrain(After(s, init), l, p, poison, e);
    }
  }

  function Used(ls: seq<Label>, p: nat, gain: int): int {
    if ls == [] then 0 else Used(ls[..|ls| - 1], p, gain) + (if ls[|ls| - 1] == Finish(p) then gain else 0)
  }

  lemma {:induction false} UsedIsProduct(ls: seq<Label>, p: nat, gain: int)
    ensures Used(ls, p, gain) == Batches(ls, p) * gain
  {
    if ls != [] {
      var n := Batches(ls[..|ls| - 1], p);
      UsedIsProduct(ls[..|ls| - 1], p, gain);
      assert (n + 1) * gain == n * gain + gain;
    }
  }

  lemma {:induction false} RunProgresses(s: State, ls: seq<Label>, p: nat, poison: set<string>, e: string, gain: int)
    requires IsRun(s, ls) && p !in s.workers && e in s.db.rows && e !in poison
    requires forall l | l in ls :: Drains(l, p, poison, s.db.rows[e].createdAt)
    requires gain <= BATCH_SIZE - |PoisonAhead(s.db.rows, poison, s.db.rows[e].createdAt)|
    ensures Progress(After(s, ls), p, poison, e, gain, |Waiting(s.db.rows, poison, e)|, Used(ls, p, gain))
  {
    if ls != [] {
      var init, l := ls[..|ls| - 1], ls[|ls| - 1];
      assert l in ls && forall x | x in init :: x in ls;
      RunProgresses(s, init, p, poison, e, gain);
      RowsDrainOverRun(s, init, p, poison, e);
      StepProgresses(After(s, init), l, p, poison, e, gain, |Waiting(s.db.rows, poison, e)|, Used(init, p, gain));
    }
  }

  lemma Overshoot(k: nat, gain: nat, n: nat)
    requires gain > 0 && n >= k / gain + 1
    ensures n * gain > k
  {
    assert n * gain >= (k / gain + 1) * gain;
    assert k == (k / gain) * gain + k % gain;
  }

  /** Poison does not block the queue: if at most P < 100 of the rows up to `e` keep failing, a pending event
      with k healthy pending events before it is sent once any one publisher has finished k / (100 - P) + 1
      batches without trouble of its own, whatever newer rows arrive and whatever other publishers do. */
  lemma DrainBound(s: State, ls: seq<Label>, p: nat, poison: set<string>, e: string, P: nat)
    requires IsRun(s, ls) && p !in s.workers && e in s.db.rows && e !in poison
    requires forall l | l in ls :: Drains(l, p, poison, s.db.rows[e].createdAt)
    requires |PoisonAhead(s.db.rows, poison, s.db.rows[e].createdAt)| <= P < 100
    requires Batches(ls, p) >= |Waiting(s.db.rows, poison, e)| / (100 - P) + 1
    ensures IsSent(After(s, ls), e)
  {
    var k, gain, n := |Waiting(s.db.rows, poison, e)|, BATCH_SIZE - P, Batches(ls, p);
    RunProgresses(s, ls, p, poison, e, gain);
    UsedIsProduct(ls, p, gain);
    Overshoot(k, gain, n);
  }

  /** A hundred rows that are pending and poisoned. */
  ghost predicate Blocking(s: State, poison: set<string>) {
    && |poison| == 100
    && forall id | id in poison :: id in s.db.rows && s.db.rows[id].status == Pending
  }

  ghost predicate Behind(s: State, poison: set<string>, id: string) {
    id in s.db.rows && forall x | x in poison && x in s.db.rows :: s.db.rows[x].createdAt < s.db.rows[id].createdAt
  }

  /** Poison events always fail and rows that arrive are newer than all of them. Any number of publishers,
      crashes and failed marks are allowed. */
  ghost predicate Starves(s: State, l: Label, poison: set<string>) {
    && (l.Publish? && l.id in poison ==> !l.outcome.Acked?)
    && (l.Transact? ==> forall x | x in poison && x in s.db.rows :: s.db.rows[x].createdAt < l.m.createdAt)
  }

  ghost predicate StarvingRun(s: State, ls: seq<Label>, poison: set<string>)
    requires IsRun(s, ls)
  {
    ls == [] || (StarvingRun(s, ls[..|ls| - 1], poison) && Starves(After(s, ls[..|ls| - 1]), ls[|ls| - 1], poison))
  }

  /** Everybody is busy with poison only, and everything else pending is behind it. */
  ghost predicate Stuck(s: State, poison: set<string>) {
    && Blocking(s, poison)
    && (forall p | p in s.workers :: s.workers[p].phase != Delivered && forall x | x in s.workers[p].batch :: x.id in poison)
    && (forall id | id in s.db.rows && s.db.rows[id].status == Pending && id !in poison :: Behind(s, poison, id))
  }

  lemma OnlyPoisonFetched(s: State, poison: set<string>, ids: seq<string>)
    requires Stuck(s, poison) && OldestPending(s.db.rows, ids, BATCH_SIZE)
    ensures forall id | id in ids :: id in poison
  {
    var taken := set id | id in ids;
    DistinctCount(ids);
    if id :| id in ids && id !in poison {
      assert Behind(s, poison, id);
      assert poison <= taken by {
        forall x | x in poison
          ensures x in taken
        {
          var i :| 0 <= i < |ids| && ids[i] == id;
          assert s.db.rows[x].createdAt < s.db.rows[ids[i]].createdAt;
        }
      }
      SubsetCount(poison + {id}, taken);
      assert false;
    }
  }

  lemma NothingElseHappens(s: State, l: Label, poison: set<string>)
    requires Stuck(s, poison) && Enabled(s, l)
    ensures !l.MarkSent?
    ensures forall id | id !in poison :: Copies(Step(s, l).log, id) == Copies(s.log, id)
    ensures forall id | id in s.db.rows :: Step(s, l).db.rows[id].status == s.db.rows[id].status
    ensures l.Publish? ==> l.id in poison
  {
    StepGrows(s, l);
    if l.Publish? {
      assert s.workers[l.p].batch[s.workers[l.p].pos] in s.workers[l.p].batch;
      CopiesAppend(s.log, MessageOf(s.workers[l.p].batch[s.workers[l.p].pos]));
    }
  }

  lemma WorkersStayStuck(s: State, l: Label, poison: set<string>, p: nat)
    requires Stuck(s, poison) && Enabled(s, l) && Starves(s, l, poison) && p in Step(s, l).workers
    ensures Step(s, l).workers[p].phase != Delivered && forall x | x in Step(s, l).workers[p].batch :: x.id in poison
  {
    NothingElseHappens(s, l, poison);
    if l.Fetch? {
      OnlyPoisonFetched(s, poison, l.ids);
    }
  }

  lemma RowsStayStuck(s: State, l: Label, poison: set<string>)
    requires Stuck(s, poison) && Enabled(s, l) && Starves(s, l, poison)
    ensures Blocking(Step(s, l), poison)
    ensures forall id | id in Step(s, l).db.rows && Step(s, l).db.rows[id].status == Pending && id !in poison ::
              Behind(Step(s, l), poison, id)
  {
    StepGrows(s, l);
    NothingElseHappens(s, l, poison);
    forall id | id in s.db.rows
      ensures Keeps(s.db.rows[id], Step(s, l).db.rows[id])
    {
    }
  }

  lemma StepStaysStuck(s: State, l: Label, poison: set<string>)
    requires Stuck(s, poison) && Enabled(s, l) && Starves(s, l, poison)
    ensures Stuck(Step(s, l), poison)
  {
    RowsStayStuck(s, l, poison);
    forall p | p in Step(s, l).workers
      ensures Step(s, l).workers[p].phase != Delivered && forall x | x in Step(s, l).workers[p].batch :: x.id in poison
    {
      WorkersStayStuck(s, l, poison, p);
    }
  }

  /** The limit of 100 is sharp: when the hundred oldest pending rows all keep failing, no run ever delivers or
      marks anything behind them. */
  lemma {:induction false} HundredPoisonRowsStarveTheRest(s: State, ls: seq<Label>, poison: set<string>, id: string)
    requires IsRun(s, ls) && StarvingRun(s, ls, poison)
    requires Stuck(s, poison) && id !in poison
    ensures Stuck(After(s, ls), poison)
    ensures Copies(After(s, ls).log, id) == Copies(s.log, id)
    ensures id in After(s, ls).db.rows && !IsSent(s, id) ==> After(s, ls).db.rows[id].status == Pending
  {
    if ls != [] {
      var init := ls[..|ls| - 1];
      HundredPoisonRowsStarveTheRest(s, init, poison, id);
      StepStaysStuck(After(s, init), ls[|ls| - 1], poison);
      NothingElseHappens(After(s, init), ls[|ls| - 1], poison);
    }
  }
}
