/** The drain bound cannot be improved: for every number of poison rows and every number of healthy rows before
    an event there is a run in which one batch less than the bound leaves the event pending. */
module OutboxDrainSharp {
  import opened Domain
  import opened Decimal
  import opened Events
  import opened Database
  import opened Outbox
  import opened OutboxAccounting
  import opened OutboxOrder
  import opened OutboxDrain
  import opened OutboxPublisher

  function Name(i: nat): string {
    Digits(i)
  }

  lemma NamesDiffer(i: nat, j: nat)
    requires Name(i) == Name(j)
    ensures i == j
  {
    DigitsDenote(i);
    DigitsDenote(j);
  }

  /** The names of the rows from the a-th up to but not including the b-th. */
  function Names(a: nat, b: nat): set<string>
    requires a <= b
  {
    set i | a <= i < b :: Name(i)
  }

  lemma NamesNext(a: nat, b: nat)
    requires a <= b
    ensures Name(b) !in Names(a, b) && Names(a, b + 1) == Names(a, b) + {Name(b)}
  {
    hide Name;
    forall i | a <= i < b
      ensures Name(i) != Name(b)
    {
      if Name(i) == Name(b) {
        NamesDiffer(i, b);
      }
    }
  }

  lemma {:induction false} NamesCount(a: nat, b: nat)
    requires a <= b
    ensures |Names(a, b)| == b - a
    decreases b - a
  {
    if a < b {
      NamesCount(a, b - 1);
      NamesNext(a, b - 1);
      hide Names, Name;
    }
  }

  /** One row after the other: P poison rows, then k healthy ones of which m are sent, then the event itself. */
  ghost predicate Queue(rows: map<string, Row>, P: nat, k: nat, m: nat) {
    && rows.Keys == Names(0, P + k + 1)
    && forall i | 0 <= i <= P + k ::
         && rows[Name(i)].createdAt == i
         && rows[Name(i)].status == if P <= i < P + m then Sent else Pending
  }

  /** What the next batch takes: all the poison, and as many of the oldest healthy rows as fit. */
  function BatchIds(P: nat, m: nat): seq<string> {
    seq(BATCH_SIZE, j requires 0 <= j < BATCH_SIZE => if j < P then Name(j) else Name(m + j))
  }

  function FateOf(P: nat): nat -> Fate {
    j => if j < P then Fate(ErrorLost, true) else Fate(Acked, true)
  }

  lemma InQueue(rows: map<string, Row>, P: nat, k: nat, m: nat, i: nat)
    requires Queue(rows, P, k, m) && i <= P + k
    ensures Name(i) in rows && rows[Name(i)].createdAt == i
    ensures rows[Name(i)].status == if P <= i < P + m then Sent else Pending
  {
    assert Name(i) in Names(0, P + k + 1);
  }

  lemma BatchIsOldest(rows: map<string, Row>, P: nat, k: nat, m: nat)
    requires Queue(rows, P, k, m) && P < BATCH_SIZE && m + BATCH_SIZE - P <= k
    ensures OldestPending(rows, BatchIds(P, m), BATCH_SIZE)
  {
    var ids := BatchIds(P, m);
    forall j | 0 <= j < |ids|
      ensures ids[j] in rows && rows[ids[j]].status == Pending && rows[ids[j]].createdAt == if j < P then j else m + j
    {
      InQueue(rows, P, k, m, if j < P then j else m + j);
    }
    forall i: nat | i < P || P + m <= i < m + BATCH_SIZE
      ensures Name(i) in ids
    {
      assert ids[if i < P then i else i - m] == Name(i);
    }
    forall id | id in rows && rows[id].status == Pending && id !in ids
      ensures forall j | 0 <= j < |ids| :: rows[ids[j]].createdAt <= rows[id].createdAt
    {
      var i :| 0 <= i < P + k + 1 && Name(i) == id;
      InQueue(rows, P, k, m, i);
      assert i >= m + BATCH_SIZE;
    }
  }

  /** How many healthy rows are sent after `i` turns. */
  function SentBy(P: nat, m: nat, i: nat): nat {
    if i <= P then m else m + (i - P)
  }

  lemma MarkMoves(db: Db, P: nat, k: nat, m: nat, i: nat, e: Event)
    requires P < BATCH_SIZE && i < BATCH_SIZE && m + BATCH_SIZE - P <= k
    requires Queue(db.rows, P, k, SentBy(P, m, i)) && e.id == BatchIds(P, m)[i]
    ensures Queue(Marked(db, e, FateOf(P)(i)).rows, P, k, SentBy(P, m, i + 1))
  {
    var x := if i < P then i else m + i;
    InQueue(db.rows, P, k, SentBy(P, m, i), x);
    var rows' := Marked(db, e, FateOf(P)(i)).rows;
    assert rows'.Keys == db.rows.Keys;
    forall y | 0 <= y <= P + k
      ensures rows'[Name(y)].createdAt == y
      ensures rows'[Name(y)].status == if P <= y < P + SentBy(P, m, i + 1) then Sent else Pending
    {
      InQueue(db.rows, P, k, SentBy(P, m, i), y);
      if Name(y) == Name(x) {
        NamesDiffer(y, x);
      }
    }
  }

  lemma SnapshotNamed(rows: map<string, Row>, ids: seq<string>, i: nat)
    requires (forall j | 0 <= j < |ids| :: ids[j] in rows) && i < |ids|
    ensures Snapshot(rows, ids)[i].id == ids[i]
  {
  }

  /** The run stands after the i-th turn of a batch. */
  ghost predicate Turned(s: State, P: nat, k: nat, m: nat, i: nat)
    requires i <= BATCH_SIZE && OldestPending(s.db.rows, BatchIds(P, m), BATCH_SIZE)
  {
    var ls := Turns(0, BatchIds(P, m), i, FateOf(P));
    && IsRun(s, ls)
    && After(s, ls).workers == map[0 := Work(Snapshot(s.db.rows, BatchIds(P, m)), i, Publishing)]
    && Queue(After(s, ls).db.rows, P, k, SentBy(P, m, i))
  }

  lemma OneTurn(s: State, P: nat, k: nat, m: nat, i: nat)
    requires i < BATCH_SIZE && OldestPending(s.db.rows, BatchIds(P, m), BATCH_SIZE) && Turned(s, P, k, m, i)
    requires P < BATCH_SIZE && m + BATCH_SIZE - P <= k
    ensures Turned(s, P, k, m, i + 1)
  {
    var ids, events := BatchIds(P, m), Snapshot(s.db.rows, BatchIds(P, m));
    SnapshotNamed(s.db.rows, ids, i);
    hide OldestPending, Queue, Name;
    TurnRuns(s, 0, ids, events, i, FateOf(P));
    MarkMoves(After(s, Turns(0, ids, i, FateOf(P))).db, P, k, m, i, events[i]);
    hide Turns, SentBy, Snapshot, BatchIds, Marked, FateOf, IsRun, After;
  }

  lemma {:induction false} TurnsOfQueue(s: State, P: nat, k: nat, m: nat, i: nat)
    requires s.workers == map[] && Queue(s.db.rows, P, k, m)
    requires P < BATCH_SIZE && i <= BATCH_SIZE && m + BATCH_SIZE - P <= k
    ensures OldestPending(s.db.rows, BatchIds(P, m), BATCH_SIZE) && Turned(s, P, k, m, i)
  {
    BatchIsOldest(s.db.rows, P, k, m);
    hide OldestPending, Queue;
    if i == 0 {
      FetchRuns(s, 0, BatchIds(P, m));
    } else {
      hide Turned;
      TurnsOfQueue(s, P, k, m, i - 1);
      OneTurn(s, P, k, m, i - 1);
    }
  }

  ghost predicate AllDrain(ls: seq<Label>, P: nat, c: int) {
    forall l | l in ls :: Drains(l, 0, Names(0, P), c)
  }

  lemma AttemptDrains(P: nat, m: nat, i: nat, c: int)
    requires P < BATCH_SIZE && i < BATCH_SIZE
    ensures AllDrain(Attempt(0, BatchIds(P, m)[i], FateOf(P)(i)), P, c)
    ensures Batches(Attempt(0, BatchIds(P, m)[i], FateOf(P)(i)), 0) == 0
  {
    var ls := Attempt(0, BatchIds(P, m)[i], FateOf(P)(i));
    assert ls[..1] == [ls[0]] && ls[..1][..0] == [];
    assert Batches(ls[..1], 0) == 0;
  }

  lemma {:induction false} BatchesAdd(a: seq<Label>, b: seq<Label>, p: nat)
    ensures Batches(a + b, p) == Batches(a, p) + Batches(b, p)
  {
    if b == [] {
      assert a + b == a;
    } else {
      assert (a + b)[..|a + b| - 1] == a + b[..|b| - 1];
      BatchesAdd(a, b[..|b| - 1], p);
    }
  }

  lemma {:induction false} TurnsDrain(P: nat, m: nat, i: nat, c: int)
    requires P < BATCH_SIZE && i <= BATCH_SIZE
    ensures AllDrain(Turns(0, BatchIds(P, m), i, FateOf(P)), P, c)
    ensures Batches(Turns(0, BatchIds(P, m), i, FateOf(P)), 0) == 0
  {
    if i == 0 {
      assert [Fetch(0, BatchIds(P, m))][..0] == [];
    } else {
      TurnsDrain(P, m, i - 1, c);
      AttemptDrains(P, m, i - 1, c);
      BatchesAdd(Turns(0, BatchIds(P, m), i - 1, FateOf(P)), Attempt(0, BatchIds(P, m)[i - 1], FateOf(P)(i - 1)), 0);
    }
  }

  lemma TurnedIsFinished(s: State, P: nat, k: nat, m: nat)
    requires P < BATCH_SIZE && OldestPending(s.db.rows, BatchIds(P, m), BATCH_SIZE) && Turned(s, P, k, m, BATCH_SIZE)
    ensures var s' := After(s, Turns(0, BatchIds(P, m), BATCH_SIZE, FateOf(P)));
            && s'.workers.Keys == {0}
            && s'.workers[0].pos == |s'.workers[0].batch|
            && Queue(s'.db.rows, P, k, m + (BATCH_SIZE - P))
  {
    hide Queue, OldestPending, Turns, FateOf, IsRun, After;
  }

  lemma BatchDrains(turns: seq<Label>, P: nat, c: int)
    requires AllDrain(turns, P, c) && Batches(turns, 0) == 0
    ensures AllDrain(turns + [Finish(0)], P, c) && Batches(turns + [Finish(0)], 0) == 1
  {
    assert (turns + [Finish(0)])[..|turns|] == turns;
  }

  /** A full batch moves the queue on by 100 - P and no more. */
  lemma BatchOfQueue(s: State, P: nat, k: nat, m: nat, c: int) returns (ls: seq<Label>)
    requires s.workers == map[] && Queue(s.db.rows, P, k, m)
    requires P < BATCH_SIZE && m + BATCH_SIZE - P <= k
    ensures IsRun(s, ls) && AllDrain(ls, P, c) && Batches(ls, 0) == 1
    ensures After(s, ls).workers == map[] && Queue(After(s, ls).db.rows, P, k, m + (BATCH_SIZE - P))
  {
    var turns := Turns(0, BatchIds(P, m), BATCH_SIZE, FateOf(P));
    TurnsOfQueue(s, P, k, m, BATCH_SIZE);
    TurnsDrain(P, m, BATCH_SIZE, c);
    TurnedIsFinished(s, P, k, m);
    hide *;
    FinishRuns(s, turns, 0);
    ls := turns + [Finish(0)];
    BatchDrains(turns, P, c);
  }

  function Moved(n: nat, gain: nat): nat {
    n * gain
  }

  lemma MovedOnce(n: nat, gain: nat)
    requires n > 0
    ensures Moved(n, gain) == gain + Moved(n - 1, gain)
  {
  }

  lemma {:induction false} BatchesOfQueue(s: State, P: nat, k: nat, m: nat, n: nat, c: int) returns (ls: seq<Label>)
    requires s.workers == map[] && Queue(s.db.rows, P, k, m)
    requires P < BATCH_SIZE && m + Moved(n, BATCH_SIZE - P) <= k
    ensures IsRun(s, ls) && AllDrain(ls, P, c) && Batches(ls, 0) == n
    ensures After(s, ls).workers == map[] && Queue(After(s, ls).db.rows, P, k, m + Moved(n, BATCH_SIZE - P))
    decreases n
  {
    if n == 0 {
      ls := [];
      assert Moved(0, BATCH_SIZE - P) == 0;
    } else {
      MovedOnce(n, BATCH_SIZE - P);
      hide Moved, Queue, Names, Drains;
      var one := BatchOfQueue(s, P, k, m, c);
      var rest := BatchesOfQueue(After(s, one), P, k, m + (BATCH_SIZE - P), n - 1, c);
      RunsJoin(s, one, rest);
      BatchesAdd(one, rest, 0);
      ls := one + rest;
    }
  }

  /** A shop with one product, and updates of it that change nothing but are recorded all the same. */
  const SHOP: Table := map["p" := Product("p", "sku", "name", "", 0, "USD", 0, true)]

  function Touch(i: nat): Mutation {
    Mutation(Change(UpdateCommand("p", None, None, None, None)), Name(i), i, 0)
  }

  function Touches(n: nat): seq<Label> {
    if n == 0 then [] else Touches(n - 1) + [Transact(Touch(n - 1))]
  }

  /** The rows of the first `n` updates, all pending, in the order of their commits. */
  ghost predicate Touched(s: State, n: nat) {
    && s.workers == map[] && s.db.products == SHOP
    && s.db.rows.Keys == Names(0, n)
    && forall i | 0 <= i < n :: s.db.rows[Name(i)].createdAt == i && s.db.rows[Name(i)].status == Pending
  }

  lemma TouchCommits(s: State, n: nat)
    requires Touched(s, n)
    ensures Enabled(s, Transact(Touch(n))) && Latest(s, Transact(Touch(n)))
    ensures Touched(Step(s, Transact(Touch(n))), n + 1)
  {
    NamesNext(0, n);
    hide Name;
    assert CanCommit(s.db, Touch(n));
    var s' := Step(s, Transact(Touch(n)));
    assert s'.db.products == SHOP;
    forall i | 0 <= i < n + 1
      ensures Name(i) in s'.db.rows && s'.db.rows[Name(i)].createdAt == i && s'.db.rows[Name(i)].status == Pending
    {
      if i < n {
        assert Name(i) in Names(0, n);
      }
    }
    forall id | id in s.db.rows
      ensures s.db.rows[id].createdAt < n
    {
      var i :| 0 <= i < n && Name(i) == id;
    }
  }

  /** The queue is what a run leaves in which nothing is published yet. */
  lemma {:induction false} QueueFills(n: nat)
    ensures IsRun(Init(SHOP), Touches(n)) && InCommitOrder(Init(SHOP), Touches(n))
    ensures Touched(After(Init(SHOP), Touches(n)), n)
  {
    if n == 0 {
      assert Names(0, 0) == {};
    } else {
      QueueFills(n - 1);
      TouchCommits(After(Init(SHOP), Touches(n - 1)), n - 1);
      hide Touched, Latest, Enabled, Step;
      RunAppend(Init(SHOP), Touches(n - 1), Transact(Touch(n - 1)));
      assert Touches(n)[..|Touches(n - 1)|] == Touches(n - 1);
    }
  }

  lemma TouchedIsQueue(s: State, P: nat, k: nat)
    requires Touched(s, P + k + 1)
    ensures Queue(s.db.rows, P, k, 0)
  {
    hide Name, Names;
  }

  lemma QueueCounts(rows: map<string, Row>, P: nat, k: nat)
    requires Queue(rows, P, k, 0)
    ensures var e := Name(P + k);
            && e in rows && e !in Names(0, P)
            && |Waiting(rows, Names(0, P), e)| == k
            && |PoisonAhead(rows, Names(0, P), rows[e].createdAt)| <= P
  {
    var e := Name(P + k);
    InQueue(rows, P, k, 0, P + k);
    forall i | 0 <= i <= P + k
      ensures Name(i) in rows && rows[Name(i)].createdAt == i && rows[Name(i)].status == Pending
      ensures Name(i) == e ==> i == P + k
      ensures Name(i) in Names(0, P) <==> i < P
    {
      InQueue(rows, P, k, 0, i);
      if Name(i) == e {
        NamesDiffer(i, P + k);
      }
      if Name(i) in Names(0, P) {
        var j :| 0 <= j < P && Name(j) == Name(i);
        NamesDiffer(i, j);
      }
    }
    assert Waiting(rows, Names(0, P), e) == Names(P, P + k);
    NamesCount(P, P + k);
    NamesCount(0, P);
    SubsetCount(PoisonAhead(rows, Names(0, P), rows[e].createdAt), Names(0, P));
  }

  lemma LastStillPending(s: State, P: nat, k: nat, m: nat)
    requires Queue(s.db.rows, P, k, m) && m <= k
    ensures !IsSent(s, Name(P + k))
  {
    InQueue(s.db.rows, P, k, m, P + k);
  }

  /** The hypotheses of the drain bound as far as they concern the state it starts from. */
  ghost predicate Ready(s: State, poison: set<string>, e: string, P: nat, k: nat) {
    && s.workers == map[] && e in s.db.rows && e !in poison
    && |PoisonAhead(s.db.rows, poison, s.db.rows[e].createdAt)| <= P
    && |Waiting(s.db.rows, poison, e)| == k
  }

  /** From the state that `before` leads to, publisher 0 finishes `n` batches that satisfy the hypotheses of the
      drain bound, and `e` is still pending. */
  ghost predicate Insufficient(base: Table, before: seq<Label>, ls: seq<Label>, poison: set<string>, e: string,
                               P: nat, k: nat, n: nat)
  {
    && TableOk(base) && IsRun(Init(base), before) && InCommitOrder(Init(base), before)
    && var s := After(Init(base), before);
       && Ready(s, poison, e, P, k) && IsRun(s, ls)
       && (forall l | l in ls :: Drains(l, 0, poison, s.db.rows[e].createdAt))
       && Batches(ls, 0) == n
       && !IsSent(After(s, ls), e)
  }

  lemma QueueIsReady(s: State, P: nat, k: nat)
    requires Touched(s, P + k + 1)
    ensures Ready(s, Names(0, P), Name(P + k), P, k) && Queue(s.db.rows, P, k, 0)
  {
    TouchedIsQueue(s, P, k);
    QueueCounts(s.db.rows, P, k);
  }

  lemma FallShort(s: State, P: nat, k: nat, n: nat) returns (ls: seq<Label>)
    requires Ready(s, Names(0, P), Name(P + k), P, k) && Queue(s.db.rows, P, k, 0)
    requires P < BATCH_SIZE && Moved(n, BATCH_SIZE - P) <= k
    ensures IsRun(s, ls) && Batches(ls, 0) == n && !IsSent(After(s, ls), Name(P + k))
    ensures AllDrain(ls, P, s.db.rows[Name(P + k)].createdAt)
  {
    hide Queue, Names, Name, Waiting, PoisonAhead, IsRun, After, AllDrain, Batches, IsSent, Moved;
    ls := BatchesOfQueue(s, P, k, 0, n, s.db.rows[Name(P + k)].createdAt);
    LastStillPending(After(s, ls), P, k, Moved(n, BATCH_SIZE - P));
  }

  lemma ShopIsSane()
    ensures TableOk(SHOP)
  {
  }

  lemma BatchesThatFallShort(P: nat, k: nat, n: nat) returns (ls: seq<Label>)
    requires P < BATCH_SIZE && Moved(n, BATCH_SIZE - P) <= k
    ensures Insufficient(SHOP, Touches(P + k + 1), ls, Names(0, P), Name(P + k), P, k, n)
  {
    QueueFills(P + k + 1);
    var s := After(Init(SHOP), Touches(P + k + 1));
    QueueIsReady(s, P, k);
    ShopIsSane();
    assert Name(P + k) in s.db.rows;
    hide TableOk, IsRun, After, InCommitOrder, Touches, Touched, Queue, Moved, Names, Name, Batches, IsSent, Drains, Ready;
    ls := FallShort(s, P, k, n);
  }

  lemma Quotient(k: nat, gain: nat)
    requires gain > 0
    ensures Moved(k / gain, gain) <= k
  {
    assert k == (k / gain) * gain + k % gain;
  }

  /** Some run of `n` such batches falls short. */
  ghost predicate FallsShort(P: nat, k: nat, n: nat) {
    exists base, before, ls, poison, e :: Insufficient(base, before, ls, poison, e, P, k, n)
  }

  /** For all P and k, k / (100 - P) batches are not enough, in a run from the very beginning. */
  lemma DrainBoundIsSharp(P: nat, k: nat)
    requires P < 100
    ensures FallsShort(P, k, k / (100 - P))
  {
    Quotient(k, BATCH_SIZE - P);
    var ls := BatchesThatFallShort(P, k, k / (BATCH_SIZE - P));
  }
}
