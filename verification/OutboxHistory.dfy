/** The consumer's view against the history of the products table, and how one failed publish call
    breaks both order and rebuild. */
module OutboxHistory {
  import opened Domain
  import opened Events
  import opened Database
  import opened Outbox
  import opened OutboxDelivery
  import opened OutboxOrder
  import opened OutboxRebuild
  import opened OutboxOvertaking
  import opened OutboxSequence

  /** The outbox grows one row at a time, so every length up to the present one was reached. */
  lemma {:induction false} CommitsReachEveryLength(base: Table, ls: seq<Label>, d: nat) returns (n: nat)
    requires IsRun(Init(base), ls) && d <= |After(Init(base), ls).db.commits|
    ensures n <= |ls| && IsRun(Init(base), ls[..n]) && |After(Init(base), ls[..n]).db.commits| == d
  {
    if |After(Init(base), ls).db.commits| == d {
      n := |ls|;
      assert ls[..n] == ls;
    } else {
      var init := ls[..|ls| - 1];
      n := CommitsReachEveryLength(base, init, d);
      assert init[..n] == ls[..n];
    }
  }

  lemma SameCommitsSamePayloads(base: Table, past: Db, now: Db)
    requires ChangeLog(base, past) && Indexed(now) && past.commits <= now.commits && RowsGrow(past.rows, now.rows)
    ensures Payloads(past) == PayloadsOf(now.rows, now.commits[..|past.commits|])
  {
    forall i | 0 <= i < |past.commits|
      ensures past.rows[past.commits[i]].payload == now.rows[now.commits[i]].payload
    {
      assert Keeps(past.rows[past.commits[i]], now.rows[past.commits[i]]);
    }
  }

  /** A consumer of a log in commit order sees the products table exactly as it stood at some earlier moment,
      namely when as many events had been committed as it has received. */
  lemma PrefixShowsAPastTable(base: Table, ls: seq<Label>) returns (n: nat)
    requires TableOk(base) && IsRun(Init(base), ls) && Firsts(After(Init(base), ls).log) <= After(Init(base), ls).db.commits
    ensures n <= |ls| && IsRun(Init(base), ls[..n])
    ensures var s, past := After(Init(base), ls), After(Init(base), ls[..n]);
            && |past.db.commits| == |Firsts(s.log)|
            && Replay(Project(base), s.log) == Project(past.db.products)
  {
    var s := After(Init(base), ls);
    RunIsSound(base, ls);
    ConsumerFolds(base, s);
    n := CommitsReachEveryLength(base, ls, |Firsts(s.log)|);
    var past := After(Init(base), ls[..n]);
    NothingReverts(Init(base), ls, n);
    RunIsSound(base, ls[..n]);
    SameCommitsSamePayloads(base, past.db, s.db);
    assert Firsts(s.log) == s.db.commits[..|past.db.commits|];
  }

  ghost predicate ShowsAPastTable(base: Table, ls: seq<Label>)
    requires IsRun(Init(base), ls)
  {
    exists n | 0 <= n <= |ls| :: IsRun(Init(base), ls[..n]) &&
      Replay(Project(base), After(Init(base), ls).log) == Project(After(Init(base), ls[..n]).db.products)
  }

  /** At every moment, not only when the outbox is drained, and whatever fails as long as no delivery overtakes,
      the consumer sees a table that was there: never one that did not exist. */
  lemma ConsumerSeesAPastTable(base: Table, ls: seq<Label>)
    requires TableOk(base) && IsRun(Init(base), ls) && InCommitOrder(Init(base), ls)
    requires NeverOvertakes(Init(base), ls, EVERYTHING)
    ensures ShowsAPastTable(base, ls)
  {
    OrderIffNoOvertaking(base, ls, EVERYTHING);
    RunIsSound(base, ls);
    WholeLogInOrder(base, After(Init(base), ls));
    var n := PrefixShowsAPastTable(base, ls);
  }

  // ---------- one product ----------

  ghost function CommitsFor(s: State, k: string): seq<string> {
    Only(s.db.rows, s.db.commits, iset{k})
  }

  lemma CommitsForGrow(base: Table, s: State, l: Label, k: string)
    requires Sound(base, s) && Enabled(s, l)
    ensures CommitsFor(s, k) <= CommitsFor(Step(s, l), k)
    ensures |CommitsFor(Step(s, l), k)| <= |CommitsFor(s, k)| + 1
  {
    SequencesGrow(base, s, l, iset{k});
    CommitsHaveRows(base, s);
    StepGrows(s, l);
    OnlyFrame(s.db.rows, Step(s, l).db.rows, s.db.commits, iset{k});
    if l.Transact? {
      OnlyAppend(Step(s, l).db.rows, s.db.commits, l.m.eventId, iset{k});
    }
  }

  lemma NothingCommittedYet(base: Table, k: string)
    ensures CommitsFor(Init(base), k) == []
  {
  }

  /** A product's events arrive one at a time, so every number of them up to the present one was reached. */
  lemma {:induction false} ProductReachesEveryLength(base: Table, ls: seq<Label>, k: string, d: nat) returns (n: nat)
    requires TableOk(base) && IsRun(Init(base), ls) && d <= |CommitsFor(After(Init(base), ls), k)|
    ensures n <= |ls| && IsRun(Init(base), ls[..n])
    ensures CommitsFor(After(Init(base), ls[..n]), k) == CommitsFor(After(Init(base), ls), k)[..d]
  {
    hide Sound, Step, CommitsFor, Enabled;
    if |CommitsFor(After(Init(base), ls), k)| == d {
      n := |ls|;
      assert ls[..n] == ls;
    } else {
      assert ls != [] by { NothingCommittedYet(base, k); }
      var init := ls[..|ls| - 1];
      RunIsSound(base, init);
      CommitsForGrow(base, After(Init(base), init), ls[|ls| - 1], k);
      SameStart(CommitsFor(After(Init(base), init), k), CommitsFor(After(Init(base), ls), k), d);
      n := ProductReachesEveryLength(base, init, k, d);
      assert ls[..n] == init[..n];
    }
  }

  lemma SameStart(a: seq<string>, b: seq<string>, d: nat)
    requires a <= b && |b| <= |a| + 1 && d < |b|
    ensures d <= |a| && a[..d] == b[..d]
  {
  }

  ghost predicate ShowsAPastProduct(base: Table, ls: seq<Label>, k: string)
    requires IsRun(Init(base), ls)
  {
    exists n | 0 <= n <= |ls| :: IsRun(Init(base), ls[..n]) &&
      Lookup(Replay(Project(base), After(Init(base), ls).log), k) == Lookup(Project(After(Init(base), ls[..n]).db.products), k)
  }

  lemma SameLastView(base: map<string, View>, rows: map<string, Row>, rows': map<string, Row>,
                     ids: seq<string>, ids': seq<string>, k: string)
    requires RowsGrow(rows, rows')
    requires (forall i | 0 <= i < |ids| :: ids[i] in rows) && (forall i | 0 <= i < |ids'| :: ids'[i] in rows')
    requires Only(rows, ids, iset{k}) == Only(rows', ids', iset{k})
    ensures LastView(base, rows, ids, k) == LastView(base, rows', ids', k)
  {
    var mine := Only(rows, ids, iset{k});
    if mine != [] {
      OnlyHas(rows, ids, iset{k}, mine[|mine| - 1]);
      assert Keeps(rows[mine[|mine| - 1]], rows'[mine[|mine| - 1]]);
    }
  }

  lemma PastProduct(base: Table, s: State, past: State, k: string)
    requires Sound(base, s) && Sound(base, past) && RowsGrow(past.db.rows, s.db.rows)
    requires CommitsFor(past, k) == Applied(s, k)
    ensures Lookup(Replay(Project(base), s.log), k) == Lookup(Project(past.db.products), k)
  {
    ConsumerShowsLast(base, s, k);
    TableShowsLast(base, past, k);
    hide Sound, Replay, Project, Firsts, LastView;
    SameLastView(Project(base), past.db.rows, s.db.rows, past.db.commits, Firsts(s.log), k);
  }

  /** One product at a time, and at every moment: if no event of the product ever overtook another one of it,
      the consumer sees the product as the table had it at some earlier moment. */
  lemma ConsumerSeesAPastProduct(base: Table, ls: seq<Label>, k: string)
    requires TableOk(base) && IsRun(Init(base), ls) && InCommitOrder(Init(base), ls)
    requires NeverOvertakes(Init(base), ls, iset{k})
    ensures ShowsAPastProduct(base, ls, k)
  {
    var s := After(Init(base), ls);
    OrderIffNoOvertaking(base, ls, iset{k});
    assert Applied(s, k) == CommitsFor(s, k)[..|Applied(s, k)|];
    var n := ProductReachesEveryLength(base, ls, k, |Applied(s, k)|);
    NothingReverts(Init(base), ls, n);
    RunIsSound(base, ls);
    RunIsSound(base, ls[..n]);
    hide Sound, RowsGrow, Applied, CommitsFor, InOrder;
    PastProduct(base, s, After(Init(base), ls[..n]), k);
  }

  /** One step of a run that respects commit order. */
  ghost predicate Moves(s: State, l: Label, s': State) {
    Enabled(s, l) && Latest(s, l) && Step(s, l) == s'
  }

  lemma {:induction false} Chain(states: seq<State>, ls: seq<Label>)
    requires |states| == |ls| + 1
    requires forall i | 0 <= i < |ls| :: Moves(states[i], ls[i], states[i + 1])
    ensures IsRun(states[0], ls) && InCommitOrder(states[0], ls) && After(states[0], ls) == states[|ls|]
  {
    if ls != [] {
      var init := ls[..|ls| - 1];
      Chain(states[..|ls|], init);
      assert Moves(states[|ls| - 1], ls[|ls| - 1], states[|ls|]);
    }
  }

  const SHIRT := Product("p", "sku", "shirt", "", 100, "USD", 5, true)
  const SHELF: Table := map["p" := SHIRT]
  const FIRST := Mutation(AddStock("p", 1), "a", 1, 0)
  const SECOND := Mutation(AddStock("p", 1), "b", 2, 0)

  function RowA(status: Status, attempts: nat): Row {
    Row(TOPIC, "p", STOCK_CHANGED, Describe("a", STOCK_CHANGED, SHIRT.(stock := 6), 0), status, attempts, 1)
  }

  function RowB(status: Status): Row {
    Row(TOPIC, "p", STOCK_CHANGED, Describe("b", STOCK_CHANGED, SHIRT.(stock := 7), 0), status, 0, 2)
  }

  const EVENT_A := EventOf("a", RowA(Pending, 0))
  const EVENT_B := EventOf("b", RowB(Pending))

  function Shelves(a: Row, b: Row, log: seq<Message>, workers: map<nat, Work>): State {
    State(Db(map["p" := SHIRT.(stock := 7)], map["a" := a, "b" := b], ["a", "b"]), log, workers)
  }

  const S0: State := Init(SHELF)
  const S1: State := State(Db(map["p" := SHIRT.(stock := 6)], map["a" := RowA(Pending, 0)], ["a"]), [], map[])
  const S2: State := Shelves(RowA(Pending, 0), RowB(Pending), [], map[])
  const LOGGED := MessageOf(EVENT_B)
  const LATE := EventOf("a", RowA(Pending, 1))

  function Batched(pos: nat, phase: Phase): map<nat, Work> {
    map[0 := Work([EVENT_A, EVENT_B], pos, phase)]
  }

  function Retrying(pos: nat, phase: Phase): map<nat, Work> {
    map[0 := Work([LATE], pos, phase)]
  }

  /** Two stock changes of one product are committed and fetched together. Publishing the first one fails
      once; the batch goes on with the second, and the next batch delivers the first one late. */
  const BAD_RUN: seq<Label> :=
    [Transact(FIRST), Transact(SECOND),
     Fetch(0, ["a", "b"]), Publish(0, "a", ErrorLost), MarkFailed(0, "a", true), Publish(0, "b", Acked), MarkSent(0, "b", true),
     Finish(0),
     Fetch(0, ["a"]), Publish(0, "a", Acked), MarkSent(0, "a", true)]

  const BAD_STATES: seq<State> :=
    [S0, S1, S2,
     Shelves(RowA(Pending, 0), RowB(Pending), [], Batched(0, Publishing)),
     Shelves(RowA(Pending, 0), RowB(Pending), [], Batched(0, Failed)),
     Shelves(RowA(Pending, 1), RowB(Pending), [], Batched(1, Publishing)),
     Shelves(RowA(Pending, 1), RowB(Pending), [LOGGED], Batched(1, Delivered)),
     Shelves(RowA(Pending, 1), RowB(Sent), [LOGGED], Batched(2, Publishing)),
     Shelves(RowA(Pending, 1), RowB(Sent), [LOGGED], map[]),
     Shelves(RowA(Pending, 1), RowB(Sent), [LOGGED], Retrying(0, Publishing)),
     Shelves(RowA(Pending, 1), RowB(Sent), [LOGGED, MessageOf(LATE)], Retrying(0, Delivered)),
     Shelves(RowA(Sent, 1), RowB(Sent), [LOGGED, MessageOf(LATE)], Retrying(1, Publishing))]

  lemma Committing()
    ensures Moves(S0, Transact(FIRST), S1) && Moves(S1, Transact(SECOND), S2)
  {
  }

  lemma BothPending()
    ensures OldestPending(S2.db.rows, ["a", "b"], BATCH_SIZE)
    ensures Snapshot(S2.db.rows, ["a", "b"]) == [EVENT_A, EVENT_B]
  {
  }

  lemma FetchingBoth()
    ensures Moves(S2, Fetch(0, ["a", "b"]), BAD_STATES[3])
  {
    BothPending();
    hide OldestPending, Snapshot;
  }

  lemma FetchingAgain()
    ensures Moves(BAD_STATES[8], Fetch(0, ["a"]), BAD_STATES[9])
  {
    assert Snapshot(BAD_STATES[8].db.rows, ["a"]) == [LATE];
  }

  lemma FailingOnce()
    ensures Moves(BAD_STATES[3], Publish(0, "a", ErrorLost), BAD_STATES[4])
  {
  }

  lemma MarkingFailed()
    ensures Moves(BAD_STATES[4], MarkFailed(0, "a", true), BAD_STATES[5])
  {
  }

  lemma Overtaking()
    ensures Moves(BAD_STATES[5], Publish(0, "b", Acked), BAD_STATES[6])
  {
  }

  lemma FinishingBatch()
    ensures Moves(BAD_STATES[6], MarkSent(0, "b", true), BAD_STATES[7])
    ensures Moves(BAD_STATES[7], Finish(0), BAD_STATES[8])
  {
  }

  lemma DeliveringLate()
    ensures Moves(BAD_STATES[9], Publish(0, "a", Acked), BAD_STATES[10])
    ensures Moves(BAD_STATES[10], MarkSent(0, "a", true), BAD_STATES[11])
  {
  }

  lemma EveryStepMoves(i: nat)
    requires i < |BAD_RUN|
    ensures Moves(BAD_STATES[i], BAD_RUN[i], BAD_STATES[i + 1])
  {
    hide Moves;
    if i < 2 {
      Committing();
    } else if i == 2 {
      FetchingBoth();
    } else if i == 8 {
      FetchingAgain();
    } else if i < 5 {
      FailingOnce();
      MarkingFailed();
    } else if i < 8 {
      Overtaking();
      FinishingBatch();
    } else {
      DeliveringLate();
    }
  }

  lemma BadRunIsRun()
    ensures IsRun(Init(SHELF), BAD_RUN) && InCommitOrder(Init(SHELF), BAD_RUN)
    ensures After(Init(SHELF), BAD_RUN) == BAD_STATES[11]
  {
    var states, ls := BAD_STATES, BAD_RUN;
    forall i | 0 <= i < |ls|
      ensures Moves(states[i], ls[i], states[i + 1])
    {
      EveryStepMoves(i);
    }
    Chain(states, ls);
  }

  lemma OnePublishFailed()
    ensures Failures(BAD_RUN) == {"a"}
  {
    assert BAD_RUN[3] in BAD_RUN;
  }

  lemma TwoMessages(base: map<string, View>, m: Message, n: Message)
    requires m.eventId != n.eventId
    ensures Firsts([m, n]) == [m.eventId, n.eventId]
    ensures Replay(base, [m, n]) == base[m.key := EventView(m.value)][n.key := EventView(n.value)]
  {
    assert [m, n][..1] == [m] && [m][..0] == [];
    assert Copies([m], n.eventId) == Copies([], n.eventId) == 0;
    assert Firsts([m]) == Firsts([]) + [m.eventId] == [m.eventId];
    assert Replay(base, [m]) == Replay(base, [])[m.key := EventView(m.value)];
  }

  lemma OnlyTwo(rows: map<string, Row>, a: string, b: string, ks: iset<string>)
    requires Concerns(rows, a, ks) && Concerns(rows, b, ks)
    ensures Only(rows, [a, b], ks) == [a, b]
  {
    OnlyAppend(rows, [], a, ks);
    OnlyAppend(rows, [a], b, ks);
    assert [] + [a] == [a] && [a] + [b] == [a, b];
  }

  /** What the consumer makes of the late delivery. */
  lemma LateDeliveryMisleads()
    ensures !InOrder(BAD_STATES[11], iset{"p"}) && !Agree(SHELF, BAD_STATES[11], "p")
  {
    var s := BAD_STATES[11];
    TwoMessages(Project(SHELF), LOGGED, MessageOf(LATE));
    OnlyTwo(s.db.rows, "b", "a", iset{"p"});
    OnlyTwo(s.db.rows, "a", "b", iset{"p"});
    assert Only(s.db.rows, Firsts(s.log), iset{"p"})[0] == "b";
    assert Only(s.db.rows, s.db.commits, iset{"p"})[0] == "a";
    assert Replay(Project(SHELF), s.log)["p"].stock == 6;
    assert Project(s.db.products)["p"].stock == 7;
  }

  ghost predicate Broken(base: Table, ls: seq<Label>, k: string)
    requires IsRun(Init(base), ls)
  {
    var s := After(Init(base), ls);
    Drained(s) && !InOrder(s, iset{k}) && !Agree(base, s, k)
  }

  /** The order of one product's events and the rebuild need their hypothesis: one lost publish call is enough.
      The publisher carries on with the rest of the batch, so a later event of the same product overtakes the
      failed one, and although every row ends up sent the consumer keeps the stock of the older event. */
  lemma OneFailureBreaksOrderAndRebuild()
    ensures exists base, ls, k :: TableOk(base) && IsRun(Init(base), ls) && InCommitOrder(Init(base), ls) &&
              |Failures(ls)| == 1 && Broken(base, ls, k)
  {
    BadRunIsRun();
    OnePublishFailed();
    LateDeliveryMisleads();
    assert Broken(SHELF, BAD_RUN, "p");
    assert TableOk(SHELF);
  }
}
