/** What a consumer that drops repeated event ids can rebuild from the log, product by product. */
module OutboxRebuild {
  import opened Domain
  import opened Events
  import opened Database
  import opened Outbox
  import opened OutboxDelivery
  import opened OutboxOrder
  import opened OutboxSequence
  import opened OutboxOvertaking

  /** The view of a consumer that applies the first copy of each event, last write wins. */
  ghost function Replay(base: map<string, View>, log: seq<Message>): map<string, View> {
    if log == [] then base
    else
      var init, m := log[..|log| - 1], log[|log| - 1];
      if Copies(init, m.eventId) > 0 then Replay(base, init)
      else Replay(base, init)[m.key := EventView(m.value)]
  }

  ghost function PayloadsOf(rows: map<string, Row>, ids: seq<string>): seq<ProductEvent>
    requires forall i | 0 <= i < |ids| :: ids[i] in rows
  {
    seq(|ids|, i requires 0 <= i < |ids| => rows[ids[i]].payload)
  }

  lemma {:induction false} ReplayIsFold(base: map<string, View>, rows: map<string, Row>, log: seq<Message>)
    requires forall m | m in log :: MessageOk(rows, m) && Labelled(m.eventId, rows[m.eventId])
    ensures forall i | 0 <= i < |Firsts(log)| :: Firsts(log)[i] in rows
    ensures Replay(base, log) == Fold(base, PayloadsOf(rows, Firsts(log)))
  {
    if log != [] {
      var init, m := log[..|log| - 1], log[|log| - 1];
      assert m in log && forall x | x in init :: x in log;
      ReplayIsFold(base, rows, init);
      if Copies(init, m.eventId) == 0 {
        var es := PayloadsOf(rows, Firsts(log));
        assert es[..|es| - 1] == PayloadsOf(rows, Firsts(init));
      }
    }
  }

  ghost function Lookup(m: map<string, View>, k: string): Option<View> {
    if k in m then Some(m[k]) else None
  }

  /** What product `k` looks like after the last of its events among `ids`, or at the baseline. */
  ghost function LastView(base: map<string, View>, rows: map<string, Row>, ids: seq<string>, k: string): Option<View>
    requires forall i | 0 <= i < |ids| :: ids[i] in rows
  {
    var mine := Only(rows, ids, iset{k});
    if mine == [] then Lookup(base, k)
    else
      OnlyHas(rows, ids, iset{k}, mine[|mine| - 1]);
      Some(EventView(rows[mine[|mine| - 1]].payload))
  }

  lemma {:induction false} FoldShowsLast(base: map<string, View>, rows: map<string, Row>, ids: seq<string>, k: string)
    requires forall i | 0 <= i < |ids| :: ids[i] in rows && Labelled(ids[i], rows[ids[i]])
    ensures Lookup(Fold(base, PayloadsOf(rows, ids)), k) == LastView(base, rows, ids, k)
  {
    if ids != [] {
      var init := ids[..|ids| - 1];
      FoldShowsLast(base, rows, init, k);
      assert PayloadsOf(rows, ids)[..|ids| - 1] == PayloadsOf(rows, init);
    }
  }

  lemma LabelledRows(base: Table, s: State, ids: seq<string>)
    requires Sound(base, s) && forall i | 0 <= i < |ids| :: ids[i] in s.db.rows
    ensures forall i | 0 <= i < |ids| :: ids[i] in s.db.rows && Labelled(ids[i], s.db.rows[ids[i]])
  {
  }

  lemma ConsumerFolds(base: Table, s: State)
    requires Sound(base, s)
    ensures forall i | 0 <= i < |Firsts(s.log)| :: Firsts(s.log)[i] in s.db.rows
    ensures Replay(Project(base), s.log) == Fold(Project(base), PayloadsOf(s.db.rows, Firsts(s.log)))
  {
    forall m | m in s.log
      ensures MessageOk(s.db.rows, m) && Labelled(m.eventId, s.db.rows[m.eventId])
    {
      assert MessageOk(s.db.rows, m);
    }
    ReplayIsFold(Project(base), s.db.rows, s.log);
  }

  /** The consumer shows a product as its last event among the first deliveries left it. */
  lemma ConsumerShowsLast(base: Table, s: State, k: string)
    requires Sound(base, s)
    ensures forall i | 0 <= i < |Firsts(s.log)| :: Firsts(s.log)[i] in s.db.rows
    ensures Lookup(Replay(Project(base), s.log), k) == LastView(Project(base), s.db.rows, Firsts(s.log), k)
  {
    ConsumerFolds(base, s);
    LabelledRows(base, s, Firsts(s.log));
    FoldShowsLast(Project(base), s.db.rows, Firsts(s.log), k);
  }

  /** The table shows a product as its last committed event describes it. */
  lemma TableShowsLast(base: Table, s: State, k: string)
    requires Sound(base, s)
    ensures forall i | 0 <= i < |s.db.commits| :: s.db.commits[i] in s.db.rows
    ensures Lookup(Project(s.db.products), k) == LastView(Project(base), s.db.rows, s.db.commits, k)
  {
    CommitsHaveRows(base, s);
    LabelledRows(base, s, s.db.commits);
    FoldShowsLast(Project(base), s.db.rows, s.db.commits, k);
    assert Payloads(s.db) == PayloadsOf(s.db.rows, s.db.commits);
  }

  /** Consumer and table agree on product `k`. */
  ghost predicate Agree(base: Table, s: State, k: string) {
    Lookup(Replay(Project(base), s.log), k) == Lookup(Project(s.db.products), k)
  }

  /** Every event of product `k` is in the log. */
  ghost predicate AllDelivered(s: State, k: string) {
    forall id | Concerns(s.db.rows, id, iset{k}) :: Copies(s.log, id) > 0
  }

  lemma SameEvents(base: Table, s: State, k: string)
    requires Sound(base, s) && CommitsOrdered(s.db) && AllDelivered(s, k) && InOrder(s, iset{k})
    ensures Only(s.db.rows, Firsts(s.log), iset{k}) == Only(s.db.rows, s.db.commits, iset{k})
  {
    var firsts, all := Only(s.db.rows, Firsts(s.log), iset{k}), Only(s.db.rows, s.db.commits, iset{k});
    CommitsOf(s.db, iset{k});
    DeliveredOf(base, s, iset{k});
    TwoPrefixes(all, firsts, all);
  }

  lemma OrderRebuilds(base: Table, s: State, k: string)
    requires Sound(base, s) && CommitsOrdered(s.db) && AllDelivered(s, k) && InOrder(s, iset{k})
    ensures Agree(base, s, k)
  {
    SameEvents(base, s, k);
    ConsumerShowsLast(base, s, k);
    TableShowsLast(base, s, k);
    hide Sound, CommitsOrdered, AllDelivered, InOrder, Replay, Project, Firsts;
  }

  /** One product at a time: once all its events are delivered, and none ever overtook another one of the same
      product, the consumer has that product exactly as the table does. Publish calls may have failed, for this
      product as well, and anything may have happened to the others. */
  lemma RebuildProduct(base: Table, ls: seq<Label>, k: string)
    requires TableOk(base) && IsRun(Init(base), ls) && InCommitOrder(Init(base), ls)
    requires NeverOvertakes(Init(base), ls, iset{k}) && AllDelivered(After(Init(base), ls), k)
    ensures Agree(base, After(Init(base), ls), k)
  {
    hide Agree, AllDelivered, InOrder, Sound, CommitsOrdered, Gapless, NeverOvertakes;
    OrderIffNoOvertaking(base, ls, iset{k});
    RunIsGapless(base, ls);
    OrderRebuilds(base, After(Init(base), ls), k);
  }

  // ---------- exactly when the newest event comes last ----------

  /** The events of product `k` in the order in which the consumer applies them. */
  ghost function Applied(s: State, k: string): seq<string> {
    Only(s.db.rows, Firsts(s.log), iset{k})
  }

  /** Event `id` never overtook another one of its product. */
  ghost predicate NeverOvertook(s: State, ls: seq<Label>, id: string, k: string)
    requires IsRun(s, ls)
  {
    ls == [] ||
    (NeverOvertook(s, ls[..|ls| - 1], id, k) && !OvertakesAs(After(s, ls[..|ls| - 1]), ls[|ls| - 1], id, k))
  }

  ghost predicate Before(ids: seq<string>, x: string, id: string) {
    exists i, j :: 0 <= i < j < |ids| && ids[i] == x && ids[j] == id
  }

  /** All older events of the product stand before `id` in the list. */
  ghost predicate AfterItsElders(rows: map<string, Row>, ids: seq<string>, id: string, k: string) {
    forall x | Older(rows, x, id) && Concerns(rows, x, iset{k}) :: Before(ids, x, id)
  }

  lemma EldersStay(s: State, l: Label, x: string, id: string, k: string)
    requires Enabled(s, l) && Latest(s, l) && id in s.db.rows
    ensures Older(Step(s, l).db.rows, x, id) && Concerns(Step(s, l).db.rows, x, iset{k}) <==>
            Older(s.db.rows, x, id) && Concerns(s.db.rows, x, iset{k})
  {
    StepGrows(s, l);
    OlderStays(s, l, x, id);
    if x in s.db.rows {
      assert Keeps(s.db.rows[x], Step(s, l).db.rows[x]);
    }
  }

  lemma PositionStays(ids: seq<string>, ids': seq<string>, x: string, id: string)
    requires ids <= ids' && Distinct(ids') && id in ids
    ensures Before(ids', x, id) <==> Before(ids, x, id)
  {
    var m :| 0 <= m < |ids| && ids[m] == id;
    assert ids'[m] == id;
    if Before(ids', x, id) {
      var i, j :| 0 <= i < j < |ids'| && ids'[i] == x && ids'[j] == id;
      assert j == m;
      assert ids[i] == x && ids[j] == id;
    }
    if Before(ids, x, id) {
      var i, j :| 0 <= i < j < |ids| && ids[i] == x && ids[j] == id;
      assert ids'[i] == x && ids'[j] == id;
    }
  }

  lemma AppliedSpec(base: Table, s: State, k: string)
    requires Sound(base, s)
    ensures Distinct(Applied(s, k))
    ensures forall id :: id in Applied(s, k) <==> Copies(s.log, id) > 0 && Concerns(s.db.rows, id, iset{k})
  {
    FirstsDistinct(s.log);
    OnlyDistinct(s.db.rows, Firsts(s.log), iset{k});
    DeliveredOf(base, s, iset{k});
  }

  lemma SamePlace(rows: map<string, Row>, rows': map<string, Row>, ids: seq<string>, ids': seq<string>, id: string, k: string)
    requires ids <= ids' && Distinct(ids') && id in ids
    requires forall x :: Older(rows', x, id) && Concerns(rows', x, iset{k}) <==> Older(rows, x, id) && Concerns(rows, x, iset{k})
    ensures AfterItsElders(rows', ids', id, k) <==> AfterItsElders(rows, ids, id, k)
  {
    hide Older, Concerns;
    forall x
      ensures Before(ids', x, id) <==> Before(ids, x, id)
    {
      PositionStays(ids, ids', x, id);
    }
  }

  /** Once delivered, an event keeps its place among the older ones. */
  lemma PlaceStays(base: Table, s: State, l: Label, id: string, k: string)
    requires Sound(base, s) && Enabled(s, l) && Latest(s, l) && id in Applied(s, k)
    ensures AfterItsElders(Step(s, l).db.rows, Applied(Step(s, l), k), id, k) <==>
            AfterItsElders(s.db.rows, Applied(s, k), id, k)
  {
    AppliedSpec(base, s, k);
    forall x
      ensures Older(Step(s, l).db.rows, x, id) && Concerns(Step(s, l).db.rows, x, iset{k}) <==>
              Older(s.db.rows, x, id) && Concerns(s.db.rows, x, iset{k})
    {
      EldersStay(s, l, x, id, k);
    }
    StepKeepsSound(base, s, l);
    hide Sound, Enabled, Step, Older, Concerns, AfterItsElders;
    AppliedSpec(base, Step(s, l), k);
    SequencesGrow(base, s, l, iset{k});
    SamePlace(s.db.rows, Step(s, l).db.rows, Applied(s, k), Applied(Step(s, l), k), id, k);
  }

  /** At its first delivery an event goes after its elders exactly when it does not overtake. */
  lemma FirstPlace(base: Table, s: State, l: Label, k: string)
    requires Sound(base, s) && AllGapless(s) && Enabled(s, l) && l.Publish? && !l.outcome.ErrorLost?
    requires Copies(s.log, l.id) == 0 && Concerns(s.db.rows, l.id, iset{k})
    ensures AfterItsElders(s.db.rows, Applied(s, k) + [l.id], l.id, k) <==> !Overtakes(s, l, iset{k})
  {
    var mine := Applied(s, k);
    OvertakingExactly(s, l, iset{k});
    AppliedSpec(base, s, k);
    hide Sound, AllGapless, Enabled, Overtakes, Applied;
    forall x | Older(s.db.rows, x, l.id)
      ensures x in mine <==> Before(mine + [l.id], x, l.id)
    {
      if x in mine {
        var i :| 0 <= i < |mine| && mine[i] == x;
        assert (mine + [l.id])[i] == x && (mine + [l.id])[|mine|] == l.id;
      }
    }
  }

  lemma FirstDeliveryAppends(base: Table, s: State, l: Label, k: string)
    requires Sound(base, s) && Enabled(s, l) && l.Publish? && !l.outcome.ErrorLost?
    requires Copies(s.log, l.id) == 0 && Concerns(s.db.rows, l.id, iset{k})
    ensures Applied(Step(s, l), k) == Applied(s, k) + [l.id] && Step(s, l).db == s.db
  {
    PublishAppends(base, s, l);
    var m := MessageOf(EventOf(l.id, s.db.rows[l.id]));
    assert (s.log + [m])[..|s.log|] == s.log;
    OnlyAppend(s.db.rows, Firsts(s.log), l.id, iset{k});
  }

  lemma NewlyDelivered(base: Table, s: State, l: Label, id: string)
    requires Sound(base, s) && Enabled(s, l) && Copies(s.log, id) == 0
    ensures Copies(Step(s, l).log, id) > 0 <==> l.Publish? && !l.outcome.ErrorLost? && l.id == id
  {
    if l.Publish? {
      PublishAppends(base, s, l);
      CopiesAppend(s.log, MessageOf(EventOf(l.id, s.db.rows[l.id])));
    }
  }

  lemma {:induction false} UndeliveredNeverOvertook(base: Table, ls: seq<Label>, id: string, k: string)
    requires TableOk(base) && IsRun(Init(base), ls) && Copies(After(Init(base), ls).log, id) == 0
    ensures NeverOvertook(Init(base), ls, id, k)
  {
    if ls != [] {
      var init, l := ls[..|ls| - 1], ls[|ls| - 1];
      var s := After(Init(base), init);
      StepGrows(s, l);
      UndeliveredNeverOvertook(base, init, id, k);
      RunIsSound(base, init);
      NewlyDelivered(base, s, l, id);
    }
  }

  lemma StillConcerns(base: Table, s: State, l: Label, id: string, ks: iset<string>)
    requires Sound(base, s) && Enabled(s, l) && Concerns(Step(s, l).db.rows, id, ks) && id in s.db.rows
    ensures Concerns(s.db.rows, id, ks)
  {
    StepGrows(s, l);
    assert Keeps(s.db.rows[id], Step(s, l).db.rows[id]);
  }

  /** The step delivers event `id` for the first time past another one of its product. */
  ghost predicate OvertakesAs(s: State, l: Label, id: string, k: string) {
    l.Publish? && l.id == id && Overtakes(s, l, iset{k})
  }

  lemma OldPlace(base: Table, s: State, l: Label, id: string, k: string)
    requires Sound(base, s) && Enabled(s, l) && Latest(s, l)
    requires Copies(s.log, id) > 0 && Concerns(Step(s, l).db.rows, id, iset{k})
    ensures Concerns(s.db.rows, id, iset{k}) && !OvertakesAs(s, l, id, k)
    ensures AfterItsElders(Step(s, l).db.rows, Applied(Step(s, l), k), id, k) <==>
            AfterItsElders(s.db.rows, Applied(s, k), id, k)
  {
    DeliveredHasRow(base, s, id);
    StillConcerns(base, s, l, id, iset{k});
    AppliedSpec(base, s, k);
    hide Sound, Enabled, Step, AfterItsElders, Applied;
    PlaceStays(base, s, l, id, k);
  }

  lemma NewPlace(base: Table, s: State, l: Label, id: string, k: string)
    requires Sound(base, s) && AllGapless(s) && Enabled(s, l)
    requires Copies(s.log, id) == 0 && Copies(Step(s, l).log, id) > 0 && Concerns(Step(s, l).db.rows, id, iset{k})
    ensures AfterItsElders(Step(s, l).db.rows, Applied(Step(s, l), k), id, k) <==> !OvertakesAs(s, l, id, k)
  {
    NewlyDelivered(base, s, l, id);
    PublishAppends(base, s, l);
    hide Sound, Enabled, Step, AfterItsElders, Applied, AllGapless, Overtakes, Concerns;
    FirstDeliveryAppends(base, s, l, k);
    FirstPlace(base, s, l, k);
  }

  /** A delivered event stands after all its elders if and only if it never overtook one. */
  lemma {:induction false} PlaceExactly(base: Table, ls: seq<Label>, id: string, k: string)
    requires TableOk(base) && IsRun(Init(base), ls) && InCommitOrder(Init(base), ls)
    requires var s := After(Init(base), ls); Copies(s.log, id) > 0 && Concerns(s.db.rows, id, iset{k})
    ensures var s := After(Init(base), ls);
            AfterItsElders(s.db.rows, Applied(s, k), id, k) <==> NeverOvertook(Init(base), ls, id, k)
  {
    var init, l := ls[..|ls| - 1], ls[|ls| - 1];
    var s := After(Init(base), init);
    RunIsGapless(base, init);
    hide Sound, AllGapless, AfterItsElders, Applied, Concerns, OvertakesAs;
    if Copies(s.log, id) > 0 {
      OldPlace(base, s, l, id, k);
      PlaceExactly(base, init, id, k);
    } else {
      NewPlace(base, s, l, id, k);
      UndeliveredNeverOvertook(base, init, id, k);
    }
  }

  ghost predicate NewestOf(s: State, id: string, k: string) {
    && Concerns(s.db.rows, id, iset{k})
    && forall x | Concerns(s.db.rows, x, iset{k}) && x != id :: Older(s.db.rows, x, id)
  }

  lemma NewestComesLast(base: Table, s: State, newest: string, k: string)
    requires Sound(base, s) && NewestOf(s, newest, k) && AllDelivered(s, k)
    ensures Applied(s, k) != []
    ensures AfterItsElders(s.db.rows, Applied(s, k), newest, k) <==> Applied(s, k)[|Applied(s, k)| - 1] == newest
  {
    var mine := Applied(s, k);
    AppliedSpec(base, s, k);
    assert newest in mine;
    var last := mine[|mine| - 1];
    if last == newest {
      forall x | Older(s.db.rows, x, newest) && Concerns(s.db.rows, x, iset{k})
        ensures Before(mine, x, newest)
      {
        var i :| 0 <= i < |mine| && mine[i] == x;
        assert mine[|mine| - 1] == newest;
      }
    } else {
      assert last in mine;
      assert Older(s.db.rows, last, newest);
      assert !Before(mine, last, newest);
    }
  }

  /** What the last event the consumer applied to product `k` says. */
  ghost function LastApplied(s: State, k: string): string {
    if Applied(s, k) == [] then "" else Applied(s, k)[|Applied(s, k)| - 1]
  }

  lemma NoneAfterNewest(rows: map<string, Row>, all: seq<string>, i: nat, m: nat)
    requires Ascending(rows, all) && Distinct(all) && i < |all| && m < |all|
    requires all[i] != all[m] ==> Older(rows, all[i], all[m])
    ensures i <= m
  {
    if all[i] != all[m] {
      EarlierIfOlder(rows, all, i, m);
    }
  }

  lemma NewestCommitsLast(s: State, newest: string, k: string)
    requires Indexed(s.db) && CommitsOrdered(s.db) && NewestOf(s, newest, k)
    ensures var all := Only(s.db.rows, s.db.commits, iset{k}); all != [] && all[|all| - 1] == newest
  {
    var all := Only(s.db.rows, s.db.commits, iset{k});
    CommitsOf(s.db, iset{k});
    assert newest in all && all[|all| - 1] in all;
    var m :| 0 <= m < |all| && all[m] == newest;
    NoneAfterNewest(s.db.rows, all, |all| - 1, m);
  }

  lemma LastAppliedIsKnown(base: Table, s: State, newest: string, k: string)
    requires Sound(base, s) && NewestOf(s, newest, k) && AllDelivered(s, k)
    ensures Applied(s, k) != [] && LastApplied(s, k) in s.db.rows
  {
    AppliedSpec(base, s, k);
    assert newest in Applied(s, k) && LastApplied(s, k) in Applied(s, k);
  }

  lemma AgreeOnLast(base: Table, s: State, newest: string, k: string)
    requires Sound(base, s) && CommitsOrdered(s.db) && NewestOf(s, newest, k) && AllDelivered(s, k)
    ensures LastApplied(s, k) in s.db.rows
    ensures Agree(base, s, k) <==> EventView(s.db.rows[LastApplied(s, k)].payload) == EventView(s.db.rows[newest].payload)
  {
    NewestCommitsLast(s, newest, k);
    LastAppliedIsKnown(base, s, newest, k);
    hide Sound, CommitsOrdered, AllDelivered, NewestOf, Replay, Project, Firsts, Only, Concerns;
    ConsumerShowsLast(base, s, k);
    TableShowsLast(base, s, k);
  }

  /** The exact condition for one product, whatever failed: once all its events are delivered, the newest one is
      the last the consumer applied if and only if it never overtook; and the consumer has the product as the
      table does if and only if that is so or the event it applied last happens to say the same. */
  lemma RebuildProductExactly(base: Table, ls: seq<Label>, newest: string, k: string)
    requires TableOk(base) && IsRun(Init(base), ls) && InCommitOrder(Init(base), ls)
    requires NewestOf(After(Init(base), ls), newest, k) && AllDelivered(After(Init(base), ls), k)
    ensures var s := After(Init(base), ls);
            && (LastApplied(s, k) == newest <==> NeverOvertook(Init(base), ls, newest, k))
            && LastApplied(s, k) in s.db.rows
            && (Agree(base, s, k) <==>
                  || NeverOvertook(Init(base), ls, newest, k)
                  || EventView(s.db.rows[LastApplied(s, k)].payload) == EventView(s.db.rows[newest].payload))
  {
    var s := After(Init(base), ls);
    assert Copies(s.log, newest) > 0 && Concerns(s.db.rows, newest, iset{k});
    RunIsGapless(base, ls);
    PlaceExactly(base, ls, newest, k);
    NewestComesLast(base, s, newest, k);
    AgreeOnLast(base, s, newest, k);
    hide Sound, AllGapless, AfterItsElders, Applied, Agree, NeverOvertook, NewestOf, AllDelivered;
  }

  // ---------- the whole table ----------

  ghost predicate Drained(s: State) {
    forall id | id in s.db.rows :: s.db.rows[id].status == Sent
  }

  /** Every event is in the log, whether it is marked or not. */
  ghost predicate Complete(s: State) {
    forall id | id in s.db.rows :: Copies(s.log, id) > 0
  }

  /** What the consumer holds is the products table, projected onto what events carry. */
  ghost predicate Rebuilt(base: Table, s: State) {
    Replay(Project(base), s.log) == Project(s.db.products)
  }

  lemma AgreementRebuilds(base: Table, s: State)
    requires forall k :: Agree(base, s, k)
    ensures Rebuilt(base, s)
  {
    var view, table := Replay(Project(base), s.log), Project(s.db.products);
    forall k
      ensures (k in view <==> k in table) && (k in view ==> view[k] == table[k])
    {
      assert Agree(base, s, k);
    }
  }

  /** End to end: once every event is delivered, the log rebuilds the products table from the baseline, if no
      event ever overtook one of its own product. Overtaking between products does no harm. */
  lemma Rebuild(base: Table, ls: seq<Label>)
    requires TableOk(base) && IsRun(Init(base), ls) && InCommitOrder(Init(base), ls)
    requires forall k :: NeverOvertakes(Init(base), ls, iset{k})
    requires Complete(After(Init(base), ls))
    ensures Rebuilt(base, After(Init(base), ls))
  {
    var s := After(Init(base), ls);
    forall k
      ensures Agree(base, s, k)
    {
      assert AllDelivered(s, k);
      RebuildProduct(base, ls, k);
    }
    AgreementRebuilds(base, s);
  }

  lemma DrainedIsComplete(base: Table, ls: seq<Label>)
    requires TableOk(base) && IsRun(Init(base), ls) && Drained(After(Init(base), ls))
    ensures Complete(After(Init(base), ls))
  {
    RunIsSound(base, ls);
  }

  /** In particular, once no row is pending, when no publish call ever failed. */
  lemma RebuildWithoutFailures(base: Table, ls: seq<Label>)
    requires TableOk(base) && IsRun(Init(base), ls) && InCommitOrder(Init(base), ls)
    requires Failures(ls) == {} && Drained(After(Init(base), ls))
    ensures Rebuilt(base, After(Init(base), ls))
  {
    forall k
      ensures NeverOvertakes(Init(base), ls, iset{k})
    {
      NoFailureNoOvertaking(base, ls, iset{k});
    }
    DrainedIsComplete(base, ls);
    Rebuild(base, ls);
  }
}
