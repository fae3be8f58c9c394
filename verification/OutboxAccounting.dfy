/** Where every copy of an event in the log comes from. */
module OutboxAccounting {
  import opened Domain
  import opened Events
  import opened Database
  import opened Outbox
  import opened OutboxDelivery
  import opened Steps

  /** redundant: marks that hit a row already sent. lost: deliveries whose mark failed or was cut off by a
      crash. hidden: publish calls that failed and yet delivered. */
  datatype Ledger = Ledger(redundant: nat, lost: nat, hidden: nat) {
    function Total(): nat {
      redundant + lost + hidden
    }

    function Plus(other: Ledger): Ledger {
      Ledger(redundant + other.redundant, lost + other.lost, hidden + other.hidden)
    }
  }

  const NOTHING := Ledger(0, 0, 0)
  const REDUNDANT := Ledger(1, 0, 0)
  const LOST := Ledger(0, 1, 0)
  const HIDDEN := Ledger(0, 0, 1)

  ghost predicate IsSent(s: State, id: string) {
    id in s.db.rows && s.db.rows[id].status == Sent
  }

  /** What one step adds to the ledger of event `id`. */
  ghost function Charge(s: State, l: Label, id: string): Ledger {
    if l.MarkSent? && l.id == id && l.applied && IsSent(s, id) then REDUNDANT
    else if l.MarkSent? && l.id == id && !l.applied then LOST
    else if l.Crash? && At(s, l.p, id, Delivered) then LOST
    else if l.Publish? && l.id == id && l.outcome.ErrorDelivered? then HIDDEN
    else NOTHING
  }

  ghost function Count(s: State, ls: seq<Label>, id: string): Ledger
    requires IsRun(s, ls)
  {
    if ls == [] then NOTHING
    else Count(s, ls[..|ls| - 1], id).Plus(Charge(After(s, ls[..|ls| - 1]), ls[|ls| - 1], id))
  }

  /** The publishers that have delivered event `id` and not yet tried to mark it. */
  ghost function InFlight(s: State, id: string): set<nat> {
    set p | p in s.workers && At(s, p, id, Delivered)
  }

  ghost function One(b: bool): nat {
    if b then 1 else 0
  }

  ghost predicate Balanced(s: State, id: string, ledger: Ledger) {
    Copies(s.log, id) == One(IsSent(s, id)) + ledger.Total() + |InFlight(s, id)|
  }

  ghost predicate Joins(l: Label, id: string) {
    l.Publish? && l.id == id && l.outcome.Acked?
  }

  ghost predicate Leaves(s: State, l: Label, id: string) {
    (l.MarkSent? && l.id == id) || (l.Crash? && At(s, l.p, id, Delivered))
  }

  lemma InFlightMoves(s: State, l: Label, id: string)
    requires Enabled(s, l)
    ensures Joins(l, id) ==> l.p !in InFlight(s, id) && InFlight(Step(s, l), id) == InFlight(s, id) + {l.p}
    ensures Leaves(s, l, id) ==> l.p in InFlight(s, id) && InFlight(Step(s, l), id) == InFlight(s, id) - {l.p}
    ensures !Joins(l, id) && !Leaves(s, l, id) ==> InFlight(Step(s, l), id) == InFlight(s, id)
  {
  }

  lemma InFlightChange(s: State, l: Label, id: string)
    requires Enabled(s, l)
    ensures |InFlight(Step(s, l), id)| == |InFlight(s, id)| + One(Joins(l, id)) - One(Leaves(s, l, id))
  {
    InFlightMoves(s, l, id);
  }

  lemma CopiesChange(s: State, l: Label, id: string)
    requires Enabled(s, l)
    ensures Copies(Step(s, l).log, id) ==
            Copies(s.log, id) + One(l.Publish? && l.id == id && !l.outcome.ErrorLost?)
  {
    if l.Publish? {
      CopiesAppend(s.log, MessageOf(s.workers[l.p].batch[s.workers[l.p].pos]));
    }
  }

  lemma SentChange(s: State, l: Label, id: string)
    requires Enabled(s, l) && (l.MarkSent? ==> l.id in s.db.rows)
    ensures IsSent(Step(s, l), id) <==> IsSent(s, id) || (l.MarkSent? && l.id == id && l.applied)
  {
  }

  lemma StepKeepsBalance(s: State, l: Label, id: string, ledger: Ledger)
    requires Enabled(s, l) && (l.MarkSent? ==> l.id in s.db.rows)
    requires Balanced(s, id, ledger)
    ensures Balanced(Step(s, l), id, ledger.Plus(Charge(s, l, id)))
  {
    InFlightChange(s, l, id);
    CopiesChange(s, l, id);
    SentChange(s, l, id);
  }

  /** Exact accounting, for any number of publishers and any failures: the copies of an event are its
      mark, the redundant marks, the lost ones, the hidden deliveries, and those still on their way to
      being marked. Nothing else ever puts a copy into the log. */
  lemma {:induction false} EveryCopyIsAccounted(base: Table, ls: seq<Label>, id: string)
    requires TableOk(base) && IsRun(Init(base), ls)
    ensures var s, ledger := After(Init(base), ls), Count(Init(base), ls, id);
            Copies(s.log, id) == One(IsSent(s, id)) + ledger.redundant + ledger.lost + ledger.hidden + |InFlight(s, id)|
  {
    if ls == [] {
      assert InFlight(Init(base), id) == {};
    } else {
      var init, l := ls[..|ls| - 1], ls[|ls| - 1];
      var s := After(Init(base), init);
      EveryCopyIsAccounted(base, init, id);
      assert Balanced(s, id, Count(Init(base), init, id));
      RunIsSound(base, init);
      if l.MarkSent? {
        assert WorkOk(s, s.workers[l.p]);
        assert FromRow(s.db.rows, s.workers[l.p].batch[s.workers[l.p].pos]);
      }
      StepKeepsBalance(s, l, id, Count(Init(base), init, id));
      assert Balanced(After(Init(base), ls), id, Count(Init(base), ls, id));
    }
  }

  // ---------- what the ledger and the rows count, said in labels ----------

  function Delivers(id: string): Label -> bool {
    (l: Label) => l.Publish? && l.id == id && l.outcome.Acked?
  }

  function Hides(id: string): Label -> bool {
    (l: Label) => l.Publish? && l.id == id && l.outcome.ErrorDelivered?
  }

  function MarksSent(id: string): Label -> bool {
    (l: Label) => l.MarkSent? && l.id == id && l.applied
  }

  function MarksFailed(id: string): Label -> bool {
    (l: Label) => l.MarkFailed? && l.id == id && l.applied
  }

  function Number(ls: seq<Label>, which: Label -> bool): nat {
    |Chosen(ls, which)|
  }

  lemma NumberSnoc(ls: seq<Label>, which: Label -> bool)
    requires ls != []
    ensures Number(ls, which) == Number(ls[..|ls| - 1], which) + (if which(ls[|ls| - 1]) then 1 else 0)
  {
  }

  lemma StepCounts(s: State, l: Label, id: string)
    requires Enabled(s, l) && (l.MarkSent? ==> l.id in s.db.rows)
    ensures Charge(s, l, id).hidden == One(Hides(id)(l))
    ensures One(IsSent(Step(s, l), id)) + Charge(s, l, id).redundant == One(IsSent(s, id)) + One(MarksSent(id)(l))
    ensures Charge(s, l, id).lost + |InFlight(Step(s, l), id)| + One(MarksSent(id)(l)) == |InFlight(s, id)| + One(Delivers(id)(l))
  {
    InFlightChange(s, l, id);
    SentChange(s, l, id);
  }

  /** Every entry of the ledger and the status itself, in terms of what happened: hidden deliveries are the publish
      calls that failed and delivered; a row is sent once a mark for it was applied, and every further one is
      redundant; and an acknowledged delivery is marked, lost, or still on its way to being marked. */
  lemma {:induction false} LedgerCounts(base: Table, ls: seq<Label>, id: string)
    requires TableOk(base) && IsRun(Init(base), ls)
    ensures var s, ledger := After(Init(base), ls), Count(Init(base), ls, id);
            && ledger.hidden == Number(ls, Hides(id))
            && One(IsSent(s, id)) + ledger.redundant == Number(ls, MarksSent(id))
            && ledger.lost + |InFlight(s, id)| + Number(ls, MarksSent(id)) == Number(ls, Delivers(id))
  {
    if ls == [] {
      assert InFlight(Init(base), id) == {};
    } else {
      var init, l := ls[..|ls| - 1], ls[|ls| - 1];
      var s := After(Init(base), init);
      LedgerCounts(base, init, id);
      RunIsSound(base, init);
      MarkedHasRow(base, s, l);
      StepCounts(s, l, id);
      NumberSnoc(ls, Hides(id));
      NumberSnoc(ls, MarksSent(id));
      NumberSnoc(ls, Delivers(id));
      hide Charge, InFlight, Number, Sound, Enabled, Step, IsSent;
    }
  }

  lemma MarkedHasRow(base: Table, s: State, l: Label)
    requires Sound(base, s) && Enabled(s, l)
    ensures l.MarkSent? || l.MarkFailed? ==> l.id in s.db.rows
  {
    if l.MarkSent? || l.MarkFailed? {
      assert WorkOk(s, s.workers[l.p]);
      assert FromRow(s.db.rows, s.workers[l.p].batch[s.workers[l.p].pos]);
    }
  }

  /** The attempts on record for an event; none before there is a row. */
  ghost function Attempts(s: State, id: string): nat {
    if id in s.db.rows then s.db.rows[id].attempts else 0
  }

  lemma StepCountsAttempts(s: State, l: Label, id: string)
    requires Enabled(s, l) && (l.MarkFailed? ==> l.id in s.db.rows)
    ensures Attempts(Step(s, l), id) == Attempts(s, id) + One(MarksFailed(id)(l))
  {
  }

  /** A row's attempts are exactly the applied failure marks for it. */
  lemma {:induction false} AttemptsCountFailures(base: Table, ls: seq<Label>, id: string)
    requires TableOk(base) && IsRun(Init(base), ls)
    ensures Attempts(After(Init(base), ls), id) == Number(ls, MarksFailed(id))
  {
    if ls != [] {
      var init, l := ls[..|ls| - 1], ls[|ls| - 1];
      AttemptsCountFailures(base, init, id);
      RunIsSound(base, init);
      MarkedHasRow(base, After(Init(base), init), l);
      StepCountsAttempts(After(Init(base), init), l, id);
      NumberSnoc(ls, MarksFailed(id));
      hide Number, Sound, Enabled, Step, Attempts;
    }
  }

  // ---------- one publisher ----------

  predicate By(l: Label, p: nat) {
    l.Transact? || l.Abort? || l.p == p
  }

  /** With one publisher, what remains of a batch is still pending. */
  ghost predicate RestPending(s: State, w: Work) {
    && (forall i | w.pos <= i < |w.batch| :: w.batch[i].id in s.db.rows && s.db.rows[w.batch[i].id].status == Pending)
    && (forall i, j | 0 <= i < j < |w.batch| :: w.batch[i].id != w.batch[j].id)
  }

  ghost predicate Alone(s: State, p: nat) {
    && s.workers.Keys <= {p}
    && (p in s.workers ==> RestPending(s, s.workers[p]))
  }

  lemma StepKeepsAlone(s: State, l: Label, p: nat)
    requires Enabled(s, l) && By(l, p) && Alone(s, p)
    ensures Alone(Step(s, l), p)
  {
    if l.Fetch? {
      var w := Step(s, l).workers[p];
      assert forall i | 0 <= i < |w.batch| :: w.batch[i].id == l.ids[i];
    }
  }

  lemma {:induction false} OnePublisherNeverMarksTwice(base: Table, ls: seq<Label>, p: nat, id: string)
    requires IsRun(Init(base), ls) && forall l | l in ls :: By(l, p)
    ensures Alone(After(Init(base), ls), p)
    ensures Count(Init(base), ls, id).redundant == 0
  {
    if ls != [] {
      var init, l := ls[..|ls| - 1], ls[|ls| - 1];
      assert l in ls && forall x | x in init :: x in ls;
      OnePublisherNeverMarksTwice(base, init, p, id);
      StepKeepsAlone(After(Init(base), init), l, p);
    }
  }

  /** One publisher, no lost mark and no hidden delivery. */
  ghost predicate Flawless(base: Table, ls: seq<Label>, p: nat, id: string)
    requires IsRun(Init(base), ls)
  {
    && (forall l | l in ls :: By(l, p))
    && Count(Init(base), ls, id).lost == 0
    && Count(Init(base), ls, id).hidden == 0
  }

  /** Exactly once: when nothing goes wrong, an event marked sent is in the log once, one whose mark is
      outstanding is in the log once, and any other is not in the log. */
  lemma ExactlyOnce(base: Table, ls: seq<Label>, p: nat, id: string)
    requires TableOk(base) && IsRun(Init(base), ls) && Flawless(base, ls, p, id)
    ensures var s := After(Init(base), ls);
            Copies(s.log, id) == One(IsSent(s, id) || At(s, p, id, Delivered))
  {
    var s := After(Init(base), ls);
    EveryCopyIsAccounted(base, ls, id);
    OnePublisherNeverMarksTwice(base, ls, p, id);
    assert InFlight(s, id) == if At(s, p, id, Delivered) then {p} else {};
  }
}
