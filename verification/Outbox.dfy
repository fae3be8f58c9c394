/** The delivery protocol: transactions fill the outbox while any number of publishers drain it.

    Publishers take no row lock, so their batches may overlap and may be stale. Each database call and
    each publish is one step, and between two steps of one publisher anything else may happen. A label
    carries every choice a step leaves open, so a run is a list of labels. */
module Outbox {
  import opened Domain
  import opened Events
  import opened Database

  const BATCH_SIZE: nat := 100

  datatype Event = Event(id: string, topic: string, key: string, eventType: string, payload: ProductEvent)

  function EventOf(id: string, row: Row): Event {
    Event(id, row.topic, row.key, row.eventType, row.payload)
  }

  function MessageOf(e: Event): Message {
    Message(e.topic, e.key, e.payload, e.eventType, e.id, SOURCE)
  }

  /** What the publisher does next with the event at its position: publish it, mark it sent, or mark it
      failed. */
  datatype Phase = Publishing | Delivered | Failed

  /** A publisher inside publishBatch. One that is not there has no entry in `workers`. */
  datatype Work = Work(batch: seq<Event>, pos: nat, phase: Phase)

  datatype State = State(db: Db, log: seq<Message>, workers: map<nat, Work>)

  function Init(products: Table): State {
    State(Fresh(products), [], map[])
  }

  /** A publish call is acknowledged, or fails; a failed call may have delivered all the same. */
  datatype Outcome = Acked | ErrorDelivered | ErrorLost

  datatype Label =
    | Transact(m: Mutation)
    | Abort // a transaction that fails or rolls back
    | Fetch(p: nat, ids: seq<string>)
    | FetchFails(p: nat)
    | Publish(p: nat, id: string, outcome: Outcome)
    | MarkSent(p: nat, id: string, applied: bool)
    | MarkFailed(p: nat, id: string, applied: bool)
    | Finish(p: nat)
    | Crash(p: nat)

  /** The answer to: pending rows ORDER BY created_at LIMIT n. Rows with equal created_at come in any order. */
  ghost predicate OldestPending(rows: map<string, Row>, ids: seq<string>, n: nat) {
    && |ids| <= n
    && (forall i | 0 <= i < |ids| :: ids[i] in rows && rows[ids[i]].status == Pending)
    && (forall i, j | 0 <= i < j < |ids| :: ids[i] != ids[j] && rows[ids[i]].createdAt <= rows[ids[j]].createdAt)
    && (forall id | id in rows && rows[id].status == Pending && id !in ids ::
          |ids| == n && forall i | 0 <= i < |ids| :: rows[ids[i]].createdAt <= rows[id].createdAt)
  }

  function Snapshot(rows: map<string, Row>, ids: seq<string>): seq<Event>
    requires forall i | 0 <= i < |ids| :: ids[i] in rows
  {
    seq(|ids|, i requires 0 <= i < |ids| => EventOf(ids[i], rows[ids[i]]))
  }

  /** Publisher `p` is about to do the given thing with event `id`. */
  predicate At(s: State, p: nat, id: string, phase: Phase) {
    && p in s.workers
    && s.workers[p].phase == phase
    && s.workers[p].pos < |s.workers[p].batch|
    && s.workers[p].batch[s.workers[p].pos].id == id
  }

  ghost predicate Enabled(s: State, l: Label) {
    match l
    case Transact(m) => CanCommit(s.db, m)
    case Abort => true
    case Fetch(p, ids) => p !in s.workers && OldestPending(s.db.rows, ids, BATCH_SIZE)
    case FetchFails(p) => p !in s.workers
    case Publish(p, id, _) => At(s, p, id, Publishing)
    case MarkSent(p, id, _) => At(s, p, id, Delivered)
    case MarkFailed(p, id, _) => At(s, p, id, Failed)
    case Finish(p) => p in s.workers && s.workers[p].pos == |s.workers[p].batch|
    case Crash(p) => p in s.workers
  }

  function SetSent(rows: map<string, Row>, id: string): map<string, Row> {
    if id in rows then rows[id := rows[id].(status := Sent)] else rows
  }

  function AddAttempt(rows: map<string, Row>, id: string): map<string, Row> {
    if id in rows then rows[id := rows[id].(attempts := rows[id].attempts + 1)] else rows
  }

  function Advance(w: Work): Work {
    Work(w.batch, w.pos + 1, Publishing)
  }

  ghost function Step(s: State, l: Label): State
    requires Enabled(s, l)
  {
    match l
    case Transact(m) => s.(db := Commit(s.db, m))
    case Abort => s
    case Fetch(p, ids) => s.(workers := s.workers[p := Work(Snapshot(s.db.rows, ids), 0, Publishing)])
    case FetchFails(p) => s
    case Publish(p, id, outcome) =>
      var w := s.workers[p];
      s.(log := if outcome.ErrorLost? then s.log else s.log + [MessageOf(w.batch[w.pos])],
         workers := s.workers[p := w.(phase := if outcome.Acked? then Delivered else Failed)])
    case MarkSent(p, id, applied) =>
      s.(db := s.db.(rows := if applied then SetSent(s.db.rows, id) else s.db.rows),
         workers := s.workers[p := Advance(s.workers[p])])
    case MarkFailed(p, id, applied) =>
      s.(db := s.db.(rows := if applied then AddAttempt(s.db.rows, id) else s.db.rows),
         workers := s.workers[p := Advance(s.workers[p])])
    case Finish(p) => s.(workers := s.workers - {p})
    case Crash(p) => s.(workers := s.workers - {p})
  }

  ghost predicate IsRun(s: State, ls: seq<Label>)
    decreases |ls|, 0
  {
    ls == [] || (IsRun(s, ls[..|ls| - 1]) && Enabled(After(s, ls[..|ls| - 1]), ls[|ls| - 1]))
  }

  ghost function After(s: State, ls: seq<Label>): State
    requires IsRun(s, ls)
    decreases |ls|, 1
  {
    if ls == [] then s else Step(After(s, ls[..|ls| - 1]), ls[|ls| - 1])
  }

  lemma RunAppend(s: State, ls: seq<Label>, l: Label)
    requires IsRun(s, ls) && Enabled(After(s, ls), l)
    ensures IsRun(s, ls + [l]) && After(s, ls + [l]) == Step(After(s, ls), l)
  {
    assert (ls + [l])[..|ls|] == ls;
  }

  lemma {:induction false} RunsJoin(s: State, a: seq<Label>, b: seq<Label>)
    requires IsRun(s, a) && IsRun(After(s, a), b)
    ensures IsRun(s, a + b) && After(s, a + b) == After(After(s, a), b)
  {
    hide Step, Enabled;
    if b == [] {
      assert a + b == a;
    } else {
      RunsJoin(s, a, b[..|b| - 1]);
      assert (a + b)[..|a + b| - 1] == a + b[..|b| - 1];
    }
  }

  /** How often event `id` appears in the log. */
  ghost function Copies(log: seq<Message>, id: string): nat {
    if log == [] then 0
    else Copies(log[..|log| - 1], id) + (if log[|log| - 1].eventId == id then 1 else 0)
  }

  lemma CopiesAppend(log: seq<Message>, m: Message)
    ensures forall id :: Copies(log + [m], id) == Copies(log, id) + (if m.eventId == id then 1 else 0)
  {
    assert (log + [m])[..|log|] == log;
  }

  lemma {:induction false} CopiesMember(log: seq<Message>, id: string)
    ensures Copies(log, id) > 0 <==> exists m :: m in log && m.eventId == id
  {
    if log != [] {
      var init, last := log[..|log| - 1], log[|log| - 1];
      CopiesMember(init, id);
      assert log == init + [last];
      assert last in log;
      if Copies(log, id) > 0 && Copies(init, id) > 0 {
        var m :| m in init && m.eventId == id;
        assert m in log;
      }
    }
  }
}
