/** The publisher itself: one pass over the pending rows, as a program over the database and the producer.

    Errors of the database, of the producer and of a cancelled context arrive as parameters. */
module OutboxPublisher {
  import opened Domain
  import opened Events
  import opened Database
  import opened Outbox
  import opened Steps

  class Producer {
    var log: seq<Message>

    constructor ()
      ensures log == []
    {
      log := [];
    }

    /** Builds the record and hands it to the writer. A failing write may still have delivered it. */
    method PublishRaw(topic: string, key: string, eventType: string, eventId: string, payload: ProductEvent, outcome: Outcome)
      returns (failed: bool)
      modifies this
      ensures failed <==> !outcome.Acked?
      ensures log == old(log) + (if outcome.ErrorLost? then [] else
                [Message(topic, key, payload, eventType, eventId, "catalog-service")])
    {
      var record := Message(topic, key, payload, eventType, eventId, SOURCE);
      if !outcome.ErrorLost? {
        log := log + [record];
      }
      failed := !outcome.Acked?;
    }
  }

  /** How the pending query goes: it fails, or answers with ids while reading the n-th row or the end of
      the result may still fail. */
  datatype Answer = QueryFails | Answered(ids: seq<string>, unreadable: Option<nat>, cutShort: bool) {
    predicate Complete() {
      Answered? && !cutShort && (unreadable.Some? ==> |ids| <= unreadable.value)
    }
  }

  /** What happens to one publish call and to the UPDATE that follows it. */
  datatype Fate = Fate(outcome: Outcome, marked: bool)

  function Attempt(p: nat, id: string, fate: Fate): seq<Label> {
    [Publish(p, id, fate.outcome),
     if fate.outcome.Acked? then MarkSent(p, id, fate.marked) else MarkFailed(p, id, fate.marked)]
  }

  /** The first `n` turns of a pass, as steps of the protocol. */
  function Turns(p: nat, ids: seq<string>, n: nat, fate: nat -> Fate): seq<Label>
    requires n <= |ids|
  {
    if n == 0 then [Fetch(p, ids)] else Turns(p, ids, n - 1, fate) + Attempt(p, ids[n - 1], fate(n - 1))
  }

  function BatchLabels(p: nat, ids: seq<string>, fate: nat -> Fate): seq<Label> {
    Turns(p, ids, |ids|, fate) + [Finish(p)]
  }

  lemma FetchRuns(s: State, p: nat, ids: seq<string>)
    requires p !in s.workers && OldestPending(s.db.rows, ids, BATCH_SIZE)
    ensures IsRun(s, [Fetch(p, ids)])
    ensures After(s, [Fetch(p, ids)]) == s.(workers := s.workers[p := Work(Snapshot(s.db.rows, ids), 0, Publishing)])
  {
    RunAppend(s, [], Fetch(p, ids));
    assert [] + [Fetch(p, ids)] == [Fetch(p, ids)];
  }

  lemma FinishRuns(s: State, ls: seq<Label>, p: nat)
    requires IsRun(s, ls) && p in After(s, ls).workers
    requires After(s, ls).workers[p].pos == |After(s, ls).workers[p].batch|
    ensures IsRun(s, ls + [Finish(p)])
    ensures After(s, ls + [Finish(p)]) == After(s, ls).(workers := After(s, ls).workers - {p})
  {
    RunAppend(s, ls, Finish(p));
  }

  /** The effect of one turn of the loop on database and log. */
  function Published(log: seq<Message>, e: Event, outcome: Outcome): seq<Message> {
    log + (if outcome.ErrorLost? then [] else [MessageOf(e)])
  }

  function Marked(db: Db, e: Event, fate: Fate): Db {
    if !fate.marked then db
    else if fate.outcome.Acked? then db.(rows := SetSent(db.rows, e.id))
    else db.(rows := AddAttempt(db.rows, e.id))
  }

  function PhaseAfter(outcome: Outcome): Phase {
    if outcome.Acked? then Delivered else Failed
  }

  lemma PublishStep(s: State, p: nat, events: seq<Event>, i: nat, fate: Fate)
    requires i < |events| && p in s.workers && s.workers[p] == Work(events, i, Publishing)
    ensures var l := Attempt(p, events[i].id, fate)[0];
            && Enabled(s, l)
            && Step(s, l) == State(s.db, Published(s.log, events[i], fate.outcome),
                                   s.workers[p := Work(events, i, PhaseAfter(fate.outcome))])
  {
  }

  lemma MarkStep(s: State, p: nat, events: seq<Event>, i: nat, fate: Fate)
    requires i < |events| && p in s.workers && s.workers[p] == Work(events, i, PhaseAfter(fate.outcome))
    ensures var l := Attempt(p, events[i].id, fate)[1];
            && Enabled(s, l)
            && Step(s, l) == State(Marked(s.db, events[i], fate), s.log, s.workers[p := Work(events, i + 1, Publishing)])
  {
  }

  lemma AttemptSteps(s: State, p: nat, events: seq<Event>, i: nat, fate: Fate)
    requires i < |events| && s.workers == map[p := Work(events, i, Publishing)]
    ensures var steps := Attempt(p, events[i].id, fate);
            && Enabled(s, steps[0])
            && Enabled(Step(s, steps[0]), steps[1])
            && Step(Step(s, steps[0]), steps[1]) ==
               State(Marked(s.db, events[i], fate), Published(s.log, events[i], fate.outcome),
                     map[p := Work(events, i + 1, Publishing)])
  {
    PublishStep(s, p, events, i, fate);
    MarkStep(Step(s, Attempt(p, events[i].id, fate)[0]), p, events, i, fate);
    hide Step, Enabled, Marked, Published;
  }

  /** Undisturbed, one turn of the loop is two steps of the protocol. */
  lemma TurnRuns(s: State, p: nat, ids: seq<string>, events: seq<Event>, i: nat, fate: nat -> Fate)
    requires |ids| == |events| && i < |events| && events[i].id == ids[i]
    requires IsRun(s, Turns(p, ids, i, fate))
    requires After(s, Turns(p, ids, i, fate)).workers == map[p := Work(events, i, Publishing)]
    ensures IsRun(s, Turns(p, ids, i + 1, fate))
    ensures var t := After(s, Turns(p, ids, i, fate));
            After(s, Turns(p, ids, i + 1, fate)) ==
            State(Marked(t.db, events[i], fate(i)), Published(t.log, events[i], fate(i).outcome),
                  map[p := Work(events, i + 1, Publishing)])
  {
    var ls, steps := Turns(p, ids, i, fate), Attempt(p, ids[i], fate(i));
    AttemptSteps(After(s, ls), p, events, i, fate(i));
    hide Step, Enabled, Marked, Published;
    RunAppend(s, ls, steps[0]);
    RunAppend(s, ls + [steps[0]], steps[1]);
    assert ls + [steps[0]] + [steps[1]] == Turns(p, ids, i + 1, fate);
  }

  // ---------- others at work ----------

  function Mine(p: nat): Label -> bool {
    (l: Label) => !l.Transact? && !l.Abort? && l.p == p
  }

  /** The steps of publisher `p` in a run. */
  function Own(ls: seq<Label>, p: nat): seq<Label> {
    Chosen(ls, Mine(p))
  }

  /** What others make of database, log and their own work between two calls of a pass, pause by pause. */
  type Meanwhile = (nat, State) -> State

  /** Whatever happens in a pause is a run of the protocol in which publisher `p` takes no step. */
  ghost predicate Interferes(meanwhile: Meanwhile, p: nat) {
    forall k: nat, s: State | p !in s.workers :: exists ls :: IsRun(s, ls) && After(s, ls) == meanwhile(k, s) && Own(ls, p) == []
  }

  /** The state in which publisher `p` has work `w` as well. */
  function With(s: State, p: nat, w: Work): State {
    s.(workers := s.workers[p := w])
  }

  lemma OthersStep(s: State, l: Label, p: nat, w: Work)
    requires p !in s.workers && !Mine(p)(l) && Enabled(s, l)
    ensures p !in Step(s, l).workers
    ensures Enabled(With(s, p, w), l) && Step(With(s, p, w), l) == With(Step(s, l), p, w)
  {
    hide Commit, CanCommit, OldestPending, Snapshot, SetSent, AddAttempt, MessageOf;
    if !l.Transact? && !l.Abort? {
      assert l.p != p;
      assert s.workers[p := w] - {l.p} == (s.workers - {l.p})[p := w];
    }
  }

  /** Others do not notice what `p` is at. */
  lemma {:induction false} OthersRun(s: State, ls: seq<Label>, p: nat, w: Work)
    requires p !in s.workers && IsRun(s, ls) && Own(ls, p) == []
    ensures p !in After(s, ls).workers
    ensures IsRun(With(s, p, w), ls) && After(With(s, p, w), ls) == With(After(s, ls), p, w)
  {
    if ls != [] {
      OthersRun(s, ls[..|ls| - 1], p, w);
      OthersStep(After(s, ls[..|ls| - 1]), ls[|ls| - 1], p, w);
    }
  }

  lemma PauseRuns(start: State, ls: seq<Label>, s: State, p: nat, w: Work, meanwhile: Meanwhile, k: nat) returns (ls': seq<Label>)
    requires Interferes(meanwhile, p) && p !in s.workers
    requires IsRun(start, ls) && After(start, ls) == With(s, p, w)
    ensures p !in meanwhile(k, s).workers
    ensures IsRun(start, ls') && After(start, ls') == With(meanwhile(k, s), p, w) && Own(ls', p) == Own(ls, p)
  {
    var pause :| IsRun(s, pause) && After(s, pause) == meanwhile(k, s) && Own(pause, p) == [];
    OthersRun(s, pause, p, w);
    RunsJoin(start, ls, pause);
    ChosenJoin(ls, pause, Mine(p));
    ls' := ls + pause;
  }

  lemma OwnStepRuns(start: State, ls: seq<Label>, l: Label, p: nat) returns (ls': seq<Label>)
    requires IsRun(start, ls) && Enabled(After(start, ls), l) && Mine(p)(l)
    ensures IsRun(start, ls') && After(start, ls') == Step(After(start, ls), l) && Own(ls', p) == Own(ls, p) + [l]
  {
    RunAppend(start, ls, l);
    ChosenAppend(ls, l, Mine(p));
    ls' := ls + [l];
  }

  /** Others pause, then publisher `p` publishes the event at its position. */
  lemma PublishRuns(start: State, ls: seq<Label>, s: State, p: nat, events: seq<Event>, i: nat, fate: Fate,
                    meanwhile: Meanwhile, k: nat) returns (ls': seq<Label>)
    requires Interferes(meanwhile, p) && p !in s.workers && i < |events|
    requires IsRun(start, ls) && After(start, ls) == With(s, p, Work(events, i, Publishing))
    ensures var met := meanwhile(k, s);
            && p !in met.workers
            && IsRun(start, ls')
            && After(start, ls') == With(State(met.db, Published(met.log, events[i], fate.outcome), met.workers), p,
                                         Work(events, i, PhaseAfter(fate.outcome)))
    ensures Own(ls', p) == Own(ls, p) + [Attempt(p, events[i].id, fate)[0]]
  {
    hide Interferes, IsRun, After, Own, Step, Enabled, Published;
    ls' := PauseRuns(start, ls, s, p, Work(events, i, Publishing), meanwhile, k);
    PublishStep(With(meanwhile(k, s), p, Work(events, i, Publishing)), p, events, i, fate);
    ls' := OwnStepRuns(start, ls', Attempt(p, events[i].id, fate)[0], p);
  }

  /** Others pause, then publisher `p` marks the event at its position. */
  lemma MarkRuns(start: State, ls: seq<Label>, s: State, p: nat, events: seq<Event>, i: nat, fate: Fate,
                 meanwhile: Meanwhile, k: nat) returns (ls': seq<Label>)
    requires Interferes(meanwhile, p) && p !in s.workers && i < |events|
    requires IsRun(start, ls) && After(start, ls) == With(s, p, Work(events, i, PhaseAfter(fate.outcome)))
    ensures var met := meanwhile(k, s);
            && p !in met.workers
            && IsRun(start, ls')
            && After(start, ls') == With(State(Marked(met.db, events[i], fate), met.log, met.workers), p,
                                         Work(events, i + 1, Publishing))
    ensures Own(ls', p) == Own(ls, p) + [Attempt(p, events[i].id, fate)[1]]
  {
    hide Interferes, IsRun, After, Own, Step, Enabled, Marked, PhaseAfter;
    ls' := PauseRuns(start, ls, s, p, Work(events, i, PhaseAfter(fate.outcome)), meanwhile, k);
    MarkStep(With(meanwhile(k, s), p, Work(events, i, PhaseAfter(fate.outcome))), p, events, i, fate);
    ls' := OwnStepRuns(start, ls', Attempt(p, events[i].id, fate)[1], p);
  }

  /** Where a turn among others leaves database, log and the others. */
  function TurnAmongOthers(s: State, e: Event, fate: Fate, meanwhile: Meanwhile, k: nat): State {
    var met := meanwhile(k, s);
    var later := meanwhile(k + 1, State(met.db, Published(met.log, e, fate.outcome), met.workers));
    State(Marked(later.db, e, fate), later.log, later.workers)
  }

  /** The run has brought publisher `p` to its i-th event; database, log and the others are as in `s`. */
  ghost predicate Underway(start: State, ls: seq<Label>, s: State, p: nat, ids: seq<string>, events: seq<Event>, i: nat,
                           fate: nat -> Fate)
  {
    && i <= |ids| == |events| && p !in s.workers
    && IsRun(start, ls) && After(start, ls) == With(s, p, Work(events, i, Publishing))
    && Own(ls, p) == Turns(p, ids, i, fate)
  }

  lemma TurnAmongOthersRuns(start: State, ls: seq<Label>, s: State, p: nat, ids: seq<string>, events: seq<Event>, i: nat,
                            fate: nat -> Fate, meanwhile: Meanwhile) returns (ls': seq<Label>)
    requires Interferes(meanwhile, p) && Underway(start, ls, s, p, ids, events, i, fate)
    requires i < |events| == |ids| && events[i].id == ids[i]
    ensures Underway(start, ls', TurnAmongOthers(s, events[i], fate(i), meanwhile, 2 * i), p, ids, events, i + 1, fate)
  {
    hide Interferes, IsRun, After, With, Own, Published, Marked;
    var met := meanwhile(2 * i, s);
    var now := State(met.db, Published(met.log, events[i], fate(i).outcome), met.workers);
    ls' := PublishRuns(start, ls, s, p, events, i, fate(i), meanwhile, 2 * i);
    ls' := MarkRuns(start, ls', now, p, events, i, fate(i), meanwhile, 2 * i + 1);
    var steps := Attempt(p, ids[i], fate(i));
    assert steps == [steps[0]] + [steps[1]];
  }

  lemma FetchStarts(start: State, p: nat, ids: seq<string>, fate: nat -> Fate) returns (ls: seq<Label>)
    requires p !in start.workers && OldestPending(start.db.rows, ids, BATCH_SIZE)
    ensures Underway(start, ls, start, p, ids, Snapshot(start.db.rows, ids), 0, fate)
  {
    ls := OwnStepRuns(start, [], Fetch(p, ids), p);
  }

  lemma FinishEnds(start: State, ls: seq<Label>, s: State, p: nat, ids: seq<string>, events: seq<Event>, fate: nat -> Fate)
    requires Underway(start, ls, s, p, ids, events, |ids|, fate)
    ensures Reaches(start, s, p, BatchLabels(p, ids, fate))
  {
    var ls' := OwnStepRuns(start, ls, Finish(p), p);
    assert s.workers[p := Work(events, |events|, Publishing)] - {p} == s.workers;
  }

  /** A run of the protocol from one state to another in which publisher `p` takes exactly the given steps. */
  ghost predicate Reaches(s: State, t: State, p: nat, own: seq<Label>) {
    exists ls :: IsRun(s, ls) && After(s, ls) == t && Own(ls, p) == own
  }

  class Publisher {
    const worker: nat
    const conn: Connection
    const producer: Producer
    const batchSize: nat := BATCH_SIZE

    constructor (worker: nat, conn: Connection, producer: Producer)
      ensures this.worker == worker && this.conn == conn && this.producer == producer && batchSize == 100
    {
      this.worker, this.conn, this.producer := worker, conn, producer;
    }

    /** Reads the oldest pending rows, or reports the first error and nothing else. */
    method FetchPending(answer: Answer) returns (r: Result<seq<Event>>)
      requires answer.Answered? ==> OldestPending(conn.db.rows, answer.ids, batchSize)
      ensures r.Ok? <==> answer.Complete()
      ensures r.Ok? ==> r.value == Snapshot(conn.db.rows, answer.ids)
    {
      if answer.QueryFails? {
        return Err(Storage);
      }
      var events: seq<Event> := [];
      var i := 0;
      while i < |answer.ids|
        invariant i <= |answer.ids|
        invariant answer.unreadable.Some? ==> i <= answer.unreadable.value
        invariant events == Snapshot(conn.db.rows, answer.ids)[..i]
      {
        if answer.unreadable == Some(i) {
          return Err(Storage);
        }
        var id := answer.ids[i];
        events := events + [EventOf(id, conn.db.rows[id])];
        i := i + 1;
      }
      if answer.cutShort {
        return Err(Storage);
      }
      return Ok(events);
    }

    /** One row's status, and nothing else. */
    method MarkSent(id: string, applied: bool)
      modifies conn
      ensures conn.db == old(conn.db).(rows := if applied then SetSent(old(conn.db).rows, id) else old(conn.db).rows)
      ensures conn.db.rows.Keys == old(conn.db.rows.Keys)
      ensures forall x | x in conn.db.rows ::
                conn.db.rows[x] == if applied && x == id then old(conn.db.rows)[x].(status := Sent) else old(conn.db.rows)[x]
    {
      if applied {
        conn.db := conn.db.(rows := SetSent(conn.db.rows, id));
      }
    }

    /** One row's attempts go up by one; its status stays what it was. */
    method MarkFailed(id: string, applied: bool)
      modifies conn
      ensures conn.db == old(conn.db).(rows := if applied then AddAttempt(old(conn.db).rows, id) else old(conn.db).rows)
      ensures conn.db.rows.Keys == old(conn.db.rows.Keys)
      ensures forall x | x in conn.db.rows && !(applied && x == id) :: conn.db.rows[x] == old(conn.db.rows)[x]
      ensures applied && id in conn.db.rows ==>
                && conn.db.rows[id].attempts == old(conn.db.rows)[id].attempts + 1
                && conn.db.rows[id] == old(conn.db.rows)[id].(attempts := conn.db.rows[id].attempts)
    {
      if applied {
        conn.db := conn.db.(rows := AddAttempt(conn.db.rows, id));
      }
    }

    /** Database and log as others have left them. */
    method Meet(s: State)
      modifies conn, producer
      ensures conn.db == s.db && producer.log == s.log
    {
      conn.db, producer.log := s.db, s.log;
    }

    /** The body of the loop for one event. Others may be at work before the publish call and before the mark. */
    method PublishAndMark(event: Event, fate: Fate, others: map<nat, Work>, meanwhile: Meanwhile, k: nat)
      returns (others': map<nat, Work>)
      modifies conn, producer
      ensures State(conn.db, producer.log, others') ==
              TurnAmongOthers(State(old(conn.db), old(producer.log), others), event, fate, meanwhile, k)
    {
      var met := meanwhile(k, State(conn.db, producer.log, others));
      Meet(met);
      var broken := producer.PublishRaw(event.topic, event.key, event.eventType, event.id, event.payload, fate.outcome);
      met := meanwhile(k + 1, State(conn.db, producer.log, met.workers));
      Meet(met);
      if broken {
        MarkFailed(event.id, fate.marked);
      } else {
        MarkSent(event.id, fate.marked);
      }
      others' := met.workers;
    }

    /** One pass over the pending rows. A failed fetch touches nothing. Otherwise the pass is a run of the protocol,
        whatever others do between any two of its calls, and its own steps in that run are exactly these: fetch,
        then publish and mark event by event, going on after a failure. `others` is the work of the other
        publishers, which share database and log. */
    method PublishBatch(answer: Answer, fate: nat -> Fate, others: map<nat, Work>, meanwhile: Meanwhile)
      returns (failed: bool, others': map<nat, Work>)
      requires answer.Answered? ==> OldestPending(conn.db.rows, answer.ids, batchSize)
      requires worker !in others && Interferes(meanwhile, worker)
      modifies conn, producer
      ensures failed <==> !answer.Complete()
      ensures failed ==> conn.db == old(conn.db) && producer.log == old(producer.log) && others' == others
      ensures !failed ==>
                Reaches(State(old(conn.db), old(producer.log), others), State(conn.db, producer.log, others'),
                        worker, BatchLabels(worker, answer.ids, fate))
    {
      others' := others;
      var fetched := FetchPending(answer);
      if fetched.Err? {
        return true, others;
      }
      var events := fetched.value;
      ghost var start := State(conn.db, producer.log, others);
      ghost var steps := FetchStarts(start, worker, answer.ids, fate);
      hide Underway, Interferes, OldestPending, TurnAmongOthers;
      var i := 0;
      while i < |events|
        invariant i <= |events|
        invariant Underway(start, steps, State(conn.db, producer.log, others'), worker, answer.ids, events, i, fate)
      {
        steps := TurnAmongOthersRuns(start, steps, State(conn.db, producer.log, others'), worker, answer.ids, events, i, fate, meanwhile);
        others' := PublishAndMark(events[i], fate(i), others', meanwhile, 2 * i);
        i := i + 1;
      }
      FinishEnds(start, steps, State(conn.db, producer.log, others'), worker, answer.ids, events, fate);
      return false, others';
    }
  }
}
