/** Starting and stopping the service: the main goroutine, the two servers and the outbox publisher, with
    the buffered error channel and the wait group between them. Every interleaving is a run.

    The servers are black boxes that may return at any time, with or without an error; the calls that stop
    them always come back. */
module Lifecycle {
  import opened Domain
  import opened Steps

  const ERROR_CAPACITY: nat := 3

  // What the main goroutine does next, in order: New is over, Run is the first four, Shutdown all from STOP_GRPC.
  const SPAWN_GRPC: nat := 0
  const SPAWN_HTTP: nat := 1
  const ADD_TO_GROUP: nat := 2
  const SPAWN_OUTBOX: nat := 3
  const AWAIT: nat := 4
  const STOP_GRPC: nat := 5
  const STOP_HTTP: nat := 6
  const CANCEL_OUTBOX: nat := 7
  const WAIT_FOR_OUTBOX: nat := 8
  const CLOSE_PRODUCER: nat := 9
  const CLOSE_REDIS: nat := 10
  const CLOSE_DB: nat := 11
  const STOPPED: nat := 12

  datatype Server = Unborn | Serving | Sending | Gone

  /** The goroutine of the publisher: its select, the calls of one batch with the events still to do, and
      the way out, where an error of Run would be sent before the wait group is told. */
  datatype Outbox =
    | Absent
    | Selecting
    | Fetching
    | Publishing(left: nat)
    | Marking(left: nat)
    | Returned(failed: bool)
    | Left

  /** What goroutines see of each other: who has been told to stop, and what is still open. */
  datatype Shared = Shared(
    grpcStopped: bool,
    httpStopped: bool,
    cancelled: bool,
    producerOpen: bool,
    redisOpen: bool,
    dbOpen: bool)

  datatype State = State(
    main: nat,
    grpc: Server,
    http: Server,
    outbox: Outbox,
    errors: nat, // in the channel
    group: int, // the wait group's counter
    shared: Shared)

  datatype Which = Grpc | Http

  datatype Label =
    | MainStep
    | MainReceives // an error arrives while main awaits
    | Returns(server: Which, failed: bool)
    | Sends(server: Which)
    | Ticks
    | SeesCancel
    | Fetches(rows: Option<nat>) // None: the query failed
    | Publishes
    | Marks
    | OutboxSends
    | OutboxLeaves

  const INIT := State(SPAWN_GRPC, Unborn, Unborn, Absent, 0, 0, Shared(false, false, false, true, true, true))

  function Of(s: State, w: Which): Server {
    if w.Grpc? then s.grpc else s.http
  }

  function With(s: State, w: Which, server: Server): State {
    if w.Grpc? then s.(grpc := server) else s.(http := server)
  }

  predicate Enabled(s: State, l: Label) {
    match l
    case MainStep => s.main < STOPPED && (s.main == WAIT_FOR_OUTBOX ==> s.group == 0)
    case MainReceives => s.main == AWAIT && s.errors > 0
    case Returns(w, _) => Of(s, w).Serving?
    case Sends(w) => Of(s, w).Sending? && s.errors < ERROR_CAPACITY
    case Ticks => s.outbox.Selecting?
    case SeesCancel => s.outbox.Selecting? && s.shared.cancelled
    case Fetches(_) => s.outbox.Fetching?
    case Publishes => s.outbox.Publishing?
    case Marks => s.outbox.Marking?
    case OutboxSends => s.outbox == Returned(true) && s.errors < ERROR_CAPACITY
    case OutboxLeaves => s.outbox == Returned(false)
  }

  function AfterMain(s: State): State {
    var s' := s.(main := s.main + 1);
    if s.main == SPAWN_GRPC then s'.(grpc := Serving)
    else if s.main == SPAWN_HTTP then s'.(http := Serving)
    else if s.main == ADD_TO_GROUP then s'.(group := s.group + 1)
    else if s.main == SPAWN_OUTBOX then s'.(outbox := Selecting)
    else if s.main == STOP_GRPC then s'.(shared := s.shared.(grpcStopped := true))
    else if s.main == STOP_HTTP then s'.(shared := s.shared.(httpStopped := true))
    else if s.main == CANCEL_OUTBOX then s'.(shared := s.shared.(cancelled := true))
    else if s.main == CLOSE_PRODUCER then s'.(shared := s.shared.(producerOpen := false))
    else if s.main == CLOSE_REDIS then s'.(shared := s.shared.(redisOpen := false))
    else if s.main == CLOSE_DB then s'.(shared := s.shared.(dbOpen := false))
    else s'
  }

  function Step(s: State, l: Label): State
    requires Enabled(s, l)
  {
    match l
    case MainStep => AfterMain(s)
    case MainReceives => s.(main := STOP_GRPC, errors := s.errors - 1)
    case Returns(w, failed) => With(s, w, if failed then Sending else Gone)
    case Sends(w) => With(s.(errors := s.errors + 1), w, Gone)
    case Ticks => s.(outbox := Fetching)
    case SeesCancel => s.(outbox := Returned(false))
    case Fetches(rows) => s.(outbox := if rows.None? || rows.value == 0 then Selecting else Publishing(rows.value))
    case Publishes => s.(outbox := Marking(s.outbox.left))
    case Marks => s.(outbox := if s.outbox.left <= 1 then Selecting else Publishing(s.outbox.left - 1))
    case OutboxSends => s.(errors := s.errors + 1, outbox := Returned(false))
    case OutboxLeaves => s.(outbox := Left, group := s.group - 1)
  }

  ghost predicate IsRun(s: State, ls: seq<Label>)
    decreases |ls|, 0
  {
    ls == [] || (IsRun(s, ls[..|ls| - 1]) && Enabled(After(s, ls[..|ls| - 1]), ls[|ls| - 1]))
  }

  ghost function After(s: State, ls: seq<Label>): State
    requires IsRun(s, ls)
    decreases |ls|, 1
  {
    if ls == [] then s else Step(After(s, ls[..|ls| - 1]), ls[|ls| - 1])
  }

  function Ended(server: Server): nat {
    if server.Gone? then 1 else 0
  }

  ghost predicate Orderly(s: State) {
    var rank := s.main;
    && rank <= STOPPED
    && (s.outbox.Absent? <==> rank <= SPAWN_OUTBOX)
    && s.group == (if rank > ADD_TO_GROUP && !s.outbox.Left? then 1 else 0)
    && (rank > WAIT_FOR_OUTBOX ==> s.outbox.Left?)
    && (s.shared.grpcStopped <==> rank > STOP_GRPC)
    && (s.shared.httpStopped <==> rank > STOP_HTTP)
    && (s.shared.cancelled <==> rank > CANCEL_OUTBOX)
    && (s.shared.producerOpen <==> rank <= CLOSE_PRODUCER)
    && (s.shared.redisOpen <==> rank <= CLOSE_REDIS)
    && (s.shared.dbOpen <==> rank <= CLOSE_DB)
    && s.outbox != Returned(true)
    && (s.outbox.Returned? || s.outbox.Left? ==> s.shared.cancelled)
    && s.errors <= Ended(s.grpc) + Ended(s.http)
    && (rank <= SPAWN_GRPC <==> s.grpc.Unborn?)
    && (rank <= SPAWN_HTTP <==> s.http.Unborn?)
  }

  lemma MainStaysOrderly(s: State)
    requires Orderly(s) && Enabled(s, MainStep)
    ensures Orderly(AfterMain(s))
  {
  }

  predicate ServerLabel(l: Label) {
    l.Returns? || l.Sends?
  }

  lemma ServerSteps(s: State, l: Label)
    requires Enabled(s, l) && ServerLabel(l) && s.errors <= Ended(s.grpc) + Ended(s.http)
    ensures var s' := Step(s, l);
            && s' == s.(grpc := s'.grpc, http := s'.http, errors := s'.errors)
            && (s'.grpc.Unborn? <==> s.grpc.Unborn?) && (s'.http.Unborn? <==> s.http.Unborn?)
            && s'.errors <= Ended(s'.grpc) + Ended(s'.http)
  {
    hide AfterMain;
  }

  lemma ServerStaysOrderly(s: State, l: Label)
    requires Orderly(s) && Enabled(s, l) && ServerLabel(l)
    ensures Orderly(Step(s, l))
  {
    hide Step, Enabled;
    ServerSteps(s, l);
  }

  lemma OutboxStaysOrderly(s: State, l: Label)
    requires Orderly(s) && Enabled(s, l) && PublisherLabel(l)
    ensures Orderly(Step(s, l))
  {
    hide AfterMain, With;
  }

  lemma StepStaysOrderly(s: State, l: Label)
    requires Orderly(s) && Enabled(s, l)
    ensures Orderly(Step(s, l))
  {
    if l.MainStep? {
      MainStaysOrderly(s);
    } else if ServerLabel(l) {
      ServerStaysOrderly(s, l);
    } else if PublisherLabel(l) {
      OutboxStaysOrderly(s, l);
    } else {
      ReceivingStaysOrderly(s);
    }
  }

  lemma ReceivingStaysOrderly(s: State)
    requires Orderly(s) && Enabled(s, MainReceives)
    ensures Orderly(Step(s, MainReceives))
  {
  }

  lemma {:induction false} RunIsOrderly(ls: seq<Label>)
    requires IsRun(INIT, ls)
    ensures Orderly(After(INIT, ls))
  {
    if ls != [] {
      RunIsOrderly(ls[..|ls| - 1]);
      StepStaysOrderly(After(INIT, ls[..|ls| - 1]), ls[|ls| - 1]);
      hide Orderly, Step;
    }
  }

  /** The publisher is inside a call on the database or on the producer. */
  predicate UsesDb(s: State) {
    s.outbox.Fetching? || s.outbox.Marking?
  }

  predicate UsesProducer(s: State) {
    s.outbox.Publishing?
  }

  /** What is over before what: the servers are told to stop before the publisher is cancelled, the publisher is
      gone before its producer closes, then Redis, then the database. */
  ghost predicate ClosedInOrder(s: State) {
    && (s.shared.httpStopped ==> s.shared.grpcStopped)
    && (s.shared.cancelled ==> s.shared.httpStopped)
    && (!s.shared.redisOpen ==> !s.shared.producerOpen)
    && (s.main == STOPPED ==> !s.shared.dbOpen)
    && (UsesDb(s) || UsesProducer(s) ==> s.shared.dbOpen && s.shared.producerOpen)
    && (!s.shared.producerOpen || !s.shared.redisOpen || !s.shared.dbOpen ==> s.outbox.Left? && s.shared.cancelled && s.group == 0)
    && (!s.shared.dbOpen ==> !s.shared.redisOpen && !s.shared.producerOpen)
  }

  lemma OrderlyCloses(s: State)
    requires Orderly(s)
    ensures ClosedInOrder(s)
  {
  }

  /** No call of the publisher meets a closed database or a closed producer, and the goroutine is gone before
      the first of them closes. */
  lemma PublisherNeverMeetsAClosedResource(ls: seq<Label>)
    requires IsRun(INIT, ls)
    ensures ClosedInOrder(After(INIT, ls))
  {
    RunIsOrderly(ls);
    OrderlyCloses(After(INIT, ls));
  }

  predicate PublisherLabel(l: Label) {
    l.Ticks? || l.SeesCancel? || l.Fetches? || l.Publishes? || l.Marks? || l.OutboxSends? || l.OutboxLeaves?
  }

  lemma {:induction false} PrefixRuns(ls: seq<Label>, n: nat)
    requires IsRun(INIT, ls) && n <= |ls|
    ensures IsRun(INIT, ls[..n])
  {
    if n == |ls| {
      assert ls[..n] == ls;
    } else {
      PrefixRuns(ls[..|ls| - 1], n);
      assert ls[..|ls| - 1][..n] == ls[..n];
    }
  }

  lemma MainGoesOn(s: State, l: Label)
    requires Enabled(s, l)
    ensures Step(s, l).main >= s.main
  {
  }

  lemma {:induction false} MainNeverGoesBack(ls: seq<Label>, n: nat)
    requires IsRun(INIT, ls) && n <= |ls|
    ensures IsRun(INIT, ls[..n]) && After(INIT, ls).main >= After(INIT, ls[..n]).main
  {
    PrefixRuns(ls, n);
    if n == |ls| {
      assert ls[..n] == ls;
    } else {
      MainNeverGoesBack(ls[..|ls| - 1], n);
      MainGoesOn(After(INIT, ls[..|ls| - 1]), ls[|ls| - 1]);
      hide Step;
      assert ls[..|ls| - 1][..n] == ls[..n];
    }
  }

  lemma StepAt(ls: seq<Label>, n: nat)
    requires IsRun(INIT, ls) && n < |ls|
    ensures IsRun(INIT, ls[..n]) && Enabled(After(INIT, ls[..n]), ls[n])
    ensures IsRun(INIT, ls[..n + 1]) && After(INIT, ls[..n + 1]) == Step(After(INIT, ls[..n]), ls[n])
  {
    PrefixRuns(ls, n + 1);
    assert ls[..n + 1][..n] == ls[..n];
  }

  lemma GoneDoesNothing(s: State, l: Label)
    requires Orderly(s) && Enabled(s, l) && s.main > WAIT_FOR_OUTBOX
    ensures !PublisherLabel(l)
  {
  }

  lemma WaitThenClose(s: State)
    requires Enabled(s, MainStep) && s.main == WAIT_FOR_OUTBOX
    ensures Step(s, MainStep).main > WAIT_FOR_OUTBOX
  {
  }

  /** In the whole run, nothing the publisher does comes after the wait for it is over. */
  lemma NothingAfterTheWait(ls: seq<Label>, i: nat, j: nat)
    requires IsRun(INIT, ls) && i < j < |ls| && IsRun(INIT, ls[..i])
    requires ls[i] == MainStep && After(INIT, ls[..i]).main == WAIT_FOR_OUTBOX
    ensures !PublisherLabel(ls[j])
  {
    StepAt(ls, i);
    StepAt(ls, j);
    WaitThenClose(After(INIT, ls[..i]));
    hide Step, Enabled, Orderly, PublisherLabel;
    MainNeverGoesBack(ls[..j], i + 1);
    assert ls[..j][..i + 1] == ls[..i + 1];
    RunIsOrderly(ls[..j]);
    GoneDoesNothing(After(INIT, ls[..j]), ls[j]);
  }

  /** No goroutine ever waits to send: whoever has an error to report finds room, even if nobody ever
      receives, and the publisher never has one. */
  lemma SendsNeverBlock(ls: seq<Label>)
    requires IsRun(INIT, ls)
    ensures var s := After(INIT, ls);
            && (forall w | Of(s, w).Sending? :: Enabled(s, Sends(w)))
            && s.outbox != Returned(true)
            && (s.outbox.Returned? || s.outbox.Left? ==> s.shared.cancelled)
            && s.errors <= 2 < ERROR_CAPACITY == 3
  {
    RunIsOrderly(ls);
  }

  // ---------- nothing is lost ----------

  function Waiting(server: Server): nat {
    if server.Sending? then 1 else 0
  }

  function Failed(): Label -> bool {
    (l: Label) => l.Returns? && l.failed
  }

  function Received(): Label -> bool {
    (l: Label) => l.MainReceives?
  }

  ghost predicate Spawning(s: State) {
    (s.main == SPAWN_GRPC ==> s.grpc.Unborn?) && (s.main == SPAWN_HTTP ==> s.http.Unborn?)
  }

  lemma MainReports(s: State)
    requires Spawning(s)
    ensures var s' := AfterMain(s);
            s'.errors == s.errors && Waiting(s'.grpc) == Waiting(s.grpc) && Waiting(s'.http) == Waiting(s.http)
  {
  }

  function Unread(s: State): nat {
    s.errors + Waiting(s.grpc) + Waiting(s.http)
  }

  lemma StepReports(s: State, l: Label)
    requires Enabled(s, l) && s.outbox != Returned(true) && Spawning(s)
    ensures Unread(Step(s, l)) + (if Received()(l) then 1 else 0) == Unread(s) + (if Failed()(l) then 1 else 0)
  {
    hide AfterMain;
    if l.MainStep? {
      MainReports(s);
    }
  }

  /** Every failure of a server is reported: it has been received, is in the channel, or is about to be sent. */
  lemma {:induction false} EveryFailureIsReported(ls: seq<Label>)
    requires IsRun(INIT, ls)
    ensures var s := After(INIT, ls);
            |Chosen(ls, Failed())| == |Chosen(ls, Received())| + Unread(s)
  {
    if ls != [] {
      var init := ls[..|ls| - 1];
      EveryFailureIsReported(init);
      RunIsOrderly(init);
      assert Spawning(After(INIT, init));
      StepReports(After(INIT, init), ls[|ls| - 1]);
      hide Orderly, Step, Enabled;
    }
  }

  /** The select has no preference: cancelled or not, the ticker may win, and the way out opens with the cancel. */
  lemma SelectIsFree(s: State)
    requires s.outbox.Selecting?
    ensures Enabled(s, Ticks) && (Enabled(s, SeesCancel) <==> s.shared.cancelled)
  {
  }

  /** Publishing and marking the events of one batch, one after the other. */
  function Turns(n: nat): seq<Label> {
    if n == 0 then [] else [Publishes, Marks] + Turns(n - 1)
  }

  lemma RunsFirst(s: State, l: Label, ls: seq<Label>)
    requires Enabled(s, l) && IsRun(Step(s, l), ls)
    ensures IsRun(s, [l] + ls) && After(s, [l] + ls) == After(Step(s, l), ls)
    decreases |ls|
  {
    hide Step, Enabled;
    if ls == [] {
      assert [l] + ls == [l] && [l][..0] == [];
    } else {
      RunsFirst(s, l, ls[..|ls| - 1]);
      assert ([l] + ls)[..|ls|] == [l] + ls[..|ls| - 1];
    }
  }

  lemma TurnSteps(s: State, n: nat) returns (s1: State, s2: State)
    requires s.outbox == Publishing(n) && n > 0
    ensures Enabled(s, Publishes) && s1 == Step(s, Publishes) && Enabled(s1, Marks) && s2 == Step(s1, Marks)
    ensures s2 == s.(outbox := if n == 1 then Selecting else Publishing(n - 1))
  {
    hide AfterMain;
    s1 := Step(s, Publishes);
    s2 := Step(s1, Marks);
  }

  lemma NoStep(s: State)
    ensures IsRun(s, []) && After(s, []) == s
  {
  }

  /** The publisher takes every row it fetched: with n events to do, it is back in its select after exactly n
      publish calls and n marks, and not before. */
  lemma {:induction false} BatchTakesEveryRow(s: State, n: nat, k: nat)
    requires s.outbox == Publishing(n) && n > 0 && k <= n
    ensures IsRun(s, Turns(k))
    ensures After(s, Turns(k)) == s.(outbox := if k == n then Selecting else Publishing(n - k))
    decreases k
  {
    hide Step, Enabled, IsRun, After;
    if k == 0 {
      NoStep(s);
    } else {
      var s1, s2 := TurnSteps(s, n);
      if n == 1 {
        NoStep(s2);
        assert Turns(k - 1) == [];
      } else {
        BatchTakesEveryRow(s2, n - 1, k - 1);
      }
      RunsFirst(s1, Marks, Turns(k - 1));
      RunsFirst(s, Publishes, [Marks] + Turns(k - 1));
      assert [Publishes] + ([Marks] + Turns(k - 1)) == Turns(k);
    }
  }

  lemma FetchedBatch(s: State, n: nat)
    requires s.outbox.Fetching? && n > 0
    ensures IsRun(s, [Fetches(Some(n))] + Turns(n))
    ensures After(s, [Fetches(Some(n))] + Turns(n)) == s.(outbox := Selecting)
  {
    BatchTakesEveryRow(Step(s, Fetches(Some(n))), n, n);
    hide IsRun, After;
    RunsFirst(s, Fetches(Some(n)), Turns(n));
  }

  lemma RunAppend(ls: seq<Label>, l: Label)
    requires IsRun(INIT, ls) && Enabled(After(INIT, ls), l)
    ensures IsRun(INIT, ls + [l]) && After(INIT, ls + [l]) == Step(After(INIT, ls), l)
  {
    assert (ls + [l])[..|ls|] == ls;
  }

  /** Steps the publisher's goroutine needs to be gone, once cancelled, if its select takes the first chance. */
  function ToGo(o: Outbox): nat {
    match o
    case Absent => 0
    case Selecting => 2
    case Fetching => 3
    case Publishing(left) => 2 * left + 4
    case Marking(left) => 2 * left + 3
    case Returned(_) => 1
    case Left => 0
  }

  function NextOfPublisher(o: Outbox): Label {
    match o
    case Absent => OutboxLeaves
    case Selecting => SeesCancel
    case Fetching => Fetches(None)
    case Publishing(_) => Publishes
    case Marking(_) => Marks
    case Returned(failed) => if failed then OutboxSends else OutboxLeaves
    case Left => OutboxLeaves
  }

  /** Some step is always open that brings the stop nearer. */
  function Onward(s: State): Label {
    if Enabled(s, MainStep) then MainStep else NextOfPublisher(s.outbox)
  }

  lemma OnwardIsProgress(s: State)
    requires Orderly(s) && s.main != STOPPED
    ensures Enabled(s, Onward(s))
    ensures var s' := Step(s, Onward(s));
            s.main < s'.main <= STOPPED || (s'.main == s.main && ToGo(s'.outbox) < ToGo(s.outbox))
  {
  }

  /** Shutdown is never stuck: from every state a run can reach, the service can come to a full stop, whatever
      batch the publisher is in and whether or not anyone reads the error channel. */
  lemma {:induction false} ShutdownCanFinish(ls: seq<Label>) returns (more: seq<Label>)
    requires IsRun(INIT, ls)
    ensures IsRun(INIT, ls + more) && After(INIT, ls + more).main == STOPPED
    decreases STOPPED - After(INIT, ls).main, ToGo(After(INIT, ls).outbox)
  {
    hide Orderly, Step, Enabled, Onward;
    RunIsOrderly(ls);
    var s := After(INIT, ls);
    if s.main == STOPPED {
      more := [];
      assert ls + more == ls;
    } else {
      OnwardIsProgress(s);
      RunAppend(ls, Onward(s));
      var rest := ShutdownCanFinish(ls + [Onward(s)]);
      more := [Onward(s)] + rest;
      assert ls + more == ls + [Onward(s)] + rest;
    }
  }
}
