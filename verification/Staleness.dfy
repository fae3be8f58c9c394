/** Readers and writers of the cached repository at the same time.

    A reader that misses asks the database and fills the cache in two separate steps, so a writer may
    commit and invalidate in between and the fill then brings the old value back. Deletions of writers,
    complete or partial, and evictions are all `Remove`; an invalidation that fails is one that never comes.
    The one assumption is a bound on how long a reader may take from its database read to its fill. */
module Staleness {
  import opened Domain
  import opened Database
  import opened Listing
  import opened RedisKeys
  import opened RedisCache

  datatype Read = OneProduct(id: string) | OnePage(limit: nat, offset: nat) {
    function Key(): string {
      match this
      case OneProduct(id) => ProductKey(id)
      case OnePage(limit, offset) => ListKey(limit, offset)
    }

    /** What the database answers when it holds the given table; None is "not found". */
    function Answer(t: Table): Option<Document> {
      match this
      case OneProduct(id) => if id in t then Some(ProductDocument(t[id])) else None
      case OnePage(limit, offset) => Some(PageDocument(Page(t, limit, offset)))
    }
  }

  /** A committed table and the moment of its commit. */
  datatype Version = Version(table: Table, since: nat)

  /** A reader that missed, and then one that has its answer and is about to fill the cache. */
  datatype Reader =
    | Missed(read: Read)
    | Fetched(read: Read, origin: Origin, document: Document)

  /** When a document was read and from which version. This and `history` are bookkeeping of the proof:
      no step depends on them, but for the last version, which is the table. */
  datatype Origin = Origin(version: nat, readAt: nat)

  datatype Kept = Kept(entry: Entry, origin: Origin)

  datatype State = State(history: seq<Version>, now: nat, store: map<string, Kept>, readers: map<nat, Reader>)

  datatype Bounds = Bounds(ttl: nat, delay: nat)

  datatype Label =
    | Tick
    | Commit(op: Op)
    | Miss(p: nat, read: Read)
    | ReadTable(p: nat)
    | Fill(p: nat, fate: Fate)
    | GiveUp(p: nat)
    | Remove(keys: set<string>)

  function Init(base: Table): State {
    State([Version(base, 0)], 0, map[], map[])
  }

  function Current(s: State): Table
    requires s.history != []
  {
    s.history[|s.history| - 1].table
  }

  /** What the cache answers now. */
  function Served(s: State, read: Read): Option<Document> {
    var key := read.Key();
    if key in s.store && s.now < s.store[key].entry.expiresAt then Some(s.store[key].entry.document) else None
  }

  predicate Enabled(s: State, l: Label, b: Bounds) {
    match l
    case Tick => forall p | p in s.readers && s.readers[p].Fetched? :: s.now < s.readers[p].origin.readAt + b.delay
    case Commit(op) => s.history != [] && Execute(Current(s), op).Ok?
    case Miss(p, read) => p !in s.readers && Served(s, read).None?
    case ReadTable(p) => s.history != [] && p in s.readers && s.readers[p].Missed?
    case Fill(p, _) => p in s.readers && s.readers[p].Fetched?
    case GiveUp(p) => p in s.readers
    case Remove(_) => true
  }

  function Step(s: State, l: Label, b: Bounds): State
    requires Enabled(s, l, b)
  {
    match l
    case Tick => s.(now := s.now + 1)
    case Commit(op) =>
      var p := Execute(Current(s), op).value;
      s.(history := s.history + [Version(Current(s)[p.id := p], s.now)])
    case Miss(p, read) => s.(readers := s.readers[p := Missed(read)])
    case ReadTable(p) =>
      var read := s.readers[p].read;
      var answer := read.Answer(Current(s));
      s.(readers := if answer.None? then s.readers - {p} else
           s.readers[p := Fetched(read, Origin(|s.history| - 1, s.now), answer.value)])
    case Fill(p, fate) =>
      var r := s.readers[p];
      s.(store := if fate.Lost? then s.store else
           s.store[r.read.Key() := Kept(Entry(r.document, s.now + b.ttl), r.origin)],
         readers := s.readers - {p})
    case GiveUp(p) => s.(readers := s.readers - {p})
    case Remove(keys) => s.(store := s.store - keys)
  }

  ghost predicate IsRun(s: State, ls: seq<Label>, b: Bounds)
    decreases |ls|, 0
  {
    ls == [] || (IsRun(s, ls[..|ls| - 1], b) && Enabled(After(s, ls[..|ls| - 1], b), ls[|ls| - 1], b))
  }

  ghost function After(s: State, ls: seq<Label>, b: Bounds): State
    requires IsRun(s, ls, b)
    decreases |ls|, 1
  {
    if ls == [] then s else Step(After(s, ls[..|ls| - 1], b), ls[|ls| - 1], b)
  }

  /** Version `v` was the table at instant `t`. At the instant of a commit both tables were. */
  ghost predicate WasCurrent(history: seq<Version>, v: nat, t: nat) {
    && v < |history|
    && history[v].since <= t
    && (v + 1 < |history| ==> t <= history[v + 1].since)
  }

  /** The document is what the database said to `read` at the instant and from the version given. */
  ghost predicate Genuine(s: State, read: Read, o: Origin, d: Document) {
    && o.readAt <= s.now
    && WasCurrent(s.history, o.version, o.readAt)
    && read.Answer(s.history[o.version].table) == Some(d)
  }

  ghost predicate Traced(s: State, b: Bounds) {
    && s.history != []
    && s.history[|s.history| - 1].since <= s.now
    && (forall p | p in s.readers && s.readers[p].Fetched? ::
          && Genuine(s, s.readers[p].read, s.readers[p].origin, s.readers[p].document)
          && s.now <= s.readers[p].origin.readAt + b.delay)
    && (forall read: Read | read.Key() in s.store ::
          var k := s.store[read.Key()];
          Genuine(s, read, k.origin, k.entry.document) && k.entry.expiresAt <= k.origin.readAt + b.delay + b.ttl)
  }

  lemma KeysDiffer(r: Read, q: Read)
    requires r.Key() == q.Key()
    ensures r == q
  {
    match (r, q)
    case (OneProduct(a), OneProduct(b)) => ProductKeysDiffer(a, b);
    case (OnePage(a, b), OnePage(c, d)) => ListKeysDiffer(a, b, c, d);
    case (OneProduct(a), OnePage(c, d)) => FamiliesApart(a, c, d);
    case (OnePage(a, b), OneProduct(c)) => FamiliesApart(c, a, b);
  }

  /** Time and new commits do not take away what was true of a past instant. */
  lemma GenuineLasts(s: State, s': State, read: Read, o: Origin, d: Document)
    requires Genuine(s, read, o, d) && s.now <= s'.now
    requires s'.history == s.history ||
             (|s'.history| == |s.history| + 1 && s'.history[..|s.history|] == s.history && s'.history[|s.history|].since == s.now)
    ensures Genuine(s', read, o, d)
  {
    assert s'.history[o.version] == s'.history[..|s.history|][o.version];
    if o.version + 1 < |s.history| {
      assert s'.history[o.version + 1] == s'.history[..|s.history|][o.version + 1];
    }
  }

  lemma FillStaysTraced(s: State, p: nat, fate: Fate, b: Bounds)
    requires Traced(s, b) && Enabled(s, Fill(p, fate), b)
    ensures Traced(Step(s, Fill(p, fate), b), b)
  {
    var s' := Step(s, Fill(p, fate), b);
    forall read: Read | read.Key() in s'.store
      ensures var k := s'.store[read.Key()];
              Genuine(s', read, k.origin, k.entry.document) && k.entry.expiresAt <= k.origin.readAt + b.delay + b.ttl
    {
      if read.Key() == s.readers[p].read.Key() {
        KeysDiffer(read, s.readers[p].read);
      }
    }
  }

  lemma StepStaysTraced(s: State, l: Label, b: Bounds)
    requires Traced(s, b) && Enabled(s, l, b)
    ensures Traced(Step(s, l, b), b)
  {
    var s' := Step(s, l, b);
    if l.Fill? {
      FillStaysTraced(s, l.p, l.fate, b);
    } else {
      forall read: Read, o, d | Genuine(s, read, o, d)
        ensures Genuine(s', read, o, d)
      {
        GenuineLasts(s, s', read, o, d);
      }
    }
  }

  lemma {:induction false} RunStaysTraced(base: Table, ls: seq<Label>, b: Bounds)
    requires IsRun(Init(base), ls, b)
    ensures Traced(After(Init(base), ls, b), b)
  {
    if ls != [] {
      RunStaysTraced(base, ls[..|ls| - 1], b);
      StepStaysTraced(After(Init(base), ls[..|ls| - 1], b), ls[|ls| - 1], b);
    }
  }

  /** Bounded staleness: under every interleaving, whatever the cache serves is what some committed version
      holds that was the table at an instant less than ttl + delay ago. */
  lemma StalenessIsBounded(base: Table, ls: seq<Label>, b: Bounds, read: Read)
    requires IsRun(Init(base), ls, b)
    ensures var s := After(Init(base), ls, b);
            Served(s, read).Some? ==>
              exists v: nat, t: nat ::
                && WasCurrent(s.history, v, t)
                && t <= s.now < t + b.ttl + b.delay
                && read.Answer(s.history[v].table) == Served(s, read)
  {
    RunStaysTraced(base, ls, b);
    var s := After(Init(base), ls, b);
    if Served(s, read).Some? {
      var o := s.store[read.Key()].origin;
      assert WasCurrent(s.history, o.version, o.readAt);
    }
  }

  lemma RunAppend(s: State, ls: seq<Label>, l: Label, b: Bounds)
    requires IsRun(s, ls, b) && Enabled(After(s, ls, b), l, b)
    ensures IsRun(s, ls + [l], b) && After(s, ls + [l], b) == Step(After(s, ls, b), l, b)
  {
    assert (ls + [l])[..|ls|] == ls;
  }

  lemma {:induction false} WaitRuns(s: State, ls: seq<Label>, n: nat, b: Bounds) returns (ls': seq<Label>)
    requires IsRun(s, ls, b)
    requires forall p | p in After(s, ls, b).readers && After(s, ls, b).readers[p].Fetched? ::
               After(s, ls, b).now + n <= After(s, ls, b).readers[p].origin.readAt + b.delay
    ensures IsRun(s, ls', b) && After(s, ls', b) == After(s, ls, b).(now := After(s, ls, b).now + n)
    decreases n
  {
    ls' := ls;
    if n > 0 {
      RunAppend(s, ls, Tick, b);
      ls' := WaitRuns(s, ls + [Tick], n - 1, b);
    }
  }

  /** A reader holds the row of `id` while a change to it commits and invalidates. */
  lemma Race(base: Table, id: string, op: Op, b: Bounds) returns (ls: seq<Label>)
    requires id in base && Execute(base, op).Ok?
    ensures IsRun(Init(base), ls, b)
    ensures var p := Execute(base, op).value;
            After(Init(base), ls, b) ==
            State([Version(base, 0), Version(base[p.id := p], 0)], 0, map[],
                  map[0 := Fetched(OneProduct(id), Origin(0, 0), ProductDocument(base[id]))])
  {
    var s, read := Init(base), OneProduct(id);
    ls := [];
    RunAppend(s, ls, Miss(0, read), b);
    ls := ls + [Miss(0, read)];
    RunAppend(s, ls, ReadTable(0), b);
    ls := ls + [ReadTable(0)];
    RunAppend(s, ls, Commit(op), b);
    ls := ls + [Commit(op)];
    RunAppend(s, ls, Remove({read.Key()}), b);
    ls := ls + [Remove({read.Key()})];
  }

  /** The bound is exact, even though the deletion succeeds: the reader of the race fills at the last moment,
      and ttl + delay - 1 instants after the change the old row is still served. */
  lemma TheBoundIsReached(base: Table, id: string, delta: Int32, b: Bounds) returns (ls: seq<Label>)
    requires b.ttl > 0 && TableOk(base) && id in base && delta != 0 && Execute(base, AddStock(id, delta)).Ok?
    ensures IsRun(Init(base), ls, b)
    ensures var s := After(Init(base), ls, b);
            && s.now == b.ttl + b.delay - 1
            && Served(s, OneProduct(id)) == Some(ProductDocument(base[id]))
            && (forall v: nat, t: nat | WasCurrent(s.history, v, t) && t > 0 ::
                  OneProduct(id).Answer(s.history[v].table) != Served(s, OneProduct(id)))
  {
    var s := Init(base);
    ls := Race(base, id, AddStock(id, delta), b);
    ls := WaitRuns(s, ls, b.delay, b);
    RunAppend(s, ls, Fill(0, Done), b);
    ls := ls + [Fill(0, Done)];
    ls := WaitRuns(s, ls, b.ttl - 1, b);
  }

  /** Nothing the cache holds or is about to be given for `read` differs from what the table says. */
  ghost predicate Settled(s: State, read: Read) {
    && s.history != []
    && (read.Key() in s.store ==> Some(s.store[read.Key()].entry.document) == read.Answer(Current(s)))
    && !RacingFill(s, read)
  }

  /** Some reader is about to fill the cache with a document the table no longer gives. */
  ghost predicate RacingFill(s: State, read: Read)
    requires s.history != []
  {
    exists p :: p in s.readers && s.readers[p].Fetched? && s.readers[p].read == read
                && Some(s.readers[p].document) != read.Answer(Current(s))
  }

  lemma StepStaysSettled(s: State, l: Label, b: Bounds, read: Read)
    requires Settled(s, read) && Enabled(s, l, b)
    requires read.Answer(Current(Step(s, l, b))) == read.Answer(Current(s))
    ensures Settled(Step(s, l, b), read)
  {
    if l.Fill? && s.readers[l.p].read.Key() == read.Key() {
      KeysDiffer(s.readers[l.p].read, read);
    }
  }

  /** Nothing that commits along the run changes the answer to `read`. */
  ghost predicate Unchanged(s: State, ls: seq<Label>, b: Bounds, read: Read)
    requires s.history != [] && IsRun(s, ls, b)
  {
    ls == [] ||
    var before, l := After(s, ls[..|ls| - 1], b), ls[|ls| - 1];
    && Unchanged(s, ls[..|ls| - 1], b, read)
    && (l.Commit? ==> before.history != [] && read.Answer(Current(Step(before, l, b))) == read.Answer(Current(before)))
  }

  lemma {:induction false} RunStaysSettled(s: State, ls: seq<Label>, b: Bounds, read: Read)
    requires Settled(s, read) && IsRun(s, ls, b) && Unchanged(s, ls, b, read)
    ensures Settled(After(s, ls, b), read)
  {
    if ls != [] {
      RunStaysSettled(s, ls[..|ls| - 1], b, read);
      StepStaysSettled(After(s, ls[..|ls| - 1], b), ls[|ls| - 1], b, read);
    }
  }

  ghost predicate Fresh(s: State, read: Read) {
    s.history != [] && (Served(s, read).Some? ==> Served(s, read) == read.Answer(Current(s)))
  }

  lemma RacingFillLands(s: State, b: Bounds, read: Read)
    requires b.ttl > 0 && s.history != [] && RacingFill(s, read)
    ensures exists ls :: IsRun(s, ls, b) && Unchanged(s, ls, b, read) && !Fresh(After(s, ls, b), read)
  {
    var p :| p in s.readers && s.readers[p].Fetched? && s.readers[p].read == read
             && Some(s.readers[p].document) != read.Answer(Current(s));
    var ls := [Fill(p, Done)];
    assert ls[..0] == [];
    assert IsRun(s, ls[..0], b) && After(s, ls[..0], b) == s;
    assert After(s, ls, b) == Step(s, Fill(p, Done), b);
    assert !Fresh(After(s, ls, b), read);
    assert Unchanged(s, ls, b, read);
  }

  /** When a deletion is enough: once it has taken effect, every later hit up to the next change is fresh if
      and only if no reader was holding an old document at that moment. */
  lemma DeletionSufficesUnlessRaced(s: State, keys: set<string>, b: Bounds, read: Read)
    requires b.ttl > 0 && s.history != [] && read.Key() in keys
    ensures var s' := Step(s, Remove(keys), b);
            (forall ls | IsRun(s', ls, b) && Unchanged(s', ls, b, read) :: Fresh(After(s', ls, b), read))
            <==> !RacingFill(s, read)
  {
    var s' := Step(s, Remove(keys), b);
    if RacingFill(s, read) {
      RacingFillLands(s', b, read);
    } else {
      assert Settled(s', read);
      forall ls | IsRun(s', ls, b) && Unchanged(s', ls, b, read)
        ensures Fresh(After(s', ls, b), read)
      {
        RunStaysSettled(s', ls, b, read);
      }
    }
  }
}
