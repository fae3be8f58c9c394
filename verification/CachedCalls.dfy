/** The calls of the cached repository, step by step, among the steps of others: if what happens in the pauses
    of a call is a run of the protocol of Staleness, so is the whole call. What holds of every interleaving
    there thus holds of these calls, however they overlap. */
module CachedCalls {
  import opened Domain
  import opened Database
  import opened Listing
  import opened RedisKeys
  import opened RedisCache
  import opened CachedRepository
  import opened Staleness
  import opened Steps
  import Postgres = PostgresRepository

  function Entries(store: map<string, Kept>): Store {
    map k | k in store :: store[k].entry
  }

  function ShotOf(s: State): Shot
    requires s.history != []
  {
    Shot(Current(s), Entries(s.store), s.now)
  }

  function Mine(p: nat): Label -> bool {
    (l: Label) => (l.Miss? || l.ReadTable? || l.Fill? || l.GiveUp?) && l.p == p
  }

  /** The steps of reader `p` in a run. */
  function Own(ls: seq<Label>, p: nat): seq<Label> {
    Chosen(ls, Mine(p))
  }

  /** `ls` leads from `s` to `t`. */
  ghost predicate Leads(s: State, ls: seq<Label>, t: State, b: Bounds) {
    Staleness.IsRun(s, ls, b) && After(s, ls, b) == t
  }

  lemma {:induction false} LeadsJoin(s: State, a: seq<Label>, t: State, c: seq<Label>, u: State, b: Bounds)
    requires Leads(s, a, t, b) && Leads(t, c, u, b)
    ensures Leads(s, a + c, u, b)
    decreases |c|
  {
    if c == [] {
      assert a + c == a;
    } else {
      var init := c[..|c| - 1];
      LeadsJoin(s, a, t, init, After(t, init, b), b);
      assert (a + c)[..|a + c| - 1] == a + init;
    }
  }

  lemma LeadsStep(s: State, a: seq<Label>, t: State, l: Label, b: Bounds)
    requires Leads(s, a, t, b) && Enabled(t, l, b)
    ensures Leads(s, a + [l], Step(t, l, b), b)
  {
    RunAppend(s, a, l, b);
  }

  /** In pause `k` others bring the stores from `s` to `t`, and reader `p` takes no step. */
  ghost predicate Pause(s: State, t: State, b: Bounds, p: nat, meanwhile: Meanwhile, k: nat) {
    && s.history != [] && t.history != []
    && ShotOf(t) == meanwhile(k, ShotOf(s))
    && exists ls :: Leads(s, ls, t, b) && Own(ls, p) == []
  }

  lemma {:induction false} OthersLeaveReader(s: State, ls: seq<Label>, b: Bounds, p: nat)
    requires Staleness.IsRun(s, ls, b) && Own(ls, p) == []
    ensures p in After(s, ls, b).readers <==> p in s.readers
    ensures p in s.readers ==> After(s, ls, b).readers[p] == s.readers[p]
  {
    if ls != [] {
      OthersLeaveReader(s, ls[..|ls| - 1], b, p);
    }
  }

  lemma StepKeepsTable(s: State, l: Label, b: Bounds)
    requires Enabled(s, l, b) && s.history != [] && TableOk(Current(s))
    ensures Step(s, l, b).history != [] && TableOk(Current(Step(s, l, b)))
  {
    hide TableOk, Execute;
    if l.Commit? {
      ExecuteKeepsTable(Current(s), l.op);
    }
  }

  lemma {:induction false} RunKeepsTable(s: State, ls: seq<Label>, b: Bounds)
    requires Staleness.IsRun(s, ls, b) && s.history != [] && TableOk(Current(s))
    ensures After(s, ls, b).history != [] && TableOk(Current(After(s, ls, b)))
  {
    hide TableOk, Step, Enabled;
    if ls != [] {
      RunKeepsTable(s, ls[..|ls| - 1], b);
      StepKeepsTable(After(s, ls[..|ls| - 1], b), ls[|ls| - 1], b);
    }
  }

  /** What a pause does to a run that stands at `s`: it goes on, reader `p` waits. */
  lemma PauseLeads(start: State, a: seq<Label>, s: State, t: State, b: Bounds, p: nat, meanwhile: Meanwhile, k: nat)
    returns (ls: seq<Label>)
    requires Leads(start, a, s, b) && Pause(s, t, b, p, meanwhile, k)
    ensures Leads(start, ls, t, b) && Own(ls, p) == Own(a, p)
    ensures p in t.readers <==> p in s.readers
    ensures p in s.readers ==> t.readers[p] == s.readers[p]
    ensures TableOk(Current(s)) ==> TableOk(Current(t))
  {
    var c :| Leads(s, c, t, b) && Own(c, p) == [];
    LeadsJoin(start, a, s, c, t, b);
    ChosenJoin(a, c, Mine(p));
    OthersLeaveReader(s, c, b, p);
    if TableOk(Current(s)) {
      RunKeepsTable(s, c, b);
    }
    ls := a + c;
  }

  lemma StepLeads(start: State, a: seq<Label>, s: State, l: Label, b: Bounds, p: nat) returns (ls: seq<Label>)
    requires Leads(start, a, s, b) && Enabled(s, l, b)
    ensures Leads(start, ls, Step(s, l, b), b)
    ensures Own(ls, p) == Own(a, p) + (if Mine(p)(l) then [l] else [])
  {
    LeadsStep(start, a, s, l, b);
    ls := a + [l];
    assert ls[..|a|] == a;
  }

  lemma EntriesAfterFill(store: map<string, Kept>, key: string, k: Kept)
    ensures Entries(store[key := k]) == Entries(store)[key := k.entry]
  {
  }

  // ---------- reads ----------

  /** The states a missing read passes through: `t0` after the first pause, `t1` after the second. */
  ghost predicate Passes(s: State, read: Read, p: nat, b: Bounds, meanwhile: Meanwhile, t0: State, t1: State) {
    && s.history != [] && p !in s.readers
    && (Enabled(s, Miss(p, read), b) ==> Pause(Step(s, Miss(p, read), b), t0, b, p, meanwhile, 0))
    && (Enabled(t0, ReadTable(p), b) ==> Pause(Step(t0, ReadTable(p), b), t1, b, p, meanwhile, 1))
  }

  /** A read that misses and whose query fails: the reader gives up. */
  lemma MissAndFail(s: State, read: Read, p: nat, b: Bounds, meanwhile: Meanwhile, t0: State, t1: State)
    returns (ls: seq<Label>, end: State)
    requires Passes(s, read, p, b, meanwhile, t0, t1) && Served(s, read).None?
    ensures Leads(s, ls, end, b) && end.history != [] && p !in end.readers
    ensures Own(ls, p) == [Miss(p, read), GiveUp(p)] && ShotOf(end) == meanwhile(0, ShotOf(s))
  {
    ls := StepLeads(s, [], s, Miss(p, read), b, p);
    ls := PauseLeads(s, ls, Step(s, Miss(p, read), b), t0, b, p, meanwhile, 0);
    end := Step(t0, GiveUp(p), b);
    ls := StepLeads(s, ls, t0, GiveUp(p), b, p);
  }

  /** The way of a missing read up to its answer. */
  lemma MissAndRead(s: State, read: Read, p: nat, b: Bounds, meanwhile: Meanwhile, t0: State, t1: State)
    returns (ls: seq<Label>)
    requires Passes(s, read, p, b, meanwhile, t0, t1) && Served(s, read).None?
    ensures t0.history != [] && ShotOf(t0) == meanwhile(0, ShotOf(s))
    ensures Enabled(t0, ReadTable(p), b) && t0.readers[p].read == read
    ensures Leads(s, ls, Step(t0, ReadTable(p), b), b) && Own(ls, p) == [Miss(p, read), ReadTable(p)]
    ensures TableOk(Current(s)) ==> TableOk(Current(t0))
  {
    var s1 := Step(s, Miss(p, read), b);
    ls := StepLeads(s, [], s, Miss(p, read), b, p);
    ls := PauseLeads(s, ls, s1, t0, b, p, meanwhile, 0);
    assert ShotOf(s1) == ShotOf(s);
    ls := StepLeads(s, ls, t0, ReadTable(p), b, p);
  }

  /** And from there to the fill. */
  lemma ReadAndFill(s: State, a: seq<Label>, read: Read, fate: Fate, p: nat, b: Bounds, meanwhile: Meanwhile, t0: State, t1: State)
    returns (ls: seq<Label>, end: State)
    requires t0.history != [] && Enabled(t0, ReadTable(p), b) && t0.readers[p].read == read
    requires read.Answer(Current(t0)).Some?
    requires Leads(s, a, Step(t0, ReadTable(p), b), b) && Own(a, p) == [Miss(p, read), ReadTable(p)]
    requires Pause(Step(t0, ReadTable(p), b), t1, b, p, meanwhile, 1)
    ensures Leads(s, ls, end, b) && end.history != [] && p !in end.readers
    ensures Own(ls, p) == [Miss(p, read), ReadTable(p), Fill(p, fate)]
    ensures var met := meanwhile(1, ShotOf(t0));
            ShotOf(end) == if fate.Lost? then met else
              met.(store := met.store[read.Key() := Entry(read.Answer(Current(t0)).value, met.now + b.ttl)])
  {
    var s2 := Step(t0, ReadTable(p), b);
    AnswerRead(t0, p, b);
    hide Step, Enabled, Leads, Read.Answer, Read.Key, Current;
    ls := PauseLeads(s, a, s2, t1, b, p, meanwhile, 1);
    FillShot(t1, p, fate, b);
    end := Step(t1, Fill(p, fate), b);
    ls := StepLeads(s, ls, t1, Fill(p, fate), b, p);
  }

  lemma AnswerRead(s: State, p: nat, b: Bounds)
    requires Enabled(s, ReadTable(p), b) && s.readers[p].read.Answer(Current(s)).Some?
    ensures var s' := Step(s, ReadTable(p), b);
            && s'.history == s.history && ShotOf(s') == ShotOf(s)
            && p in s'.readers && s'.readers[p].Fetched? && s'.readers[p].read == s.readers[p].read
            && s'.readers[p].document == s.readers[p].read.Answer(Current(s)).value
  {
  }

  lemma FillShot(s: State, p: nat, fate: Fate, b: Bounds)
    requires s.history != [] && p in s.readers && s.readers[p].Fetched?
    ensures Enabled(s, Fill(p, fate), b)
    ensures var s', r := Step(s, Fill(p, fate), b), s.readers[p];
            && s'.history == s.history && p !in s'.readers
            && ShotOf(s') == if fate.Lost? then ShotOf(s) else
                 ShotOf(s).(store := ShotOf(s).store[r.read.Key() := Entry(r.document, s.now + b.ttl)])
  {
    var r := s.readers[p];
    EntriesAfterFill(s.store, r.read.Key(), Kept(Entry(r.document, s.now + b.ttl), r.origin));
  }

  /** The run takes reader `p` through the steps of one read and leaves `after`. */
  ghost predicate ReadRun(s: State, ls: seq<Label>, end: State, b: Bounds, p: nat, read: Read, fate: Fate, after: Shot) {
    && Leads(s, ls, end, b)
    && end.history != [] && ShotOf(end) == after && p !in end.readers
    && (Own(ls, p) <= [Miss(p, read), ReadTable(p), Fill(p, fate)] || Own(ls, p) == [Miss(p, read), GiveUp(p)])
  }

  /** The stores after a fill. */
  function Filled(s: Shot, key: string, d: Document, ttl: nat, fate: Fate): Shot {
    if fate.Lost? then s else s.(store := s.store[key := Entry(d, s.now + ttl)])
  }

  /** A read that misses, gets its answer and fills. */
  lemma MissReadAndFill(s: State, read: Read, fate: Fate, p: nat, b: Bounds, meanwhile: Meanwhile, t0: State, t1: State)
    returns (ls: seq<Label>, end: State)
    requires Passes(s, read, p, b, meanwhile, t0, t1) && Served(s, read).None?
    requires read.Answer(meanwhile(0, ShotOf(s)).products).Some?
    ensures var at := meanwhile(0, ShotOf(s));
            ReadRun(s, ls, end, b, p, read, fate, Filled(meanwhile(1, at), read.Key(), read.Answer(at.products).value, b.ttl, fate))
  {
    hide Read.Answer, Read.Key, Leads, Pause, Step, Own, Served, Enabled, Entries;
    ls := MissAndRead(s, read, p, b, meanwhile, t0, t1);
    assert Current(t0) == meanwhile(0, ShotOf(s)).products;
    hide Passes, ShotOf, Current;
    ls, end := ReadAndFill(s, ls, read, fate, p, b, meanwhile, t0, t1);
  }

  lemma ServedIsCached(s: State, read: Read)
    requires s.history != []
    ensures Served(s, read) == Cached(ShotOf(s), read.Key())
  {
  }

  lemma TableAtRead(s: State, read: Read, p: nat, b: Bounds, meanwhile: Meanwhile, t0: State, t1: State)
    requires Passes(s, read, p, b, meanwhile, t0, t1) && Served(s, read).None? && TableOk(Current(s))
    ensures TableOk(meanwhile(0, ShotOf(s)).products)
  {
    var ls := MissAndRead(s, read, p, b, meanwhile, t0, t1);
  }

  /** A read call of the repository, whatever others do in its pauses, is a run of the protocol in which its own
      steps are miss, read and fill, as far as it gets. */
  lemma GetIsRun(s: State, s': Shot, id: string, w: ReadWeather, r: Result<Product>, p: nat, b: Bounds,
                 meanwhile: Meanwhile, t0: State, t1: State) returns (ls: seq<Label>, end: State)
    requires Passes(s, OneProduct(id), p, b, meanwhile, t0, t1) && TableOk(Current(s))
    requires GetMoves(meanwhile, ShotOf(s), s', b.ttl, id, w, r)
    ensures ReadRun(s, ls, end, b, p, OneProduct(id), w.fill, s')
  {
    var read := OneProduct(id);
    ServedIsCached(s, read);
    if w.getFails || Served(s, read).Some? {
      ls, end := [], s;
    } else if w.dbFails {
      ls, end := MissAndFail(s, read, p, b, meanwhile, t0, t1);
    } else if read.Answer(meanwhile(0, ShotOf(s)).products).None? {
      ls := MissAndRead(s, read, p, b, meanwhile, t0, t1);
      end := Step(t0, ReadTable(p), b);
    } else {
      TableAtRead(s, read, p, b, meanwhile, t0, t1);
      hide ReadRun;
      ls, end := MissReadAndFill(s, read, w.fill, p, b, meanwhile, t0, t1);
    }
  }

  lemma ListIsRun(s: State, s': Shot, limit: nat, offset: nat, w: PageWeather, r: Result<seq<Product>>, p: nat, b: Bounds,
                  meanwhile: Meanwhile, t0: State, t1: State) returns (ls: seq<Label>, end: State)
    requires Passes(s, OnePage(limit, offset), p, b, meanwhile, t0, t1)
    requires ListMoves(meanwhile, ShotOf(s), s', b.ttl, limit, offset, w, r)
    ensures ReadRun(s, ls, end, b, p, OnePage(limit, offset), w.fill, s')
  {
    var read := OnePage(limit, offset);
    ServedIsCached(s, read);
    if w.getFails || Served(s, read).Some? {
      ls, end := [], s;
    } else if !w.reading.Complete(|Page(meanwhile(0, ShotOf(s)).products, limit, offset)|) {
      ls, end := MissAndFail(s, read, p, b, meanwhile, t0, t1);
    } else {
      hide ReadRun;
      ls, end := MissReadAndFill(s, read, w.fill, p, b, meanwhile, t0, t1);
    }
  }

  /** What a read call answers from any reachable state, cached or not, is the row as a committed version had it:
      either less than ttl + delay ago, or in the very table the call's own query met. */
  lemma ReplyIsRecent(base: Table, ls: seq<Label>, b: Bounds, s': Shot, id: string, w: ReadWeather, r: Result<Product>,
                      meanwhile: Meanwhile)
    requires Staleness.IsRun(Init(base), ls, b) && After(Init(base), ls, b).history != []
    requires GetMoves(meanwhile, ShotOf(After(Init(base), ls, b)), s', b.ttl, id, w, r) && r.Ok?
    ensures var s := After(Init(base), ls, b);
            || (exists v: nat, t: nat ::
                  && WasCurrent(s.history, v, t)
                  && t <= s.now < t + b.ttl + b.delay
                  && id in s.history[v].table && r.value == s.history[v].table[id])
            || (id in meanwhile(0, ShotOf(s)).products && r.value == meanwhile(0, ShotOf(s)).products[id])
  {
    var s := After(Init(base), ls, b);
    ServedIsCached(s, OneProduct(id));
    if Served(s, OneProduct(id)).Some? {
      StalenessIsBounded(base, ls, b, OneProduct(id));
      var v: nat, t: nat :| WasCurrent(s.history, v, t) && t <= s.now < t + b.ttl + b.delay
                            && OneProduct(id).Answer(s.history[v].table) == Served(s, OneProduct(id));
    }
  }

  /** The same for a page. */
  lemma PageReplyIsRecent(base: Table, ls: seq<Label>, b: Bounds, s': Shot, limit: nat, offset: nat, w: PageWeather,
                          r: Result<seq<Product>>, meanwhile: Meanwhile)
    requires Staleness.IsRun(Init(base), ls, b) && After(Init(base), ls, b).history != []
    requires ListMoves(meanwhile, ShotOf(After(Init(base), ls, b)), s', b.ttl, limit, offset, w, r) && r.Ok?
    ensures var s := After(Init(base), ls, b);
            || (exists v: nat, t: nat ::
                  && WasCurrent(s.history, v, t)
                  && t <= s.now < t + b.ttl + b.delay
                  && r.value == Page(s.history[v].table, limit, offset))
            || r.value == Page(meanwhile(0, ShotOf(s)).products, limit, offset)
  {
    var s, read := After(Init(base), ls, b), OnePage(limit, offset);
    ServedIsCached(s, read);
    if Served(s, read).Some? {
      StalenessIsBounded(base, ls, b, read);
      var v: nat, t: nat :| WasCurrent(s.history, v, t) && t <= s.now < t + b.ttl + b.delay
                            && read.Answer(s.history[v].table) == Served(s, read);
    }
  }

  // ---------- writes ----------

  function Keys(keys: seq<string>): set<string> {
    set k | k in keys
  }

  /** A deletion that takes effect only if `done`. */
  function Deleted(s: State, keys: seq<string>, done: bool, b: Bounds): State {
    if done then Step(s, Remove(Keys(keys)), b) else s
  }

  lemma DeletedShot(s: State, keys: seq<string>, done: bool, b: Bounds)
    requires s.history != []
    ensures Deleted(s, keys, done, b).history != []
    ensures ShotOf(Deleted(s, keys, done, b)) ==
            if done then ShotOf(s).(store := Without(ShotOf(s).store, keys)) else ShotOf(s)
  {
  }

  lemma DeletionLeads(start: State, a: seq<Label>, s: State, keys: seq<string>, done: bool, b: Bounds) returns (ls: seq<Label>)
    requires Leads(start, a, s, b)
    ensures Leads(start, ls, Deleted(s, keys, done, b), b)
  {
    ls := a;
    if done {
      LeadsStep(start, a, s, Remove(Keys(keys)), b);
      ls := a + [Remove(Keys(keys))];
    }
  }

  /** Where the call stands after its own deletion, given the state that deletion met. */
  function AfterProduct(s: State, met: State, op: Op, inv: Invalidation, b: Bounds): State {
    if Target(op).None? then s else Deleted(met, [ProductKey(Target(op).value)], !inv.delete.Lost?, b)
  }

  /** The states an invalidation passes through: ts[0] is what the product's deletion meets, the next ones what
      each SCAN and the DEL meet. */
  ghost predicate PassesInvalidation(s: State, op: Op, inv: Invalidation, b: Bounds, p: nat, meanwhile: Meanwhile, ts: seq<State>) {
    && s.history != []
    && |ts| == |inv.replies| + 2
    && (Target(op).Some? ==> Pause(s, ts[0], b, p, meanwhile, 0))
    && Pause(AfterProduct(s, ts[0], op, inv, b), ts[1], b, p, meanwhile, 1)
    && forall i | 1 <= i <= |inv.replies| :: Pause(ts[i], ts[i + 1], b, p, meanwhile, i + 1)
  }

  lemma WorldAt(meanwhile: Meanwhile, s: Shot, k: nat, n: nat, i: nat)
    requires i < n
    ensures Worlds(meanwhile, s, k, n)[i] == meanwhile(k + i, if i == 0 then s else Worlds(meanwhile, s, k, n)[i - 1])
    decreases n
  {
    if i > 0 {
      WorldAt(meanwhile, meanwhile(k, s), k + 1, n - 1, i - 1);
    }
  }

  /** The i-th call of the scan meets the i-th world. */
  lemma {:induction false} ScanLeads(start: State, a: seq<Label>, d: State, inv: Invalidation, b: Bounds, p: nat,
                                     meanwhile: Meanwhile, ts: seq<State>, i: nat) returns (ls: seq<Label>)
    requires |ts| == |inv.replies| + 2 && i <= |inv.replies|
    requires Leads(start, a, d, b) && Pause(d, ts[1], b, p, meanwhile, 1)
    requires forall j | 1 <= j <= |inv.replies| :: Pause(ts[j], ts[j + 1], b, p, meanwhile, j + 1)
    ensures Leads(start, ls, ts[i + 1], b)
    ensures ts[i + 1].history != [] && ShotOf(ts[i + 1]) == Worlds(meanwhile, ShotOf(d), 1, |inv.replies| + 1)[i]
  {
    WorldAt(meanwhile, ShotOf(d), 1, |inv.replies| + 1, i);
    if i == 0 {
      ls := PauseLeads(start, a, d, ts[1], b, p, meanwhile, 1);
    } else {
      ls := ScanLeads(start, a, d, inv, b, p, meanwhile, ts, i - 1);
      ls := PauseLeads(start, ls, ts[i], ts[i + 1], b, p, meanwhile, i + 1);
    }
  }

  /** The removal of the pages, from where the call stands after its own deletion. */
  lemma ListsAreRun(start: State, a: seq<Label>, d: State, inv: Invalidation, b: Bounds, p: nat, meanwhile: Meanwhile,
                    ts: seq<State>) returns (ls: seq<Label>, end: State)
    requires d.history != [] && inv.Terminates() && |ts| == |inv.replies| + 2
    requires Leads(start, a, d, b) && Pause(d, ts[1], b, p, meanwhile, 1)
    requires forall j | 1 <= j <= |inv.replies| :: Pause(ts[j], ts[j + 1], b, p, meanwhile, j + 1)
    ensures Leads(start, ls, end, b) && end.history != []
    ensures ShotOf(end) == ListsRemoved(Worlds(meanwhile, ShotOf(d), 1, |inv.replies| + 1), inv)
  {
    hide Leads, Pause, Step, ShotOf, Worlds, Collected;
    var n := LastCall(inv.replies);
    var keys := if inv.replies[n].ScanFails? then [] else Collected(inv.replies[..n + 1]);
    if keys == [] {
      ls := ScanLeads(start, a, d, inv, b, p, meanwhile, ts, n);
      end := ts[n + 1];
    } else {
      ls := ScanLeads(start, a, d, inv, b, p, meanwhile, ts, n + 1);
      DeletedShot(ts[n + 2], keys, !inv.deleteList.Lost?, b);
      ls := DeletionLeads(start, ls, ts[n + 2], keys, !inv.deleteList.Lost?, b);
      end := Deleted(ts[n + 2], keys, !inv.deleteList.Lost?, b);
      hide Deleted, Without;
    }
  }

  lemma InvalidationIsRun(start: State, a: seq<Label>, s: State, op: Op, inv: Invalidation, b: Bounds, p: nat,
                          meanwhile: Meanwhile, ts: seq<State>) returns (ls: seq<Label>, end: State)
    requires inv.Terminates() && Leads(start, a, s, b) && PassesInvalidation(s, op, inv, b, p, meanwhile, ts)
    ensures Leads(start, ls, end, b) && end.history != []
    ensures ShotOf(end) == Invalidated(meanwhile, ShotOf(s), op, inv)
  {
    ProductRemovedShot(s, op, inv, b, p, meanwhile, ts);
    hide Leads, Pause, Step, ShotOf, ListsRemoved, Worlds;
    ls := a;
    if Target(op).Some? {
      ls := PauseLeads(start, ls, s, ts[0], b, p, meanwhile, 0);
      ls := DeletionLeads(start, ls, ts[0], [ProductKey(Target(op).value)], !inv.delete.Lost?, b);
    }
    ls, end := ListsAreRun(start, ls, AfterProduct(s, ts[0], op, inv, b), inv, b, p, meanwhile, ts);
  }

  lemma ProductRemovedShot(s: State, op: Op, inv: Invalidation, b: Bounds, p: nat, meanwhile: Meanwhile, ts: seq<State>)
    requires PassesInvalidation(s, op, inv, b, p, meanwhile, ts)
    ensures var d := AfterProduct(s, ts[0], op, inv, b);
            d.history != [] && ShotOf(d) == ProductRemoved(meanwhile, ShotOf(s), op, inv)
  {
    if Target(op).Some? {
      DeletedShot(ts[0], [ProductKey(Target(op).value)], !inv.delete.Lost?, b);
    }
  }

  /** A write call, whatever others do in its pauses, is a run too: at most one commit, and after it, among the
      steps of others, at most the two deletions. */
  lemma WriteIsRun(s: State, s': Shot, op: Op, tx: Postgres.TxWeather, inv: Invalidation, r: Result<Product>, p: nat,
                   b: Bounds, meanwhile: Meanwhile, ts: seq<State>) returns (ls: seq<Label>, end: State)
    requires s.history != [] && inv.Terminates()
    requires WriteMoves(meanwhile, ShotOf(s), s', op, tx, inv, r)
    requires r.Ok? && Enabled(s, Commit(op), b) ==> PassesInvalidation(Step(s, Commit(op), b), op, inv, b, p, meanwhile, ts)
    ensures Leads(s, ls, end, b) && end.history != [] && ShotOf(end) == s'
  {
    ls, end := [], s;
    if r.Ok? || s'.products != Current(s) {
      LeadsStep(s, [], s, Commit(op), b);
      ls, end := [] + [Commit(op)], Step(s, Commit(op), b);
      if r.Ok? {
        ls, end := InvalidationIsRun(s, ls, end, op, inv, b, p, meanwhile, ts);
      }
    }
  }
}
