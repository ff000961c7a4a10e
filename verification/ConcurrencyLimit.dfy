/** When the number of busy workers stays within `concurrentWorkersLimit`, exactly: the early reset of
    the request slot, and a second queue, both let more tasks wait for new workers than there is room. */
module ConcurrencyLimit {
  import opened Options
  import opened WorkerPool
  import opened PoolInvariants
  import opened PoolFrames
  import opened TaskRequests
  import opened RunnerSystem
  import opened RunnerInvariants
  import opened RunnerTheorems

  predicate StaysWithin(cfg: Settings) {
    cfg.cfg.limit <= 1 || (cfg.cfg.limit == 2 && cfg.threshold <= 0.0)
  }

  lemma WithinLimit(cfg: Settings, es: seq<Event>)
    requires StaysWithin(cfg)
    ensures |Run(cfg, es).pool.busy| <= cfg.cfg.limit
  {
    hide Run, Tally;
    RunOk(cfg, es);
  }

  /** With a limit of two and a low priority queue, one task too many is the worst that can happen. */
  lemma OneOver(cfg: Settings, es: seq<Event>)
    requires cfg.cfg.limit <= 2
    ensures |Run(cfg, es).pool.busy| <= cfg.cfg.limit + 1
  {
    hide Run, Tally;
    RunOk(cfg, es);
  }

  // ----- runs that go over the limit

  /** A task nothing stops: it is not cacheable, so no app is charged with it. */
  const PLAIN := Task(0, "app", false)

  /** The chains of `line` each await a worker of their own that is still booting. */
  ghost predicate Lined(s: State, line: seq<nat>) {
    && (forall i | 0 <= i < |line| ::
          && line[i] < |s.chains| && s.chains[line[i]].Awaiting?
          && s.chains[line[i]].task == PLAIN && s.chains[line[i]].w in s.pool.booting)
    && (forall i, j | 0 <= i < j < |line| ::
          line[i] != line[j] && s.chains[line[i]].w != s.chains[line[j]].w)
  }

  /** No worker is at hand and no app has a counter. */
  ghost predicate Calm(p: Pool) {
    p.idle == [] && p.cached == [] && forall a :: Some(a) !in p.appsLoad
  }

  lemma ArriveWaits(cfg: Settings, s: State, c: nat, line: seq<nat>)
    requires PoolOk(s.pool) && Calm(s.pool) && Lined(s, line) && IsGetting(s, c)
    ensures var s' := Step(cfg, s, TaskArrives(c, PLAIN, false));
      && Calm(s'.pool) && Lined(s', line + [c]) && s'.pool.busy == s.pool.busy && s'.stopped == s.stopped
      && s'.chains[c].early == (Available(cfg.cfg, s.pool) > 2) && s'.chains[c].q == s.chains[c].q
      && s'.slots == (if Available(cfg.cfg, s.pool) > 2 then s.slots - {s.chains[c].q} else s.slots)
      && |s'.chains| == |s.chains| && forall d: nat | d < |s.chains| && d != c :: s'.chains[d] == s.chains[d]
  {
    hide PoolOk, Lined, Calm, Step;
    ArriveIs(cfg, s, c);
    ForkCalm(s.pool);
    LinedMore(s, Step(cfg, s, TaskArrives(c, PLAIN, false)), c, line);
  }

  /** The task finds no worker, so its chain waits for a new one. */
  lemma ArriveIs(cfg: Settings, s: State, c: nat)
    requires PoolOk(s.pool) && Calm(s.pool) && IsGetting(s, c)
    ensures var s' := Step(cfg, s, TaskArrives(c, PLAIN, false)); var early := Available(cfg.cfg, s.pool) > 2;
      && s'.pool == Fork(s.pool) && s'.stopped == s.stopped
      && s'.chains == s.chains[c := Awaiting(s.chains[c].q, PLAIN, early, s.pool.nextId)]
      && s'.slots == (if early then s.slots - {s.chains[c].q} else s.slots)
  {
    hide PoolOk, OnReady, Fork, Tally;
    assert HandOff(cfg.cfg, s.pool, PLAIN) == None;
    assert MakeRoom(cfg.cfg, s.pool) == s.pool;
    assert !RateLimitReached(cfg.cfg, s.pool, PLAIN.app);
    var early := Available(cfg.cfg, s.pool) > 2;
    var x := Awaiting(s.chains[c].q, PLAIN, early, 0);
    assert s.chains[c := x][c := x.(w := s.pool.nextId)] == s.chains[c := x.(w := s.pool.nextId)];
  }

  lemma ForkCalm(p: Pool)
    requires PoolOk(p) && Calm(p)
    ensures Calm(Fork(p)) && p.nextId !in p.booting && p.nextId in Fork(p).booting && Fork(p).busy == p.busy
    ensures p.booting <= Fork(p).booting
  {
    assert Known(p);
  }

  lemma LinedMore(s: State, s': State, c: nat, line: seq<nat>)
    requires Lined(s, line) && IsGetting(s, c) && c < |s'.chains| && s'.chains[c].Awaiting?
    requires s'.chains == s.chains[c := s'.chains[c]] && s'.chains[c].task == PLAIN
    requires s'.chains[c].w in s'.pool.booting && s'.chains[c].w !in s.pool.booting && s.pool.booting <= s'.pool.booting
    ensures Lined(s', line + [c])
  {
    var longer := line + [c];
    forall i | 0 <= i < |line| ensures longer[i] == line[i] && longer[i] != c {}
  }

  /** Ready starts a chain for the main queue when its slot is free. */
  lemma ReadyAsks(cfg: Settings, s: State, line: seq<nat>)
    requires Inv(cfg, s) && Lined(s, line) && Main !in s.slots && !s.stopped && Available(cfg.cfg, s.pool) > 0
    ensures var s' := Step(cfg, s, Ready);
      && IsGetting(s', |s.chains|) && s'.chains[|s.chains|].q == Main && s'.pool == s.pool && !s'.stopped
      && Lined(s', line) && |s.chains| !in line && s.chains <= s'.chains
  {
    GetterAtHand(cfg, s, Main);
    hide Inv, Tally, LoadBelow;
    var s' := Step(cfg, s, Ready);
    assert s.chains <= s'.chains;
    forall i | 0 <= i < |line| ensures s'.chains[line[i]] == s.chains[line[i]] {}
  }

  /** A run that goes on to ask the main queue and gets a task. */
  function Asked(cfg: Settings, es: seq<Event>): seq<Event> {
    es + [Ready] + [TaskArrives(|Run(cfg, es).chains|, PLAIN, false)]
  }

  /** One more task waits, and one more worker boots. */
  lemma AddWaiting(cfg: Settings, es: seq<Event>, line: seq<nat>)
    requires var s := Run(cfg, es);
      Calm(s.pool) && Lined(s, line) && Main !in s.slots && !s.stopped && Available(cfg.cfg, s.pool) > 0
    ensures var s, s' := Run(cfg, es), Run(cfg, Asked(cfg, es));
      && Calm(s'.pool) && Lined(s', line + [|s.chains|]) && s'.pool.busy == s.pool.busy && !s'.stopped
      && (Available(cfg.cfg, s.pool) > 2 ==> Main !in s'.slots)
  {
    hide Run, Inv, Step, PoolOk, Calm, Lined;
    var s := Run(cfg, es);
    RunOk(cfg, es);
    ReadyAsks(cfg, s, line);
    RunStep(cfg, es, Ready);
    RunOk(cfg, es + [Ready]);
    var s1 := Run(cfg, es + [Ready]);
    InvPool(cfg, s1);
    ArriveWaits(cfg, s1, |s.chains|, line);
    RunStep(cfg, es + [Ready], TaskArrives(|s.chains|, PLAIN, false));
  }

  function AskedTimes(cfg: Settings, es: seq<Event>, n: nat): seq<Event>
    decreases n
  {
    if n == 0 then es else AskedTimes(cfg, Asked(cfg, es), n - 1)
  }

  /** The chains that wait by then. */
  function LineAfter(cfg: Settings, es: seq<Event>, line: seq<nat>, n: nat): (longer: seq<nat>)
    ensures |longer| == |line| + n
    decreases n
  {
    if n == 0 then line else LineAfter(cfg, Asked(cfg, es), line + [|Run(cfg, es).chains|], n - 1)
  }

  lemma {:induction false} AddMany(cfg: Settings, es: seq<Event>, line: seq<nat>, n: nat)
    requires var s := Run(cfg, es);
      Calm(s.pool) && Lined(s, line) && Main !in s.slots && !s.stopped && Available(cfg.cfg, s.pool) > 2
    ensures var s, s' := Run(cfg, es), Run(cfg, AskedTimes(cfg, es, n));
      Lined(s', LineAfter(cfg, es, line, n)) && s'.pool.busy == s.pool.busy
    decreases n
  {
    hide Run, Calm, Lined, Asked;
    if n > 0 {
      AddWaiting(cfg, es, line);
      AddMany(cfg, Asked(cfg, es), line + [|Run(cfg, es).chains|], n - 1);
    }
  }

  // ----- the workers start, one by one

  lemma StartFrees(cfg: Settings, s: State, line: seq<nat>)
    requires Inv(cfg, s) && Lined(s, line) && line != []
    ensures var w := s.chains[line[0]].w; var s1 := Step(cfg, s, WorkerStarted(w));
      && s1 == s.(pool := s1.pool) && w !in s1.pool.booting && s1.pool.idle == [w] + s.pool.idle
      && s1.pool.busy == s.pool.busy && Lined(s1, line[1..])
      && s1.pool.cached == s.pool.cached && s1.pool.appsLoad == s.pool.appsLoad
  {
    hide Lists, Counts, Sorted, OneApp, Channels, Reported, Chained, Relocate;
    var w := s.chains[line[0]].w;
    assert w in s.pool.booting && s.pool.workers[w].place == Nowhere;
    RelocateMoves(cfg.cfg, s.pool, w, Idle);
    var s1 := Step(cfg, s, WorkerStarted(w));
    forall i | 0 <= i < |line[1..]| ensures line[1..][i] == line[i + 1] && s.chains[line[i + 1]].w != w {}
  }

  lemma RetryTakes(cfg: Settings, s: State, c: nat, line: seq<nat>)
    requires Inv(cfg, s) && c < |s.chains| && s.chains[c].Awaiting? && s.chains[c].task == PLAIN
    requires s.chains[c].w !in s.pool.booting && s.pool.idle != [] && Lined(s, line) && c !in line
    ensures var s' := Step(cfg, s, Retry(c));
      && |s'.pool.busy| == |s.pool.busy| + 1 && Lined(s', line) && |s'.chains| == |s.chains|
      && s'.slots == (if s.chains[c].early then s.slots else s.slots - {s.chains[c].q}) && s'.stopped == s.stopped
  {
    hide Inv, PoolOk, HandOff, HandedTo, Known;
    InvPool(cfg, s);
    Pooled(s.pool);
    assert s.pool.idle[|s.pool.idle| - 1] in s.pool.idle;
    PlainIsHanded(cfg.cfg, s.pool);
    var r := HandOff(cfg.cfg, s.pool, PLAIN).value;
    HandOffFrame(cfg.cfg, s.pool, PLAIN);
    assert |r.0.busy| == |s.pool.busy| + 1 by { BusyGrows(cfg.cfg, s.pool, r.0, r.1); }
    SentIs(Ended(s, c, s.chains[c].q, !s.chains[c].early), r.0, r.1);
    var s' := Step(cfg, s, Retry(c));
    forall i | 0 <= i < |line| ensures s'.chains[line[i]] == s.chains[line[i]] { assert line[i] in line; }
  }

  lemma BusyGrows(cfg: Config, p: Pool, p': Pool, w: nat)
    requires HandedTo(cfg, p, p', w, PLAIN)
    ensures |p'.busy| == |p.busy| + 1
  {
  }

  /** Handing over takes the worker idle longest, and boots no fewer workers. */
  lemma PlainIsHanded(cfg: Config, p: Pool)
    requires PoolOk(p) && p.idle != [] && p.idle[|p.idle| - 1] in p.workers
    ensures HandOff(cfg, p, PLAIN).Some? && p.booting <= HandOff(cfg, p, PLAIN).value.0.booting
    ensures var w := p.idle[|p.idle| - 1]; var p', q := HandOff(cfg, p, PLAIN).value.0, Popped(p, w, "app", false);
      && p'.idle == MovedIn(q.idle, w, Idle, Idle, Busy) && p'.cached == q.cached
      && forall a :: Some(a) !in p.appsLoad ==> Some(a) !in p'.appsLoad
  {
    hide PoolOk, FiledBut, Counts, Sorted, OneApp, Relocate;
    var w := p.idle[|p.idle| - 1];
    PopKeeps(p, w, p.workers[w].appId);
    LifeOf(p, w);
    IdleIsNew(p.workers[w]);
    var q := Popped(p, w, "app", false);
    assert q.workers == p.workers[w := p.workers[w].(appId := p.workers[w].appId)];
    hide OnlyMoved, Known;
    AssignedMoves(cfg, p, q, w);
  }

  lemma AssignedMoves(cfg: Config, p: Pool, q: Pool, w: nat)
    requires w in p.workers && Known(q) && q == p.(idle := q.idle) && p.workers[w].place == Idle
    requires p.workers[w].appId == None
    ensures var p' := ProcessTask(cfg, q, w, PLAIN);
      && q.booting <= p'.booting && p'.idle == MovedIn(q.idle, w, Idle, Idle, Busy) && p'.cached == q.cached
      && forall a :: Some(a) !in q.appsLoad ==> Some(a) !in p'.appsLoad
  {
    hide Relocate;
    var q1 := q.(workers := q.workers[w := Assigned(cfg, q.workers[w], PLAIN)]);
    assert Known(q1);
    RelocateMoves(cfg, q1, w, Busy);
  }

  /** A run in which the worker of chain `c` starts and the chain hands its task over. */
  function Begun(cfg: Settings, es: seq<Event>, c: nat): seq<Event> {
    var s := Run(cfg, es);
    if c < |s.chains| && s.chains[c].Awaiting? then es + [WorkerStarted(s.chains[c].w)] + [Retry(c)] else es
  }

  function AllBegun(cfg: Settings, es: seq<Event>, line: seq<nat>): seq<Event>
    decreases |line|
  {
    if line == [] then es else AllBegun(cfg, Begun(cfg, es, line[0]), line[1..])
  }

  lemma {:induction false} StartAll(cfg: Settings, es: seq<Event>, line: seq<nat>)
    requires Lined(Run(cfg, es), line)
    ensures |Run(cfg, AllBegun(cfg, es, line)).pool.busy| == |Run(cfg, es).pool.busy| + |line|
    decreases |line|
  {
    hide Run, Lined, Begun;
    if line != [] {
      StartOne(cfg, es, line);
      StartAll(cfg, Begun(cfg, es, line[0]), line[1..]);
    }
  }

  lemma LinedHead(s: State, line: seq<nat>)
    requires Lined(s, line) && line != []
    ensures line[0] < |s.chains| && s.chains[line[0]].Awaiting? && s.chains[line[0]].task == PLAIN
    ensures line[0] !in line[1..]
  {
  }

  lemma StartOne(cfg: Settings, es: seq<Event>, line: seq<nat>)
    requires Lined(Run(cfg, es), line) && line != []
    ensures line[0] < |Run(cfg, es).chains| && Run(cfg, es).chains[line[0]].Awaiting?
    ensures var s, s' := Run(cfg, es), Run(cfg, Begun(cfg, es, line[0]));
      && Lined(s', line[1..]) && |s'.pool.busy| == |s.pool.busy| + 1
      && (Calm(s.pool) ==> Calm(s'.pool)) && s'.stopped == s.stopped
      && s'.slots == (if s.chains[line[0]].early then s.slots else s.slots - {s.chains[line[0]].q})
  {
    hide Run, Step, Inv, Lined, PoolOk;
    var s := Run(cfg, es);
    RunOk(cfg, es);
    LinedHead(s, line);
    StartFrees(cfg, s, line);
    var w := s.chains[line[0]].w;
    RunStep(cfg, es, WorkerStarted(w));
    var es1 := es + [WorkerStarted(w)];
    RunOk(cfg, es1);
    RetryTakes(cfg, Run(cfg, es1), line[0], line[1..]);
    RunStep(cfg, es1, Retry(line[0]));
    StartOneCalm(cfg, s, Run(cfg, es1), line[0], w);
  }

  lemma StartOneCalm(cfg: Settings, s: State, s1: State, c: nat, w: nat)
    requires Inv(cfg, s1) && c < |s1.chains| && s1.chains[c].Awaiting? && s1.chains[c].task == PLAIN
    requires s1.chains[c].w !in s1.pool.booting && s1.pool.idle == [w] + s.pool.idle
    requires s1.pool.cached == s.pool.cached && s1.pool.appsLoad == s.pool.appsLoad
    ensures Calm(s.pool) ==> Calm(Step(cfg, s1, Retry(c)).pool)
  {
    hide Inv, PoolOk, HandOff;
    if Calm(s.pool) {
      InvPool(cfg, s1);
      Pooled(s1.pool);
      assert s1.pool.idle[0] in s1.pool.idle;
      PlainIsHanded(cfg.cfg, s1.pool);
      var r := HandOff(cfg.cfg, s1.pool, PLAIN).value;
      SentIs(Ended(s1, c, s1.chains[c].q, !s1.chains[c].early), r.0, r.1);
      assert MovedIn([], w, Idle, Idle, Busy) == [];
      assert [w][..0] == [] && [w] + [] == [w];
    }
  }

  // ----- going over

  lemma StartIsCalm(cfg: Settings)
    ensures var s := Run(cfg, []);
      Calm(s.pool) && Lined(s, []) && s.slots == {} && !s.stopped && s.pool.busy == [] && s.chains == []
  {
    var p0 := Pool([], [], [], map[], 0, map[], {}, {}, 0, 0, false);
    KeepMinIdleExtends(cfg.cfg, p0);
    hide KeepMinIdle;
  }

  /** `limit + 1` tasks are asked for before any worker has started, and then all of them start. */
  function EarlyRun(cfg: Settings): seq<Event> {
    var n := cfg.cfg.limit + 1;
    AllBegun(cfg, AskedTimes(cfg, [], n), LineAfter(cfg, [], [], n))
  }

  /** A limit of three or more: the early reset lets `limit + 1` tasks wait at once. */
  lemma OverByEarlyReset(cfg: Settings)
    requires cfg.cfg.limit >= 3
    ensures |Run(cfg, EarlyRun(cfg)).pool.busy| == cfg.cfg.limit + 1
  {
    hide Run, Lined, Calm;
    StartIsCalm(cfg);
    var n := cfg.cfg.limit + 1;
    AddMany(cfg, [], [], n);
    StartAll(cfg, AskedTimes(cfg, [], n), LineAfter(cfg, [], [], n));
  }

  const BOTH_ASK: seq<Event> := [] + [Ready] + [TaskArrives(0, PLAIN, false)] + [TaskArrives(1, PLAIN, false)]

  /** Both queues ask while nothing is busy, and the main one again when its task has been handed over. */
  function TwoQueuesRun(cfg: Settings): seq<Event> {
    var one := Begun(cfg, BOTH_ASK, 0);
    AllBegun(cfg, Asked(cfg, one), [1] + [|Run(cfg, one).chains|])
  }

  lemma BothAsk(cfg: Settings)
    requires cfg.cfg.limit == 2 && cfg.threshold > 0.0
    ensures var s := Run(cfg, BOTH_ASK);
      && Calm(s.pool) && !s.stopped && s.pool.busy == []
      && |s.chains| == 2 && s.chains[0].Awaiting? && s.chains[0].q == Main && !s.chains[0].early
      && Lined(s, [0, 1])
  {
    hide Run, PoolOk, Inv;
    StartIsCalm(cfg);
    var s0 := Run(cfg, []);
    RunStep(cfg, [], Ready);
    var s1 := Run(cfg, [] + [Ready]);
    assert s1 == OnReady(cfg, s0);
    RunOk(cfg, []);
    RunOk(cfg, [] + [Ready]);
    AsksTwice(cfg, s0);
    InvPool(cfg, s1);
    hide OnReady, Step;
    ArriveWaits(cfg, s1, 0, []);
    RunStep(cfg, [] + [Ready], TaskArrives(0, PLAIN, false));
    var es2 := [] + [Ready] + [TaskArrives(0, PLAIN, false)];
    RunOk(cfg, es2);
    var s2 := Run(cfg, es2);
    InvPool(cfg, s2);
    assert [] + [0] == [0];
    ArriveWaits(cfg, s2, 1, [0]);
    RunStep(cfg, es2, TaskArrives(1, PLAIN, false));
    assert [0] + [1] == [0, 1];
    LinedHead(Run(cfg, BOTH_ASK), [0, 1]);
  }

  lemma AsksTwice(cfg: Settings, s: State)
    requires Inv(cfg, s) && s.slots == {} && !s.stopped && s.pool.busy == [] && s.chains == []
    requires cfg.cfg.limit == 2 && cfg.threshold > 0.0
    ensures var s' := OnReady(cfg, s);
      && s'.pool == s.pool && !s'.stopped && |s'.chains| == 2
      && s'.chains[0].Getting? && s'.chains[0].q == Main && s'.chains[1].Getting? && s'.chains[1].q == LowPriority
  {
    assert |s.getters| == 2 by { hide PoolOk; }
    hide Inv, Tally;
    assert |s.pool.busy| as real / cfg.cfg.limit as real == 0.0;
  }

  lemma OverByTwoQueues(cfg: Settings)
    requires cfg.cfg.limit == 2 && cfg.threshold > 0.0
    ensures |Run(cfg, TwoQueuesRun(cfg)).pool.busy| == 3
  {
    hide Run, Calm, Asked, Begun, AllBegun;
    BothAsk(cfg);
    StartOne(cfg, BOTH_ASK, [0, 1]);
    var one := Begun(cfg, BOTH_ASK, 0);
    assert [0, 1][1..] == [1];
    AddWaiting(cfg, one, [1]);
    StartAll(cfg, Asked(cfg, one), [1] + [|Run(cfg, one).chains|]);
  }

  /** No run takes more workers than the limit exactly when the limit is one, or two with only the main
      queue in use. */
  lemma WithinLimitExactly(cfg: Settings)
    ensures StaysWithin(cfg) <==> forall es :: |Run(cfg, es).pool.busy| <= cfg.cfg.limit
  {
    hide Run, EarlyRun, TwoQueuesRun;
    if StaysWithin(cfg) {
      forall es ensures |Run(cfg, es).pool.busy| <= cfg.cfg.limit { WithinLimit(cfg, es); }
    } else if cfg.cfg.limit >= 3 {
      OverByEarlyReset(cfg);
    } else {
      OverByTwoQueues(cfg);
    }
  }
}
