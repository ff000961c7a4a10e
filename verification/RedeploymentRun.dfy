/** A run after which a redeployment has left a cached worker of the app alive: two tasks served at the
    same time leave two workers of the app next to each other in the cache. */
module RedeploymentRun {
  import opened Options
  import opened WorkerPool
  import opened PoolInvariants
  import opened PoolFrames
  import opened CloudWorkerProcess
  import opened TaskRequests
  import opened RunnerSystem
  import opened RunnerInvariants
  import opened RunnerTheorems

  const TWO_WORKERS := Settings(Config(2, 2, 2, false, 0, map[]), 0.0)
  const FIRST := Task(0, "app", true)
  const SECOND := Task(1, "app", true)

  const BOTH_STARTED: seq<Event> := [] + [WorkerStarted(0)] + [WorkerStarted(1)]
  const ONE_BUSY: seq<Event> := BOTH_STARTED + [Ready] + [TaskArrives(0, FIRST, false)]
  const BOTH_BUSY: seq<Event> := ONE_BUSY + [Ready] + [TaskArrives(1, SECOND, false)]

  /** The worker's process does its task, and the broker hears of it. */
  function Served(es: seq<Event>, w: nat): seq<Event> {
    es + [ProcessMoves(w, Take)] + [ProcessMoves(w, Executed(false))] + [ProcessMoves(w, Sent)]
    + [ProcessMoves(w, Told)] + [ProcessMoves(w, Finished)] + [Delivered(w)] + [Delivered(w)] + [Delivered(w)]
  }

  /** Everything of a state that decides what follows. */
  ghost predicate At(
    s: State, pool: Pool, procs: map<nat, Process>, chains: seq<Chain>, slots: set<Queue>, getters: seq<nat>)
  {
    && s.pool == pool && s.procs == procs && s.chains == chains && s.slots == slots && s.getters == getters
    && !s.stopped
  }

  function OfApp(place: Place, task: Option<Task>, ran: seq<Task>, waitsSince: nat, reports: nat): Worker {
    Worker(Some("app"), place, task, false, false, false, ran, waitsSince, 0, reports)
  }

  function Waiting(since: nat): Worker {
    NewWorker.(place := Idle, waitsSince := since)
  }

  function Given(t: Task): Process {
    NewProcess.(inbox := [t])
  }

  const DONE := Process([], Resting, false, [], true)

  lemma Starts()
    ensures At(Run(TWO_WORKERS, []),
      Pool([], [], [], map[], 2, map[0 := NewWorker, 1 := NewWorker], {0, 1}, {0, 1}, 2, 0, false),
      map[], [], {}, [0])
  {
    var p0 := Pool([], [], [], map[], 0, map[], {}, {}, 0, 0, false);
    var p1 := p0.(starting := 1, workers := map[0 := NewWorker], cluster := {0}, booting := {0}, nextId := 1);
    assert Fork(p0) == p1;
    assert Fork(p1).workers == map[0 := NewWorker, 1 := NewWorker];
    assert ForkMany(p1, 1) == Fork(p1) by { assert ForkMany(Fork(p1), 0) == Fork(p1); }
    assert ForkMany(p0, 2) == Fork(p1);
    assert Clients(1) == [0];
  }

  lemma StartedIs(s: State, w: nat, pool: Pool, pool': Pool)
    requires At(s, pool, map[], [], {}, [0]) && w in pool.booting && w in pool.workers
    requires pool.workers[w] == NewWorker && !pool.stopping
    requires pool' == pool.(idle := [w] + pool.idle, starting := pool.starting - 1, booting := pool.booting - {w},
      workers := pool.workers[w := Waiting(pool.clock)], clock := pool.clock + 1)
    ensures At(Step(TWO_WORKERS, s, WorkerStarted(w)), pool', map[], [], {}, [0])
  {
  }

  lemma BothStart()
    ensures At(Run(TWO_WORKERS, BOTH_STARTED),
      Pool([1, 0], [], [], map[], 0, map[0 := Waiting(0), 1 := Waiting(1)], {0, 1}, {}, 2, 2, false),
      map[], [], {}, [0])
  {
    hide Run, Step;
    Starts();
    RunStep(TWO_WORKERS, [], WorkerStarted(0));
    RunStep(TWO_WORKERS, [] + [WorkerStarted(0)], WorkerStarted(1));
    var p0 := Pool([], [], [], map[], 2, map[0 := NewWorker, 1 := NewWorker], {0, 1}, {0, 1}, 2, 0, false);
    var p1 := p0.(idle := [0], starting := 1, workers := map[0 := Waiting(0), 1 := NewWorker],
      booting := {1}, clock := 1);
    var p2 := Pool([1, 0], [], [], map[], 0, map[0 := Waiting(0), 1 := Waiting(1)], {0, 1}, {}, 2, 2, false);
    assert [0] + [] == [0] && p0.workers[0 := Waiting(0)] == p1.workers && p0.booting - {0} == p1.booting;
    assert [1] + [0] == [1, 0] && p1.workers[1 := Waiting(1)] == p2.workers && p1.booting - {1} == p2.booting;
    StartedIs(Run(TWO_WORKERS, []), 0, p0, p1);
    StartedIs(Run(TWO_WORKERS, [] + [WorkerStarted(0)]), 1, p1, p2);
  }

  lemma AsksMain(s: State, pool: Pool, procs: map<nat, Process>, chains: seq<Chain>)
    requires At(s, pool, procs, chains, {}, [0]) && Available(TWO_WORKERS.cfg, pool) > 0
    ensures At(Step(TWO_WORKERS, s, Ready), pool, procs, chains + [Getting(Main, 0)], {Main}, [])
  {
    hide Tally;
  }

  lemma TakesTask(s: State, pool: Pool, procs: map<nat, Process>, chains: seq<Chain>, t: Task)
    requires At(s, pool, procs, chains + [Getting(Main, 0)], {Main}, [])
    requires HandOff(TWO_WORKERS.cfg, pool, t).Some? && Available(TWO_WORKERS.cfg, pool) <= 2
    ensures var (p, w) := HandOff(TWO_WORKERS.cfg, pool, t).value;
      var s' := Step(TWO_WORKERS, s, TaskArrives(|chains|, t, false));
      w in p.workers && p.workers[w].task.Some? ==>
        At(s', p, procs[w := Proc(s, w).(inbox := Proc(s, w).inbox + [p.workers[w].task.value])],
           chains + [Over], {}, [0])
  {
    hide Tally, HandOff;
    var c := |chains|;
    var s1 := Admit(TWO_WORKERS, s, c, t);
    assert s1.chains == chains + [Awaiting(Main, t, false, 0)];
    assert Ended(s1, c, Main, true).chains == chains + [Over];
  }

  /** The first task goes to the worker that has waited longest. */
  lemma FirstTaken()
    ensures At(Run(TWO_WORKERS, ONE_BUSY),
      Pool([1], [], [0], map[Some("app") := 1], 0,
           map[0 := OfApp(Busy, Some(FIRST), [FIRST], 0, 0), 1 := Waiting(1)], {0, 1}, {}, 2, 2, false),
      map[0 := Given(FIRST)], [Over], {}, [0])
  {
    hide Run, Step, HandOff;
    BothStart();
    var es := BOTH_STARTED;
    var pool := Run(TWO_WORKERS, es).pool;
    RunStep(TWO_WORKERS, es, Ready);
    AsksMain(Run(TWO_WORKERS, es), pool, map[], []);
    RunStep(TWO_WORKERS, es + [Ready], TaskArrives(0, FIRST, false));
    FirstHanded(pool);
    assert [] + [FIRST] == [FIRST] && [] + [Over] == [Over];
    assert (map[])[0 := Given(FIRST)] == map[0 := Given(FIRST)];
    TakesTask(Run(TWO_WORKERS, es + [Ready]), pool, map[], [], FIRST);
  }

  lemma FirstHanded(p: Pool)
    requires p == Pool([1, 0], [], [], map[], 0, map[0 := Waiting(0), 1 := Waiting(1)], {0, 1}, {}, 2, 2, false)
    ensures HandOff(TWO_WORKERS.cfg, p, FIRST) == Some((
      Pool([1], [], [0], map[Some("app") := 1], 0,
           map[0 := OfApp(Busy, Some(FIRST), [FIRST], 0, 0), 1 := Waiting(1)], {0, 1}, {}, 2, 2, false), 0))
  {
    assert Without([1], 0) == [1] by { assert [1][1..] == []; }
    assert p.idle[..1] == [1] && [] + [FIRST] == [FIRST];
    var p1 := Popped(p, 0, "app", true);
    assert Assigned(TWO_WORKERS.cfg, p1.workers[0], FIRST) == OfApp(Idle, Some(FIRST), [FIRST], 0, 0);
    var r := HandOff(TWO_WORKERS.cfg, p, FIRST).value.0;
    assert |p.cluster| == 2 && [0] + [] == [0];
    assert p.appsLoad[Some("app") := 1] == map[Some("app") := 1];
    assert r.workers == map[0 := OfApp(Busy, Some(FIRST), [FIRST], 0, 0), 1 := Waiting(1)];
  }

  /** Both serve the app at the same time. */
  lemma SecondTaken()
    ensures At(Run(TWO_WORKERS, BOTH_BUSY),
      Pool([], [], [1, 0], map[Some("app") := 2], 0,
           map[0 := OfApp(Busy, Some(FIRST), [FIRST], 0, 0), 1 := OfApp(Busy, Some(SECOND), [SECOND], 1, 0)],
           {0, 1}, {}, 2, 2, false),
      map[0 := Given(FIRST), 1 := Given(SECOND)], [Over, Over], {}, [0])
  {
    hide Run, Step, HandOff;
    FirstTaken();
    var es := ONE_BUSY;
    var s := Run(TWO_WORKERS, es);
    RunStep(TWO_WORKERS, es, Ready);
    AsksMain(s, s.pool, s.procs, [Over]);
    RunStep(TWO_WORKERS, es + [Ready], TaskArrives(1, SECOND, false));
    SecondHanded(s.pool);
    assert [] + [SECOND] == [SECOND];
    TakesTask(Run(TWO_WORKERS, es + [Ready]), s.pool, s.procs, [Over], SECOND);
    assert s.procs[1 := Given(SECOND)] == map[0 := Given(FIRST), 1 := Given(SECOND)];
    assert [Over] + [Over] == [Over, Over];
  }

  lemma SecondHanded(p: Pool)
    requires p == Pool([1], [], [0], map[Some("app") := 1], 0,
      map[0 := OfApp(Busy, Some(FIRST), [FIRST], 0, 0), 1 := Waiting(1)], {0, 1}, {}, 2, 2, false)
    ensures HandOff(TWO_WORKERS.cfg, p, SECOND) == Some((
      Pool([], [], [1, 0], map[Some("app") := 2], 0,
           map[0 := OfApp(Busy, Some(FIRST), [FIRST], 0, 0), 1 := OfApp(Busy, Some(SECOND), [SECOND], 1, 0)],
           {0, 1}, {}, 2, 2, false), 1))
  {
    assert p.idle[..0] == [] && [] + [SECOND] == [SECOND];
    var p1 := Popped(p, 1, "app", true);
    assert Assigned(TWO_WORKERS.cfg, p1.workers[1], SECOND) == OfApp(Idle, Some(SECOND), [SECOND], 1, 0);
    var r := HandOff(TWO_WORKERS.cfg, p, SECOND).value.0;
    assert |p.cluster| == 2 && [1] + [0] == [1, 0] && Without([], 1) == [];
    assert p.appsLoad[Some("app") := 2] == map[Some("app") := 2];
    assert r.workers ==
      map[0 := OfApp(Busy, Some(FIRST), [FIRST], 0, 0), 1 := OfApp(Busy, Some(SECOND), [SECOND], 1, 0)];
  }

  // ----- a task is done

  lemma Works(cfg: Settings, es: seq<Event>, w: nat, t: Task)
    requires var s := Run(cfg, es); w in s.pool.workers && !s.pool.workers[w].exited && Proc(s, w) == Given(t)
    ensures var s := Run(cfg, es);
      Run(cfg, es + [ProcessMoves(w, Take)] + [ProcessMoves(w, Executed(false))] + [ProcessMoves(w, Sent)]
               + [ProcessMoves(w, Told)] + [ProcessMoves(w, Finished)]) ==
      s.(procs := s.procs[w := DONE.(outbox := [Processed(t)] + [Processed(t)] + [Idling])])
  {
    hide Run;
    var s := Run(cfg, es);
    var es1 := es + [ProcessMoves(w, Take)];
    var es2 := es1 + [ProcessMoves(w, Executed(false))];
    var es3 := es2 + [ProcessMoves(w, Sent)];
    var es4 := es3 + [ProcessMoves(w, Told)];
    RunStep(cfg, es, ProcessMoves(w, Take));
    RunStep(cfg, es1, ProcessMoves(w, Executed(false)));
    RunStep(cfg, es2, ProcessMoves(w, Sent));
    RunStep(cfg, es3, ProcessMoves(w, Told));
    RunStep(cfg, es4, ProcessMoves(w, Finished));
    var p1 := NewProcess.(stage := Executing(t));
    assert [t][1..] == [];
    MovesOn(cfg, s, s, w, Take, p1);
    var p2 := p1.(outbox := [] + [Processed(t)], stage := SendingResult(t), succeeded := true);
    MovesOn(cfg, s, Run(cfg, es1), w, Executed(false), p2);
    assert p2.outbox == [Processed(t)];
    var p3 := p2.(outbox := p2.outbox + [Processed(t)], stage := SentResult(t));
    MovesOn(cfg, s, Run(cfg, es2), w, Sent, p3);
    MovesOn(cfg, s, Run(cfg, es3), w, Told, p3.(stage := Finishing(t)));
    MovesOn(cfg, s, Run(cfg, es4), w, Finished, DONE.(outbox := p3.outbox + [Idling]));
  }

  lemma MovesOn(cfg: Settings, s: State, s1: State, w: nat, move: Move, pr: Process)
    requires w in s.pool.workers && !s.pool.workers[w].exited
    requires s1 == s || s1 == s.(procs := s.procs[w := Proc(s1, w)])
    requires pr == Advance(Proc(s1, w), move) && !Overlaps(Proc(s1, w), move)
    ensures Step(cfg, s1, ProcessMoves(w, move)) == s.(procs := s.procs[w := pr])
  {
    hide Advance, Overlaps;
    assert s1.procs[w := pr] == s.procs[w := pr];
  }

  /** The pool when the broker has had both results and 'idling'. */
  function Heard(cfg: Settings, p: Pool, w: nat): Pool
    requires w in p.workers && p.workers[w].task.Some?
  {
    IdlingFrom(cfg.cfg, ReportFrom(ReportFrom(p, w), w), w)
  }

  lemma HearsResult(cfg: Settings, s: State, w: nat, t: Task, rest: seq<Message>)
    requires w in s.pool.workers && Proc(s, w) == DONE.(outbox := [Processed(t)] + rest)
    ensures var s' := Step(cfg, s, Delivered(w));
      s' == s.(log := s'.log, pool := ReportFrom(s.pool, w), procs := s.procs[w := DONE.(outbox := rest)])
  {
    hide ReportFrom;
    assert ([Processed(t)] + rest)[1..] == rest;
  }

  lemma HearsIdling(cfg: Settings, s: State, w: nat)
    requires w in s.pool.workers && s.pool.workers[w].task.Some? && Proc(s, w) == DONE.(outbox := [Idling])
    ensures Step(cfg, s, Delivered(w)) ==
      s.(pool := IdlingFrom(cfg.cfg, s.pool, w), procs := s.procs[w := DONE])
  {
    hide IdlingFrom;
    assert [Idling][1..] == [];
  }

  lemma Hears(cfg: Settings, es: seq<Event>, w: nat, t: Task)
    requires var s := Run(cfg, es);
      w in s.pool.workers && s.pool.workers[w].task.Some?
      && Proc(s, w) == DONE.(outbox := [Processed(t)] + [Processed(t)] + [Idling])
    ensures var s, s' := Run(cfg, es), Run(cfg, es + [Delivered(w)] + [Delivered(w)] + [Delivered(w)]);
      s'.pool == Heard(cfg, s.pool, w) && s'.procs == s.procs[w := DONE]
      && s'.chains == s.chains && s'.slots == s.slots && s'.getters == s.getters && s'.stopped == s.stopped
  {
    hide Run, Step, IdlingFrom;
    var s := Run(cfg, es);
    var es1 := es + [Delivered(w)];
    var es2 := es1 + [Delivered(w)];
    RunStep(cfg, es, Delivered(w));
    RunStep(cfg, es1, Delivered(w));
    RunStep(cfg, es2, Delivered(w));
    assert [Processed(t)] + [Processed(t)] + [Idling] == [Processed(t)] + ([Processed(t)] + [Idling]);
    HearsResult(cfg, s, w, t, [Processed(t)] + [Idling]);
    HearsResult(cfg, Run(cfg, es1), w, t, [Idling]);
    HearsIdling(cfg, Run(cfg, es2), w);
    assert Run(cfg, es2).procs[w := DONE] == s.procs[w := DONE];
  }

  lemma Serves(cfg: Settings, es: seq<Event>, w: nat, t: Task)
    requires var s := Run(cfg, es);
      w in s.pool.workers && !s.pool.workers[w].exited && s.pool.workers[w].task.Some? && Proc(s, w) == Given(t)
    ensures var s, s' := Run(cfg, es), Run(cfg, Served(es, w));
      s'.pool == Heard(cfg, s.pool, w) && s'.procs == s.procs[w := DONE]
      && s'.chains == s.chains && s'.slots == s.slots && s'.getters == s.getters && s'.stopped == s.stopped
  {
    hide Run, Heard;
    var s := Run(cfg, es);
    Works(cfg, es, w, t);
    var worked := es + [ProcessMoves(w, Take)] + [ProcessMoves(w, Executed(false))] + [ProcessMoves(w, Sent)]
      + [ProcessMoves(w, Told)] + [ProcessMoves(w, Finished)];
    Hears(cfg, worked, w, t);
    assert Run(cfg, worked).procs[w := DONE] == s.procs[w := DONE];
  }

  // ----- both are done, and the app is deployed again

  lemma FirstHeard(p: Pool)
    requires p == Pool([], [], [1, 0], map[Some("app") := 2], 0,
      map[0 := OfApp(Busy, Some(FIRST), [FIRST], 0, 0), 1 := OfApp(Busy, Some(SECOND), [SECOND], 1, 0)],
      {0, 1}, {}, 2, 2, false)
    ensures Heard(TWO_WORKERS, p, 0) == Pool([], [0], [1], map[Some("app") := 1], 0,
      map[0 := OfApp(Cached, None, [FIRST], 2, 2), 1 := OfApp(Busy, Some(SECOND), [SECOND], 1, 0)],
      {0, 1}, {}, 2, 3, false)
  {
    assert Without([1, 0], 0) == [1] by { assert [1, 0][1..] == [0] && [0][1..] == []; }
    assert |p.cluster| == 2 && [0] + [] == [0];
    assert p.appsLoad[Some("app") := 1] == map[Some("app") := 1];
    assert ReportFrom(ReportFrom(p, 0), 0).workers[0] == OfApp(Busy, Some(FIRST), [FIRST], 0, 2);
    var r := Heard(TWO_WORKERS, p, 0);
    assert r.workers ==
      map[0 := OfApp(Cached, None, [FIRST], 2, 2), 1 := OfApp(Busy, Some(SECOND), [SECOND], 1, 0)];
  }

  lemma SecondHeard(p: Pool)
    requires p == Pool([], [0], [1], map[Some("app") := 1], 0,
      map[0 := OfApp(Cached, None, [FIRST], 2, 2), 1 := OfApp(Busy, Some(SECOND), [SECOND], 1, 0)],
      {0, 1}, {}, 2, 3, false)
    ensures var r := Heard(TWO_WORKERS, p, 1);
      r.cached == [1, 0] && r.workers ==
        map[0 := OfApp(Cached, None, [FIRST], 2, 2), 1 := OfApp(Cached, None, [SECOND], 3, 2)]
  {
    assert Without([1], 1) == [] by { assert [1][1..] == []; }
    assert |p.cluster| == 2 && [1] + [0] == [1, 0];
    var r := Heard(TWO_WORKERS, p, 1);
    assert r.workers == map[0 := OfApp(Cached, None, [FIRST], 2, 2), 1 := OfApp(Cached, None, [SECOND], 3, 2)];
  }

  const BOTH_CACHED: seq<Event> := Served(Served(BOTH_BUSY, 0), 1)

  lemma NeighboursInTheCache()
    ensures var p := Run(TWO_WORKERS, BOTH_CACHED).pool;
      p.cached == [1, 0] && IsOf(p.workers, 0, Some("app")) && IsOf(p.workers, 1, Some("app"))
  {
    hide Run, Served, Heard;
    SecondTaken();
    var s := Run(TWO_WORKERS, BOTH_BUSY);
    Serves(TWO_WORKERS, BOTH_BUSY, 0, FIRST);
    FirstHeard(s.pool);
    var s1 := Run(TWO_WORKERS, Served(BOTH_BUSY, 0));
    assert Proc(s1, 1) == Given(SECOND);
    Serves(TWO_WORKERS, Served(BOTH_BUSY, 0), 1, SECOND);
    SecondHeard(s1.pool);
  }

  /** After the run, a redeployment of the app leaves one of its workers in the cache. */
  lemma LeftInTheCache()
    ensures var p := Run(TWO_WORKERS, BOTH_CACHED + [Redeployed(Some("app"))]).pool;
      exists w :: w in p.cached && IsOf(Run(TWO_WORKERS, BOTH_CACHED).pool.workers, w, Some("app"))
  {
    hide Run, PoolOk, KillAllAppWorkers, IsOf, Inv;
    NeighboursInTheCache();
    RunStep(TWO_WORKERS, BOTH_CACHED, Redeployed(Some("app")));
    RunOk(TWO_WORKERS, BOTH_CACHED);
    InvPool(TWO_WORKERS, Run(TWO_WORKERS, BOTH_CACHED));
    RedeployClears(TWO_WORKERS.cfg, Run(TWO_WORKERS, BOTH_CACHED).pool, Some("app"));
    assert Run(TWO_WORKERS, BOTH_CACHED).pool.cached[0] == 1 && Run(TWO_WORKERS, BOTH_CACHED).pool.cached[0 + 1] == 0;
  }
}
