/** What each event of a run does to the whole state, written out, and what follows for whole runs: when
    the queues are asked, what a disabled cache means, and what becomes of a worker with a critical error. */
module RunnerLaws {
  import opened Options
  import opened Sequences
  import opened WorkerPool
  import opened PoolInvariants
  import opened PoolFrames
  import opened PoolLaws
  import opened CloudWorkerProcess
  import opened TaskRequests
  import opened RunnerSystem
  import opened RunnerInvariants
  import opened RunnerTheorems

  // ----- the master

  /** A request for the queue is under way: the one there was, or a new one with the last getter client. */
  ghost predicate QueueAsked(s: State, s': State, q: Queue) {
    if q in s.slots then s' == s
    else
      var n := |s.getters|;
      n > 0 && s' == s.(chains := s.chains + [Getting(q, s.getters[n - 1])], getters := s.getters[..n - 1],
                        slots := s.slots + {q}, peak := s'.peak)
  }

  predicate MainWanted(cfg: Settings, s: State) {
    !s.stopped && cfg.cfg.limit - |s.pool.busy| > 0
  }

  predicate LowWanted(cfg: Settings, s: State) {
    && !s.stopped && cfg.cfg.limit - |s.pool.busy| > 1
    && cfg.threshold != 0.0 && |s.pool.busy| as real < cfg.threshold * cfg.cfg.limit as real
  }

  /** The main queue is asked when a worker is free, and then the low priority queue when two were and the
      load was below the threshold; none once the master stops. */
  ghost predicate QueuesAsked(cfg: Settings, s: State, s': State) {
    exists s1 :: AskedVia(cfg, s, s1, s')
  }

  ghost predicate AskedVia(cfg: Settings, s: State, s1: State, s': State) {
    && (if MainWanted(cfg, s) then QueueAsked(s, s1, Main) else s1 == s)
    && (if LowWanted(cfg, s) then QueueAsked(s1, s', LowPriority) else s' == s1)
  }

  lemma LoadIsBelow(busy: nat, limit: nat, threshold: real)
    requires limit > 0
    ensures threshold > busy as real / limit as real <==> busy as real < threshold * limit as real
  {
    var l, b := limit as real, busy as real;
    var x := b / l;
    assert b == x * l;
    if threshold > x {
      assert (threshold - x) * l > 0.0;
    } else {
      assert (x - threshold) * l >= 0.0;
    }
  }

  lemma BeginLaw(s: State, q: Queue)
    requires q !in s.slots ==> s.getters != []
    ensures QueueAsked(s, Begin(s, q), q)
  {
  }

  lemma MainLaw(cfg: Settings, s: State)
    requires Inv(cfg, s) && MainWanted(cfg, s)
    ensures QueueAsked(s, Begin(s, Main), Main) && Inv(cfg, Begin(s, Main))
  {
    if Main !in s.slots { GetterAtHand(cfg, s, Main); }
    hide Inv, Begin, QueueAsked;
    BeginLaw(s, Main);
    BeginKeeps(cfg, s, Main);
  }

  lemma LowLaw(cfg: Settings, s: State)
    requires Inv(cfg, s) && UsesLowQueue(cfg)
    ensures QueueAsked(s, Begin(s, LowPriority), LowPriority)
  {
    if LowPriority !in s.slots { GetterAtHand(cfg, s, LowPriority); }
    hide Inv, Begin, QueueAsked;
    BeginLaw(s, LowPriority);
  }

  lemma LowIsUsed(cfg: Settings, s: State)
    requires LowWanted(cfg, s)
    ensures MainWanted(cfg, s) && UsesLowQueue(cfg)
  {
    LoadIsBelow(|s.pool.busy|, cfg.cfg.limit, cfg.threshold);
  }

  lemma ReadyLaw(cfg: Settings, s: State)
    requires Inv(cfg, s)
    ensures QueuesAsked(cfg, s, OnReady(cfg, s))
  {
    hide Inv, Begin, QueueAsked, OnReady, MainWanted, LowWanted, UsesLowQueue;
    var s1 := if MainWanted(cfg, s) then Begin(s, Main) else s;
    if MainWanted(cfg, s) { MainLaw(cfg, s); }
    if LowWanted(cfg, s) {
      LowIsUsed(cfg, s);
      LowLaw(cfg, s1);
    }
    ReadyIs(cfg, s);
    assert AskedVia(cfg, s, s1, OnReady(cfg, s));
  }

  lemma ReadyIs(cfg: Settings, s: State)
    ensures var s1 := if MainWanted(cfg, s) then Begin(s, Main) else s;
      OnReady(cfg, s) == if LowWanted(cfg, s) then Begin(s1, LowPriority) else s1
  {
    hide Begin;
    if cfg.cfg.limit > 0 { LoadIsBelow(|s.pool.busy|, cfg.cfg.limit, cfg.threshold); }
  }

  lemma OneTells(s: State, s': State, q: Queue)
    requires QueueAsked(s, s', q)
    ensures s'.slots == s.slots + {q} && s.chains <= s'.chains
    ensures |s'.chains| == |s.chains| + if q in s.slots then 0 else 1
    ensures q !in s.slots ==> s'.chains[|s.chains|].Getting? && s'.chains[|s.chains|].q == q
    ensures s' == s.(chains := s'.chains, slots := s'.slots, getters := s'.getters, peak := s'.peak)
  {
    assert q in s.slots ==> s.slots + {q} == s.slots;
  }

  /** What the slots and the chains tell of it: a queue is being asked afterwards if and only if it was
      before or is wanted, and each queue that was not has exactly one chain more. */
  lemma SlotsTell(cfg: Settings, s: State, s': State)
    requires QueuesAsked(cfg, s, s')
    ensures Main in s'.slots <==> (Main in s.slots || MainWanted(cfg, s))
    ensures LowPriority in s'.slots <==> (LowPriority in s.slots || LowWanted(cfg, s))
    ensures s.chains <= s'.chains
    ensures forall q :: NewChains(s, s', q) == if q in s'.slots && q !in s.slots then 1 else 0
    ensures s' == s.(chains := s'.chains, slots := s'.slots, getters := s'.getters, peak := s'.peak)
  {
    hide MainWanted, LowWanted;
    var s1 :| AskedVia(cfg, s, s1, s');
    if MainWanted(cfg, s) { OneTells(s, s1, Main); }
    if LowWanted(cfg, s) { OneTells(s1, s', LowPriority); }
    hide QueueAsked, AskedVia;
    forall q ensures NewChains(s, s', q) == if q in s'.slots && q !in s.slots then 1 else 0 {
      NewChainsSplit(s, s1, s', q);
    }
  }

  lemma NewChainsSplit(s: State, s1: State, s': State, q: Queue)
    requires s.chains <= s1.chains <= s'.chains
    requires |s1.chains| <= |s.chains| + 1 && |s'.chains| <= |s1.chains| + 1
    ensures NewChains(s, s', q) ==
      (if |s1.chains| > |s.chains| && Is(s1.chains[|s.chains|], On(q)) then 1 else 0)
      + (if |s'.chains| > |s1.chains| && Is(s'.chains[|s1.chains|], On(q)) then 1 else 0)
  {
    var a, b := s1.chains[|s.chains|..], s'.chains[|s1.chains|..];
    assert s'.chains[|s.chains|..] == a + b;
    assert a == [] || a == [s1.chains[|s.chains|]];
    assert b == [] || b == [s'.chains[|s1.chains|]];
    assert [] + b == b && a + [] == a;
    if b != [] { TallyAppend(a, b[0], On(q)); }
    if a != [] { TallyAppend([], a[0], On(q)); }
  }

  /** How many chains for the queue have been added. */
  function NewChains(s: State, s': State, q: Queue): nat
    requires s.chains <= s'.chains
  {
    Tally(s'.chains[|s.chains|..], On(q))
  }

  /** The chain's task is handed to a worker, whose process it is sent to, and the slot is freed unless that
      was done before; or, when nobody is at hand, room is made and the chain awaits one worker more. */
  ghost predicate Attempted(cfg: Settings, s: State, c: nat, s': State)
    requires c < |s.chains| && s.chains[c].Awaiting?
  {
    var o := s.chains[c];
    if NobodyAtHand(cfg.cfg, s.pool, o.task) then
      exists room :: RoomMade(cfg.cfg, s.pool, room) && WithNew(room, s'.pool, 1)
        && s' == s.(pool := s'.pool, chains := s.chains[c := Awaiting(o.q, o.task, o.early, room.nextId)])
    else
      exists w :: HandedOut(cfg.cfg, s.pool, s'.pool, w, o.task) &&
        var pr := if w in s.procs then s.procs[w] else Process([], Resting, false, [], false);
        s' == s.(pool := s'.pool, chains := s.chains[c := Over], slots := if o.early then s.slots else s.slots - {o.q},
                 procs := s.procs[w := pr.(inbox := pr.inbox + [OnRecord(cfg.cfg, o.task)])])
  }

  ghost predicate Limited(cfg: Config, p: Pool, app: App) {
    && cfg.rateEnabled && Some(app) in p.appsLoad
    && p.appsLoad[Some(app)] >= if app in cfg.rateOverrides && cfg.rateOverrides[app] != 0
                                then cfg.rateOverrides[app] else cfg.rateDefault
  }

  /** The getter client goes back.  An outdated task ends its chain, frees the slot and has the queues asked
      again; one of a limited app waits to be pushed back; any other is handed over, and with room for
      three its slot is freed at once. */
  ghost predicate TaskTaken(cfg: Settings, s: State, c: nat, task: Task, outdated: bool, s': State)
    requires c < |s.chains| && s.chains[c].Getting?
  {
    var q := s.chains[c].q;
    var back := s.(getters := s.getters + [s.chains[c].client]);
    var early := cfg.cfg.limit - |s.pool.busy| > 2;
    if outdated then QueuesAsked(cfg, back.(chains := s.chains[c := Over], slots := s.slots - {q}), s')
    else if Limited(cfg.cfg, s.pool, task.app) then s' == back.(chains := s.chains[c := PushingBack(q)])
    else
      Attempted(cfg, back.(chains := s.chains[c := Awaiting(q, task, early, 0)],
                           slots := if early then s.slots - {q} else s.slots, peaks := s'.peaks), c, s')
  }

  lemma AttemptLaw(cfg: Settings, s: State, c: nat)
    requires Inv(cfg, s) && c < |s.chains| && s.chains[c].Awaiting?
    ensures Attempted(cfg, s, c, Attempt(cfg, s, c))
  {
    hide Inv, PoolOk, Attempted, Attempt, HandOff, HandedOut, NobodyAtHand;
    var o := s.chains[c];
    InvPool(cfg, s);
    HandOffLaw(cfg.cfg, s.pool, o.task);
    if HandOff(cfg.cfg, s.pool, o.task).Some? {
      var r := HandOff(cfg.cfg, s.pool, o.task).value;
      Pooled(s.pool);
      HandedOutIs(cfg.cfg, s.pool, r.0, r.1, o.task);
      DispatchLaw(cfg, s, c, r.0, r.1);
    } else {
      RoomLaw(cfg.cfg, s.pool);
      WaitLaw(cfg, s, c);
    }
  }

  lemma DispatchLaw(cfg: Settings, s: State, c: nat, p: Pool, w: nat)
    requires c < |s.chains| && s.chains[c].Awaiting?
    requires var t := s.chains[c].task;
      && HandOff(cfg.cfg, s.pool, t) == Some((p, w)) && HandedOut(cfg.cfg, s.pool, p, w, t)
      && !NobodyAtHand(cfg.cfg, s.pool, t)
      && w in p.workers && p.workers[w].task == Some(OnRecord(cfg.cfg, t))
    ensures Attempted(cfg, s, c, Attempt(cfg, s, c))
  {
    hide HandOff, HandedOut, NobodyAtHand, OnRecord, MakeRoom, WithNew, RoomMade;
  }

  lemma WaitLaw(cfg: Settings, s: State, c: nat)
    requires c < |s.chains| && s.chains[c].Awaiting?
    requires var t := s.chains[c].task; HandOff(cfg.cfg, s.pool, t) == None && NobodyAtHand(cfg.cfg, s.pool, t)
    requires RoomMade(cfg.cfg, s.pool, MakeRoom(cfg.cfg, s.pool))
    ensures Attempted(cfg, s, c, Attempt(cfg, s, c))
  {
    hide HandOff, HandedOut, NobodyAtHand, OnRecord, MakeRoom, WithNew, RoomMade;
    ForkLaw(MakeRoom(cfg.cfg, s.pool));
  }

  lemma ForkLaw(p: Pool)
    ensures WithNew(p, Fork(p), 1)
  {
  }

  /** After a hand-over somebody was at hand, and the task is on record. */
  lemma HandedOutIs(cfg: Config, p: Pool, p': Pool, w: nat, task: Task)
    requires Known(p) && HandedOut(cfg, p, p', w, task)
    ensures !NobodyAtHand(cfg, p, task)
    ensures w in p'.workers && p'.workers[w].task == Some(OnRecord(cfg, task))
  {
    hide Reused, Without;
  }

  lemma LimitedIs(cfg: Config, p: Pool, app: App)
    ensures Limited(cfg, p, app) <==> RateLimitReached(cfg, p, app)
  {
  }

  lemma TaskLaw(cfg: Settings, s: State, c: nat, task: Task, outdated: bool)
    requires Inv(cfg, s) && IsGetting(s, c)
    ensures TaskTaken(cfg, s, c, task, outdated, OnTask(cfg, s, c, task, outdated))
  {
    hide Inv, OnReady, QueuesAsked, Attempt, Attempted, RateLimitReached, Limited, Tally;
    LimitedIs(cfg.cfg, s.pool, task.app);
    var q := s.chains[c].q;
    if outdated {
      ReturnEndsKeeps(cfg, s, c);
      ReadyLaw(cfg, Ended(Returned(s, c, Over), c, q, true));
      assert s.chains[c := Over][c := Over] == s.chains[c := Over];
    } else if !RateLimitReached(cfg.cfg, s.pool, task.app) {
      AdmitKeeps(cfg, s, c, task);
      AttemptPeaks(cfg, Admit(cfg, s, c, task), c);
      AttemptLaw(cfg, Admit(cfg, s, c, task), c);
    }
  }

  // ----- the processes and their messages

  /** One move of a worker process. */
  ghost predicate Moves(pr: Process, move: Move, pr': Process) {
    match move
    case Take =>
      pr' == if pr.inbox != [] then pr.(inbox := pr.inbox[1..], stage := Executing(pr.inbox[0])) else pr
    case Executed(criticalResult) =>
      pr' == if !pr.stage.Executing? then pr else pr.(
        stage := SendingResult(pr.stage.t), outbox := pr.outbox + [Processed(pr.stage.t)],
        critical := pr.critical || criticalResult, succeeded := true)
    case Failed =>
      pr' == if !pr.stage.Executing? then pr
             else pr.(stage := SendingResult(pr.stage.t), critical := true, succeeded := false)
    case Sent =>
      pr' == if !pr.stage.SendingResult? then pr
             else pr.(stage := SentResult(pr.stage.t), outbox := pr.outbox + [Processed(pr.stage.t)])
    case Told =>
      pr' == if !pr.stage.SentResult? then pr
             else pr.(stage := Finishing(pr.stage.t),
                      outbox := pr.outbox + if pr.critical then [CriticalErrorMessage] else [])
    case Finished =>
      pr' == if !pr.stage.Finishing? then pr else pr.(stage := Resting, outbox := pr.outbox + [Idling])
    case Broke => pr' == pr.(critical := true)
    case Beat => pr' == pr.(outbox := pr.outbox + [Heartbeat])
  }

  lemma AdvanceLaw(pr: Process, move: Move)
    ensures Moves(pr, move, Advance(pr, move))
  {
    assert pr.outbox + [] == pr.outbox;
  }

  /** The first message of a worker is handled: a result goes out under the task on record, a critical
      error marks the worker, 'idling' releases it, and a heartbeat does nothing more. */
  ghost predicate Heard(cfg: Settings, s: State, w: nat, s': State)
    requires w in s.pool.workers && w in s.procs && s.procs[w].outbox != []
  {
    var o, m := s.pool.workers[w], s.procs[w].outbox[0];
    var rest := s.(procs := s.procs[w := s.procs[w].(outbox := s.procs[w].outbox[1..])]);
    match m
    case Processed(of) =>
      s' == rest.(log := s.log + [Emission(w, o.task, of)],
                  pool := s.pool.(workers := s.pool.workers[w := o.(reports := o.reports + 1)]))
    case CriticalErrorMessage =>
      s' == rest.(pool := s.pool.(workers := s.pool.workers[w := o.(toBeRemoved := true)]))
    case Idling => Released(cfg.cfg, s.pool, s'.pool, w) && s' == rest.(pool := s'.pool)
    case Heartbeat => s' == rest
  }

  lemma MessageLaw(cfg: Settings, s: State, w: nat)
    requires Inv(cfg, s) && w in s.pool.workers && w in s.procs && s.procs[w].outbox != []
    ensures Heard(cfg, s, w, OnMessage(cfg, s, w))
  {
    hide PoolOk, Chained, Reported, Flow, IdlingFrom, Released;
    assert Flow(At(s.pool, w), Proc(s, w));
    HeadIs(s.pool.workers[w], Proc(s, w));
    if s.procs[w].outbox[0].Idling? { IdlingLaw(cfg.cfg, s.pool, w); }
  }

  // ----- every event

  /** What the event does to the state; one that cannot happen does nothing. */
  ghost predicate Obeys(cfg: Settings, s: State, e: Event, s': State) {
    match e
    case Ready => QueuesAsked(cfg, s, s')
    case TaskArrives(c, task, outdated) =>
      if c < |s.chains| && s.chains[c].Getting? then TaskTaken(cfg, s, c, task, outdated, s') else s' == s
    case GetFails(c) =>
      if c < |s.chains| && s.chains[c].Getting?
      then QueuesAsked(cfg, s.(getters := s.getters + [s.chains[c].client], chains := s.chains[c := Over],
                               slots := s.slots - {s.chains[c].q}), s')
      else s' == s
    case PushEnds(c) =>
      if c < |s.chains| && s.chains[c].PushingBack?
      then QueuesAsked(cfg, s.(chains := s.chains[c := Over], slots := s.slots - {s.chains[c].q}), s')
      else s' == s
    case Retry(c) =>
      if c < |s.chains| && s.chains[c].Awaiting? && s.chains[c].w !in s.pool.booting
      then Attempted(cfg, s, c, s') else s' == s
    case WorkerStarted(w) =>
      if w in s.pool.booting && w in s.pool.workers
      then Joined(s.pool, w, s'.pool) && s' == s.(pool := s'.pool) else s' == s
    case TimerKills(w) =>
      if w in s.pool.workers then KilledIn(cfg.cfg, s.pool, s'.pool, w) && s' == s.(pool := s'.pool) else s' == s
    case Redeployed(app) => Swept(s.pool, app, s'.pool) && s' == s.(pool := s'.pool)
    case WorkerExits(w, disconnected) =>
      if w in s.pool.workers && !s.pool.workers[w].exited
      then ExitNoted(cfg.cfg, s.pool, w, disconnected, s'.pool) && s' == s.(pool := s'.pool) else s' == s
    case LeavesCluster(w) =>
      s' == if w in s.pool.workers && s.pool.workers[w].exited
            then s.(pool := s.pool.(cluster := s.pool.cluster - {w})) else s
    case ProcessMoves(w, move) =>
      if w in s.pool.workers && !s.pool.workers[w].exited
      then
        var pr := if w in s.procs then s.procs[w] else Process([], Resting, false, [], false);
        w in s'.procs && Moves(pr, move, s'.procs[w]) && s' == s.(procs := s.procs[w := s'.procs[w]])
      else s' == s
    case Delivered(w) =>
      if w in s.pool.workers && w in s.procs && s.procs[w].outbox != [] then Heard(cfg, s, w, s') else s' == s
    case MasterStops => s' == s.(stopped := true)
    case BrokerStops => s' == s.(pool := s.pool.(stopping := true))
  }

  lemma RequestLaw(cfg: Settings, s: State, e: Event)
    requires Inv(cfg, s) && (e.Ready? || e.TaskArrives? || e.GetFails? || e.PushEnds? || e.Retry?)
    ensures Obeys(cfg, s, e, Step(cfg, s, e))
  {
    hide Inv, OnReady, QueuesAsked, OnTask, TaskTaken, Attempt, Attempted;
    match e
    case Ready => ReadyLaw(cfg, s);
    case TaskArrives(c, task, outdated) => if IsGetting(s, c) { TaskLaw(cfg, s, c, task, outdated); }
    case GetFails(c) =>
      if IsGetting(s, c) {
        ReturnEndsKeeps(cfg, s, c);
        ReadyLaw(cfg, Ended(Returned(s, c, Over), c, s.chains[c].q, true));
        assert s.chains[c := Over][c := Over] == s.chains[c := Over];
      }
    case PushEnds(c) =>
      if c < |s.chains| && s.chains[c].PushingBack? {
        PushEndsKeeps(cfg, s, c);
        ReadyLaw(cfg, Ended(s, c, s.chains[c].q, true));
      }
    case Retry(c) => if c < |s.chains| && s.chains[c].Awaiting? { AttemptLaw(cfg, s, c); }
  }

  lemma WorkerLaw(cfg: Settings, s: State, e: Event)
    requires Inv(cfg, s) && !(e.Ready? || e.TaskArrives? || e.GetFails? || e.PushEnds? || e.Retry?)
    ensures Obeys(cfg, s, e, Step(cfg, s, e))
  {
    InvPool(cfg, s);
    Pooled(s.pool);
    hide PoolOk, Chained, Channels, Reported, Known, Started, Kill, KilledIn, KillAllAppWorkers, Swept, Exited;
    hide ExitNoted, OnMessage, Heard, Joined, Moves, Advance, Overlaps;
    match e {
      case WorkerStarted(w) => if w in s.pool.booting { StartedLaw(cfg.cfg, s.pool, w); }
      case TimerKills(w) => if w in s.pool.workers { KillLaw(cfg.cfg, s.pool, w); }
      case Redeployed(app) => SweepLaw(cfg.cfg, s.pool, app);
      case WorkerExits(w, disconnected) => if w in s.pool.workers { ExitLaw(cfg.cfg, s.pool, w, disconnected); }
      case ProcessMoves(w, move) =>
        AdvanceLaw(Proc(s, w), move);
        NoOverlap(cfg, s, w, move);
      case Delivered(w) =>
        if w in s.pool.workers && w in s.procs && s.procs[w].outbox != [] { MessageLaw(cfg, s, w); }
      case _ =>
    }
  }

  lemma NoOverlap(cfg: Settings, s: State, w: nat, move: Move)
    requires Inv(cfg, s)
    ensures !Overlaps(Proc(s, w), move)
  {
    hide PoolOk, Chained, Reported, Flow, Overlaps, Advance;
    assert Flow(At(s.pool, w), Proc(s, w));
    AdvanceFlows(At(s.pool, w), Proc(s, w), move);
  }

  /** In every run every event does this, to the whole state. */
  lemma EveryEventObeys(cfg: Settings, es: seq<Event>, e: Event)
    ensures Obeys(cfg, Run(cfg, es), e, Run(cfg, es + [e]))
  {
    hide Run, Step, Inv, Obeys;
    RunStep(cfg, es, e);
    RunOk(cfg, es);
    if e.Ready? || e.TaskArrives? || e.GetFails? || e.PushEnds? || e.Retry? {
      RequestLaw(cfg, Run(cfg, es), e);
    } else {
      WorkerLaw(cfg, Run(cfg, es), e);
    }
  }

  /** The start: nothing but the spare workers, and one getter client for each queue in use. */
  lemma StartObeys(cfg: Settings)
    ensures var s := Run(cfg, []);
      && Replenished(cfg.cfg, Pool([], [], [], map[], 0, map[], {}, {}, 0, 0, false), s.pool)
      && s == State(s.pool, map[], [], {}, if cfg.threshold != 0.0 then [0, 1] else [0], false, [], 0, 0, map[])
  {
    hide KeepMinIdle, Replenished;
    MinIdleLaw(cfg.cfg, Pool([], [], [], map[], 0, map[], {}, {}, 0, 0, false));
    assert Clients(1) == [0] && Clients(2) == [0, 1];
  }

  // ----- a disabled cache

  /** No worker is cached, and no task was or is handled as cacheable. */
  ghost predicate NothingCacheable(p: Pool) {
    && p.cached == []
    && forall w | w in p.workers :: Uncacheable(p.workers[w])
  }

  predicate Uncacheable(o: Worker) {
    (o.task.Some? ==> !o.task.value.cacheable) && forall t | t in o.ran :: !t.cacheable
  }

  lemma FadedCacheless(p: Pool, p': Pool)
    requires NothingCacheable(p) && Faded(p, p')
    ensures NothingCacheable(p')
  {
    FirstIsMember(p'.cached);
    forall w | w in p'.workers ensures Uncacheable(p'.workers[w]) { assert SameTask(At(p, w), At(p', w)); }
  }

  lemma HandedCacheless(cfg: Config, p: Pool, p': Pool, w: nat, task: Task)
    requires cfg.cachedLimit == 0 && NothingCacheable(p) && HandedTo(cfg, p, p', w, task)
    ensures NothingCacheable(p')
  {
    FirstIsMember(p'.cached);
    forall x | x in p'.workers ensures Uncacheable(p'.workers[x]) {
      if x != w { assert SameTask(At(p, x), At(p', x)); }
    }
  }

  lemma AttemptCacheless(cfg: Settings, s: State, c: nat)
    requires PoolOk(s.pool) && c < |s.chains| && s.chains[c].Awaiting?
    requires cfg.cfg.cachedLimit == 0 && NothingCacheable(s.pool)
    ensures NothingCacheable(Attempt(cfg, s, c).pool)
  {
    hide PoolOk, HandOff, MakeRoom, HandedTo, Faded, Fork, NothingCacheable;
    var o := s.chains[c];
    match HandOff(cfg.cfg, s.pool, o.task)
    case Some(r) =>
      HandOffFrame(cfg.cfg, s.pool, o.task);
      HandedCacheless(cfg.cfg, s.pool, r.0, r.1, o.task);
    case None =>
      var room := MakeRoom(cfg.cfg, s.pool);
      MakeRoomKeeps(cfg.cfg, s.pool);
      MakeRoomFades(cfg.cfg, s.pool);
      ForkFades(room);
      FadedTrans(s.pool, room, Fork(room));
      FadedCacheless(s.pool, Fork(room));
  }

  lemma FirstIsMember(s: seq<nat>)
    ensures s != [] ==> s[0] in s
  {
  }

  lemma IdlingCacheless(cfg: Config, p: Pool, w: nat)
    requires PoolOk(p) && w in p.workers && p.workers[w].task.Some? && NothingCacheable(p)
    ensures NothingCacheable(IdlingFrom(cfg, p, w))
  {
    hide PoolOk, IdlingFrom, Load;
    IdlingFrame(cfg, p, w);
    var p' := IdlingFrom(cfg, p, w);
    assert Uncacheable(p.workers[w]);
    FirstIsMember(p'.cached);
    forall x | x in p'.workers ensures Uncacheable(p'.workers[x]) {
      if x != w { assert SameTask(At(p, x), At(p', x)); }
    }
  }

  lemma FlaggedCacheless(p: Pool, w: nat, o: Worker)
    requires NothingCacheable(p) && w in p.workers && o.task == p.workers[w].task && o.ran == p.workers[w].ran
    ensures NothingCacheable(p.(workers := p.workers[w := o]))
  {
    assert Uncacheable(p.workers[w]);
  }

  lemma MessageCacheless(cfg: Settings, s: State, w: nat)
    requires PoolOk(s.pool) && w in s.pool.workers && Proc(s, w).outbox != [] && NothingCacheable(s.pool)
    ensures NothingCacheable(OnMessage(cfg, s, w).pool)
  {
    hide PoolOk, IdlingFrom, NothingCacheable;
    var o := s.pool.workers[w];
    if Proc(s, w).outbox[0].Idling? && o.task.Some? { IdlingCacheless(cfg.cfg, s.pool, w); }
    FlaggedCacheless(s.pool, w, o.(reports := o.reports + 1));
    FlaggedCacheless(s.pool, w, o.(toBeRemoved := true));
  }

  lemma PoolEventCacheless(cfg: Settings, s: State, e: Event)
    requires PoolOk(s.pool) && NothingCacheable(s.pool)
    requires e.WorkerStarted? || e.TimerKills? || e.Redeployed? || e.WorkerExits? || e.LeavesCluster? || e.BrokerStops?
    ensures NothingCacheable(Step(cfg, s, e).pool)
  {
    hide PoolOk, Faded, Started, Kill, Exited, KillAllAppWorkers, NothingCacheable;
    var p := s.pool;
    FadedSelf(p);
    match e {
      case WorkerStarted(w) => if w in p.booting && w in p.workers { StartedFades(cfg.cfg, p, w); }
      case TimerKills(w) => if w in p.workers { KillAnyFades(cfg.cfg, p, w); }
      case Redeployed(app) => KillAllFades(cfg.cfg, p, app);
      case WorkerExits(w, disconnected) => if w in p.workers { ExitedFades(cfg.cfg, p, w, disconnected); }
      case LeavesCluster(w) => FlagsFade(p, p.(cluster := p.cluster - {w}));
      case BrokerStops => FlagsFade(p, p.(stopping := true));
    }
    FadedCacheless(p, Step(cfg, s, e).pool);
  }

  lemma StepCacheless(cfg: Settings, s: State, e: Event)
    requires PoolOk(s.pool) && cfg.cfg.cachedLimit == 0 && NothingCacheable(s.pool)
    ensures NothingCacheable(Step(cfg, s, e).pool)
  {
    hide PoolOk, NothingCacheable;
    if e.WorkerStarted? || e.TimerKills? || e.Redeployed? || e.WorkerExits? || e.LeavesCluster? || e.BrokerStops? {
      hide *;
      PoolEventCacheless(cfg, s, e);
    } else {
      hide OnReady, Attempt, OnMessage, RateLimitReached;
      match e
      case Ready => ReadyPool(cfg, s);
      case TaskArrives(c, task, outdated) =>
        if IsGetting(s, c) {
          ReadyPool(cfg, Ended(Returned(s, c, Over), c, s.chains[c].q, true));
          AttemptCacheless(cfg, Admit(cfg, s, c, task), c);
        }
      case GetFails(c) =>
        if IsGetting(s, c) { ReadyPool(cfg, Ended(Returned(s, c, Over), c, s.chains[c].q, true)); }
      case PushEnds(c) =>
        if c < |s.chains| && s.chains[c].PushingBack? { ReadyPool(cfg, Ended(s, c, s.chains[c].q, true)); }
      case Retry(c) => if c < |s.chains| && s.chains[c].Awaiting? { AttemptCacheless(cfg, s, c); }
      case Delivered(w) => if w in s.pool.workers && Proc(s, w).outbox != [] { MessageCacheless(cfg, s, w); }
      case _ =>
    }
  }

  /** With the cache disabled no run caches a worker or handles a task as cacheable. */
  lemma {:induction false} DisabledCacheIsEmpty(cfg: Settings, es: seq<Event>)
    requires cfg.cfg.cachedLimit == 0
    ensures NothingCacheable(Run(cfg, es).pool)
  {
    if es == [] {
      var p0 := Pool([], [], [], map[], 0, map[], {}, {}, 0, 0, false);
      KeepMinIdleExtends(cfg.cfg, p0);
      hide KeepMinIdle;
    } else {
      hide Step, NothingCacheable, PoolOk, Inv;
      DisabledCacheIsEmpty(cfg, es[..|es| - 1]);
      RunOk(cfg, es[..|es| - 1]);
      InvPool(cfg, Run(cfg, es[..|es| - 1]));
      StepCacheless(cfg, Run(cfg, es[..|es| - 1]), es[|es| - 1]);
    }
  }

  // ----- a critical error

  /** The next message of the worker. */
  predicate Next(s: State, w: nat, m: Message) {
    w in s.pool.workers && w in s.procs && s.procs[w].outbox != [] && s.procs[w].outbox[0] == m
  }

  /** A process with a critical error says so after the results of its task. */
  lemma CriticalIsTold(cfg: Settings, es: seq<Event>, w: nat)
    requires var s := Run(cfg, es);
      w in s.pool.workers && !s.pool.workers[w].exited && w in s.procs && s.procs[w].stage.SentResult?
    ensures var s, s' := Run(cfg, es), Run(cfg, es + [ProcessMoves(w, Told)]);
      && w in s'.procs && s'.procs[w].outbox ==
           s.procs[w].outbox + (if s.procs[w].critical then [CriticalErrorMessage] else [])
      && s' == s.(procs := s.procs[w := s'.procs[w]])
  {
    hide Run;
    EveryEventObeys(cfg, es, ProcessMoves(w, Told));
  }

  /** Its message marks the worker, and changes nothing else but that it has been heard. */
  lemma CriticalMarks(cfg: Settings, es: seq<Event>, w: nat)
    requires Next(Run(cfg, es), w, CriticalErrorMessage)
    ensures var s := Run(cfg, es); var pr := s.procs[w];
      Run(cfg, es + [Delivered(w)]) == s.(
        procs := s.procs[w := pr.(outbox := pr.outbox[1..])],
        pool := s.pool.(workers := s.pool.workers[w := s.pool.workers[w].(toBeRemoved := true)]))
  {
    hide Run;
    EveryEventObeys(cfg, es, Delivered(w));
  }

  /** When a marked worker has ended its task it is killed, and is in no pool. */
  lemma MarkedIsKilled(cfg: Settings, es: seq<Event>, w: nat)
    requires Next(Run(cfg, es), w, Idling) && Run(cfg, es).pool.workers[w].toBeRemoved
    ensures var p := Run(cfg, es + [Delivered(w)]).pool;
      w in p.workers && p.workers[w].killed && w !in p.idle && w !in p.cached && w !in p.busy
  {
    hide Run, Replenished;
    EveryEventObeys(cfg, es, Delivered(w));
    BooksAreRight(cfg, es + [Delivered(w)]);
    var p, p' := Run(cfg, es).pool, Run(cfg, es + [Delivered(w)]).pool;
    assert KilledIn(cfg.cfg, p, p', w);
    RunOk(cfg, es);
    KilledIsOut(cfg.cfg, p, p', w);
  }

  lemma KilledIsOut(cfg: Config, p: Pool, p': Pool, w: nat)
    requires w in p.workers && Known(p) && KilledIn(cfg, p, p', w)
    ensures w in p'.workers && p'.workers[w].killed && p'.workers[w].place == Nowhere
  {
    hide Without;
  }

  /** From a critical error to the end of the task, whatever happens in between. */
  lemma CriticalErrorKills(cfg: Settings, es: seq<Event>, more: seq<Event>, w: nat)
    requires Next(Run(cfg, es), w, CriticalErrorMessage)
    requires Next(Run(cfg, es + [Delivered(w)] + more), w, Idling)
    ensures var p := Run(cfg, es + [Delivered(w)] + more + [Delivered(w)]).pool;
      w in p.workers && p.workers[w].killed && w !in p.idle && w !in p.cached && w !in p.busy
  {
    hide Run;
    CriticalMarks(cfg, es, w);
    MarkedForGood(cfg, es + [Delivered(w)], more, w);
    MarkedIsKilled(cfg, es + [Delivered(w)] + more, w);
  }
}
