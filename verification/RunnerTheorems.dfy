/** What holds in every run of the code runner. */
module RunnerTheorems {
  import opened Options
  import opened Sequences
  import opened WorkerPool
  import opened PoolInvariants
  import opened PoolFrames
  import opened CloudWorkerProcess
  import opened TaskRequests
  import opened RunnerSystem
  import opened RunnerInvariants

  // ----- the books

  /** The three pools are free of duplicates and disjoint, `currentPlace` names the one a worker is in,
      and `appsLoad` counts the busy workers of each app. */
  lemma BooksAreRight(cfg: Settings, es: seq<Event>)
    ensures var p := Run(cfg, es).pool;
      && NoDup(p.idle) && NoDup(p.cached) && NoDup(p.busy)
      && (forall w | w in p.workers ::
            && (w in p.idle <==> p.workers[w].place == Idle)
            && (w in p.cached <==> p.workers[w].place == Cached)
            && (w in p.busy <==> p.workers[w].place == Busy))
      && (forall w | w in p.idle || w in p.cached || w in p.busy :: w in p.workers)
      && (forall a :: Load(p, a) == |Having(p.busy, p.workers, a)|)
  {
    hide Run, Counts, OneApp, Fresh, Sorted, NoDup, Having, Load;
    RunOk(cfg, es);
    LoadsAreRight(Run(cfg, es).pool);
  }

  /** The cached pool is in the order of last release, the most recent first. */
  lemma CacheIsOrdered(cfg: Settings, es: seq<Event>, i: nat, j: nat)
    requires i < j < |Run(cfg, es).pool.cached|
    ensures var p := Run(cfg, es).pool;
      && p.cached[i] in p.workers && p.cached[j] in p.workers
      && p.workers[p.cached[i]].waitsSince > p.workers[p.cached[j]].waitsSince
  {
    hide Run;
    RunOk(cfg, es);
    var p := Run(cfg, es).pool;
    assert Sorted(p);
    assert p.cached[i] in p.cached && p.cached[j] in p.cached;
  }

  /** A worker process runs tasks of one application only; one that waits in the idle pool has run
      nothing, one that waits in the cache has run only cacheable tasks of the app it is kept for. */
  lemma OneAppForLife(cfg: Settings, es: seq<Event>, w: nat)
    requires w in Run(cfg, es).pool.workers
    ensures var p := Run(cfg, es).pool; var o := p.workers[w];
      && (forall t, u | t in o.ran && u in o.ran :: t.app == u.app)
      && (w in p.idle ==> o.ran == [])
      && (w in p.cached ==> o.ran != [] && forall t | t in o.ran :: t.cacheable && o.appId == Some(t.app))
      && ((exists t :: t in o.ran && !t.cacheable) ==> w !in p.idle && w !in p.cached)
  {
    hide Run;
    RunOk(cfg, es);
    var p := Run(cfg, es).pool;
    assert OneApp(p.workers[w]);
  }

  // ----- results

  /** Every result went out under the task it is of, and that task was handed to the worker it came
      from; so the results of one worker are all of one application. */
  lemma ResultsAreAttributed(cfg: Settings, es: seq<Event>)
    ensures var s := Run(cfg, es);
      && (forall e | e in s.log :: e.task == Some(e.of) && e.w in s.pool.workers && e.of in s.pool.workers[e.w].ran)
      && (forall e, f | e in s.log && f in s.log && e.w == f.w :: e.of.app == f.of.app)
  {
    hide Run;
    RunOk(cfg, es);
    var s := Run(cfg, es);
    forall e, f | e in s.log && f in s.log && e.w == f.w ensures e.of.app == f.of.app {
      assert LoggedRight(s.pool, e) && LoggedRight(s.pool, f);
      assert OneApp(s.pool.workers[e.w]);
    }
  }

  /** When 'idling' is the next message of a worker, its task has been reported, as often as is due. */
  lemma ReleasedAfterReport(cfg: Settings, es: seq<Event>, w: nat)
    requires var s := Run(cfg, es);
      w in s.pool.workers && Proc(s, w).outbox != [] && Proc(s, w).outbox[0] == Idling
    ensures var s := Run(cfg, es); var o := s.pool.workers[w];
      && o.task.Some? && o.reports == Due(Proc(s, w).succeeded)
      && Emission(w, o.task, o.task.value) in s.log
  {
    hide Run, Flow;
    RunOk(cfg, es);
    var s := Run(cfg, es);
    assert Flow(At(s.pool, w), Proc(s, w));
    HeadIs(s.pool.workers[w], Proc(s, w));
  }

  // ----- how often a task is reported

  /** The event ends an execution in the process of `w`: with a first send that went out, or in the catch
      branch. */
  predicate EndsExecution(s: State, e: Event, w: nat) {
    && e.ProcessMoves? && e.w == w && w in s.pool.workers && !s.pool.workers[w].exited
    && Proc(s, w).stage.Executing? && (e.move.Executed? || e.move.Failed?)
  }

  /** Whether the last execution in the process of `w` succeeded, read off the events of the run. */
  function LastSucceeded(cfg: Settings, es: seq<Event>, w: nat): bool {
    if es == [] then false
    else
      var before, e := es[..|es| - 1], es[|es| - 1];
      if EndsExecution(Run(cfg, before), e, w) then e.move.Executed? else LastSucceeded(cfg, before, w)
  }

  lemma ReadyProcs(cfg: Settings, s: State)
    ensures OnReady(cfg, s).procs == s.procs
  {
  }

  lemma AttemptSucceeded(cfg: Settings, s: State, c: nat, w: nat)
    requires c < |s.chains| && s.chains[c].Awaiting?
    ensures Proc(Attempt(cfg, s, c), w).succeeded == Proc(s, w).succeeded
  {
    hide HandOff, MakeRoom;
  }

  lemma TaskSucceeded(cfg: Settings, s: State, c: nat, task: Task, outdated: bool, w: nat)
    requires IsGetting(s, c)
    ensures Proc(OnTask(cfg, s, c, task, outdated), w).succeeded == Proc(s, w).succeeded
  {
    hide OnReady, Attempt, RateLimitReached;
    ReadyProcs(cfg, Ended(Returned(s, c, Over), c, s.chains[c].q, true));
    AttemptSucceeded(cfg, Admit(cfg, s, c, task), c, w);
  }

  lemma MoveSucceeded(cfg: Settings, s: State, w: nat, move: Move, x: nat)
    ensures Proc(Step(cfg, s, ProcessMoves(w, move)), x).succeeded ==
            if EndsExecution(s, ProcessMoves(w, move), x) then move.Executed? else Proc(s, x).succeeded
  {
  }

  lemma StepSucceeded(cfg: Settings, s: State, e: Event, w: nat)
    ensures Proc(Step(cfg, s, e), w).succeeded ==
            if EndsExecution(s, e, w) then e.move.Executed? else Proc(s, w).succeeded
  {
    hide OnReady, OnTask, OnMove, Attempt, Started, Kill, Exited, KillAllAppWorkers, IdlingFrom;
    match e
    case Ready => ReadyProcs(cfg, s);
    case TaskArrives(c, task, outdated) => if IsGetting(s, c) { TaskSucceeded(cfg, s, c, task, outdated, w); }
    case GetFails(c) =>
      if IsGetting(s, c) { ReadyProcs(cfg, Ended(Returned(s, c, Over), c, s.chains[c].q, true)); }
    case PushEnds(c) =>
      if c < |s.chains| && s.chains[c].PushingBack? { ReadyProcs(cfg, Ended(s, c, s.chains[c].q, true)); }
    case Retry(c) => if c < |s.chains| && s.chains[c].Awaiting? { AttemptSucceeded(cfg, s, c, w); }
    case ProcessMoves(x, move) => MoveSucceeded(cfg, s, x, move, w);
    case _ =>
  }

  lemma {:induction false} SucceededIs(cfg: Settings, es: seq<Event>, w: nat)
    ensures Proc(Run(cfg, es), w).succeeded == LastSucceeded(cfg, es, w)
  {
    if es == [] {
      hide KeepMinIdle;
    } else {
      hide Step, EndsExecution, Start;
      SucceededIs(cfg, es[..|es| - 1], w);
      StepSucceeded(cfg, Run(cfg, es[..|es| - 1]), es[|es| - 1], w);
    }
  }

  /** In every run, when a worker is about to be released, its task has been reported twice if its
      execution succeeded and once if it failed: never exactly once for a success. */
  lemma ReportsPerTask(cfg: Settings, es: seq<Event>, w: nat)
    requires var s := Run(cfg, es);
      w in s.pool.workers && Proc(s, w).outbox != [] && Proc(s, w).outbox[0] == Idling
    ensures Run(cfg, es).pool.workers[w].reports == if LastSucceeded(cfg, es, w) then 2 else 1
  {
    hide Run, LastSucceeded;
    ReleasedAfterReport(cfg, es, w);
    SucceededIs(cfg, es, w);
  }

  /** 'idling' never finds a worker without a task, no getter is popped from an empty array, and no
      process starts a task over another one. */
  lemma NoFaults(cfg: Settings, es: seq<Event>)
    ensures Run(cfg, es).faults == 0
  {
    hide Run;
    RunOk(cfg, es);
  }

  // ----- getter clients

  /** The clients in the pool and the getTask calls in progress add up to `gettersCount`, no two calls
      share a client, and one is at hand for every queue that has no request pending. */
  lemma GettersSuffice(cfg: Settings, es: seq<Event>)
    ensures var s := Run(cfg, es);
      && |s.getters| + Tally(s.chains, InGetTask) == GettersCount(cfg)
      && (forall c: nat, d: nat | c < |s.chains| && d < |s.chains| && s.chains[c].Getting? && s.chains[d].Getting? ::
            s.chains[c].client == s.chains[d].client ==> c == d)
      && (Main !in s.slots ==> s.getters != [])
      && (LowPriority !in s.slots && UsesLowQueue(cfg) ==> s.getters != [])
  {
    hide Run, Tally;
    RunOk(cfg, es);
    var s := Run(cfg, es);
    if Main !in s.slots { GetterAtHand(cfg, s, Main); }
    if LowPriority !in s.slots && UsesLowQueue(cfg) { GetterAtHand(cfg, s, LowPriority); }
    forall c: nat, d: nat | c < d < |s.chains| && s.chains[c].Getting? && s.chains[d].Getting?
      ensures s.chains[c].client != s.chains[d].client
    {
      var g := s.chains[c].client;
      assert multiset(s.getters)[g] + Tally(s.chains, With(g)) <= 1;
      if g == s.chains[d].client {
        TallyTwo(s.chains, c, d, With(g));
      }
    }
  }

  lemma {:induction false} TallyTwo(s: seq<Chain>, c: nat, d: nat, k: Kind)
    requires c < d < |s| && Is(s[c], k) && Is(s[d], k)
    ensures Tally(s, k) >= 2
  {
    if c > 0 {
      TallyTwo(s[1..], c - 1, d - 1, k);
    } else {
      TallyAt(s[1..], d - 1, k);
    }
  }

  // ----- admission

  /** The largest number of request chains alive at once in a run. */
  function MostChains(cfg: Settings, es: seq<Event>): nat {
    if es == [] then 0
    else Max(MostChains(cfg, es[..|es| - 1]), Tally(Run(cfg, es).chains, Alive))
  }

  lemma BeginPeak(s: State, q: Queue)
    requires Tally(s.chains, Alive) <= s.peak
    ensures Begin(s, q).peak == Max(s.peak, Tally(Begin(s, q).chains, Alive))
    ensures Tally(Begin(s, q).chains, Alive) >= Tally(s.chains, Alive)
  {
    if q !in s.slots && s.getters != [] {
      Appended(s.chains, Getting(q, s.getters[|s.getters| - 1]));
    }
  }

  lemma ReadyPeak(cfg: Settings, s: State)
    requires Tally(s.chains, Alive) <= s.peak
    ensures OnReady(cfg, s).peak == Max(s.peak, Tally(OnReady(cfg, s).chains, Alive))
  {
    BeginPeak(s, Main);
    BeginPeak(s, LowPriority);
    BeginPeak(Begin(s, Main), LowPriority);
    hide Begin, LoadBelow, Available;
  }

  lemma EndedPeak(s: State, c: nat, q: Queue, frees: bool)
    requires c < |s.chains|
    ensures Tally(Ended(s, c, q, frees).chains, Alive) <= Tally(s.chains, Alive)
    ensures Ended(s, c, q, frees).peak == s.peak
  {
    Updated(s.chains, c, Over);
  }

  lemma ReturnedPeak(s: State, c: nat, x: Chain)
    requires IsGetting(s, c)
    ensures Tally(Returned(s, c, x).chains, Alive) <= Tally(s.chains, Alive)
    ensures Returned(s, c, x).peak == s.peak
  {
    Updated(s.chains, c, x);
  }

  lemma AttemptPeak(cfg: Settings, s: State, c: nat)
    requires c < |s.chains| && s.chains[c].Awaiting?
    ensures Tally(Attempt(cfg, s, c).chains, Alive) <= Tally(s.chains, Alive)
    ensures Attempt(cfg, s, c).peak == s.peak
  {
    hide HandOff, MakeRoom;
    var o := s.chains[c];
    match HandOff(cfg.cfg, s.pool, o.task)
    case Some(r) => EndedPeak(s, c, o.q, !o.early);
    case None => Updated(s.chains, c, o.(w := MakeRoom(cfg.cfg, s.pool).nextId));
  }

  lemma TaskPeak(cfg: Settings, s: State, c: nat, task: Task, outdated: bool)
    requires IsGetting(s, c) && Tally(s.chains, Alive) <= s.peak
    ensures var s' := OnTask(cfg, s, c, task, outdated); s'.peak == Max(s.peak, Tally(s'.chains, Alive))
  {
    hide OnReady, Attempt, RateLimitReached;
    var q := s.chains[c].q;
    if outdated {
      ReturnedPeak(s, c, Over);
      EndedPeak(Returned(s, c, Over), c, q, true);
      ReadyPeak(cfg, Ended(Returned(s, c, Over), c, q, true));
    } else if RateLimitReached(cfg.cfg, s.pool, task.app) {
      ReturnedPeak(s, c, PushingBack(q));
    } else {
      var x := Admit(cfg, s, c, task);
      ReturnedPeak(s, c, x.chains[c]);
      AttemptPeak(cfg, x, c);
    }
  }

  lemma StepPeak(cfg: Settings, s: State, e: Event)
    requires Tally(s.chains, Alive) <= s.peak
    ensures var s' := Step(cfg, s, e); s'.peak == Max(s.peak, Tally(s'.chains, Alive))
  {
    hide OnReady, OnTask, Attempt, Tally;
    match e
    case Ready => ReadyPeak(cfg, s);
    case TaskArrives(c, task, outdated) => if IsGetting(s, c) { TaskPeak(cfg, s, c, task, outdated); }
    case GetFails(c) =>
      if IsGetting(s, c) {
        ReturnedPeak(s, c, Over);
        EndedPeak(Returned(s, c, Over), c, s.chains[c].q, true);
        ReadyPeak(cfg, Ended(Returned(s, c, Over), c, s.chains[c].q, true));
      }
    case PushEnds(c) =>
      if c < |s.chains| && s.chains[c].PushingBack? {
        EndedPeak(s, c, s.chains[c].q, true);
        ReadyPeak(cfg, Ended(s, c, s.chains[c].q, true));
      }
    case Retry(c) =>
      if c < |s.chains| && s.chains[c].Awaiting? { AttemptPeak(cfg, s, c); }
    case _ =>
  }

  lemma {:induction false} PeakIsMostChains(cfg: Settings, es: seq<Event>)
    ensures Run(cfg, es).peak == MostChains(cfg, es)
  {
    if es != [] {
      var before := es[..|es| - 1];
      RunOk(cfg, before);
      PeakIsMostChains(cfg, before);
      hide Step, Tally;
      StepPeak(cfg, Run(cfg, before), es[|es| - 1]);
    }
  }

  /** Busy workers and request chains not yet handed over exceed the limit by less than the largest
      number of chains there has been. */
  lemma AdmissionBound(cfg: Settings, es: seq<Event>)
    ensures var s := Run(cfg, es); var sum := |s.pool.busy| + Tally(s.chains, Alive);
      sum == 0 || sum <= cfg.cfg.limit - 1 + MostChains(cfg, es)
  {
    hide Run, Tally;
    RunOk(cfg, es);
    PeakIsMostChains(cfg, es);
  }

  /** The hand-overs pending for an app when the event admits one of its tasks, that one included. */
  function PendingOnAdmission(cfg: Settings, s: State, e: Event, app: App): nat {
    if e.TaskArrives? && IsGetting(s, e.c) && !e.outdated && e.task.app == app
       && !RateLimitReached(cfg.cfg, s.pool, app)
    then Tally(s.chains, For(app)) + 1 else 0
  }

  /** The largest number of hand-overs pending for an app at one of its admissions in a run. */
  function MostPending(cfg: Settings, es: seq<Event>, app: App): nat {
    if es == [] then 0
    else
      var before := es[..|es| - 1];
      Max(MostPending(cfg, before, app), PendingOnAdmission(cfg, Run(cfg, before), es[|es| - 1], app))
  }

  lemma ReadyPeaks(cfg: Settings, s: State)
    ensures OnReady(cfg, s).peaks == s.peaks
  {
  }

  lemma AttemptPeaks(cfg: Settings, s: State, c: nat)
    requires c < |s.chains| && s.chains[c].Awaiting?
    ensures Attempt(cfg, s, c).peaks == s.peaks
  {
    hide HandOff, MakeRoom;
  }

  lemma AdmitPeaks(cfg: Settings, s: State, c: nat, task: Task, app: App)
    requires IsGetting(s, c)
    ensures |Admit(cfg, s, c, task).chains| == |s.chains| && Admit(cfg, s, c, task).chains[c].Awaiting?
    ensures Peak(Admit(cfg, s, c, task), app) ==
            Max(Peak(s, app), if task.app == app then Tally(s.chains, For(app)) + 1 else 0)
  {
    var q := s.chains[c].q;
    Updated(s.chains, c, Awaiting(q, task, Available(cfg.cfg, s.pool) > 2, 0));
    hide Tally;
  }

  lemma StepPeaks(cfg: Settings, s: State, e: Event, app: App)
    ensures Peak(Step(cfg, s, e), app) == Max(Peak(s, app), PendingOnAdmission(cfg, s, e, app))
  {
    hide OnReady, Attempt, RateLimitReached, Started, Kill, Exited, KillAllAppWorkers, IdlingFrom, Admit, Tally;
    match e
    case Ready => ReadyPeaks(cfg, s);
    case TaskArrives(c, task, outdated) =>
      if IsGetting(s, c) {
        ReadyPeaks(cfg, Ended(Returned(s, c, Over), c, s.chains[c].q, true));
        AdmitPeaks(cfg, s, c, task, app);
        AttemptPeaks(cfg, Admit(cfg, s, c, task), c);
      }
    case GetFails(c) =>
      if IsGetting(s, c) { ReadyPeaks(cfg, Ended(Returned(s, c, Over), c, s.chains[c].q, true)); }
    case PushEnds(c) =>
      if c < |s.chains| && s.chains[c].PushingBack? { ReadyPeaks(cfg, Ended(s, c, s.chains[c].q, true)); }
    case Retry(c) => if c < |s.chains| && s.chains[c].Awaiting? { AttemptPeaks(cfg, s, c); }
    case _ =>
  }

  lemma {:induction false} PeakIsMostPending(cfg: Settings, es: seq<Event>, app: App)
    ensures Peak(Run(cfg, es), app) == MostPending(cfg, es, app)
  {
    if es == [] {
      hide KeepMinIdle;
    } else {
      hide Step, PendingOnAdmission, Start;
      PeakIsMostPending(cfg, es[..|es| - 1], app);
      StepPeaks(cfg, Run(cfg, es[..|es| - 1]), es[|es| - 1], app);
    }
  }

  /** The same for one app: its busy workers and its tasks waiting for a worker exceed its rate limit by
      less than the largest number of such tasks there has been at an admission. */
  lemma RateBound(cfg: Settings, es: seq<Event>, app: App)
    requires cfg.cfg.rateEnabled
    ensures var s := Run(cfg, es); var sum := Load(s.pool, Some(app)) + Tally(s.chains, For(app));
      && Tally(s.chains, For(app)) <= MostPending(cfg, es, app)
      && (sum <= 0
          || sum <= (if Limit(cfg.cfg, app) > 1 then Limit(cfg.cfg, app) else 1) - 1 + MostPending(cfg, es, app))
  {
    hide Run, Tally, Limit, MostPending;
    RunOk(cfg, es);
    assert RateOf(cfg, Run(cfg, es), app);
    PeakIsMostPending(cfg, es, app);
  }

  // ----- marked workers

  /** A mark stays; a marked worker does not come back to the cache; and each task it is still given
      counts against the one it may be given. */
  ghost predicate MarksKept(p: Pool, p': Pool) {
    && p.workers.Keys <= p'.workers.Keys
    && forall w | w in p.workers && p.workers[w].toBeRemoved :: MarkKept(p, p', w)
  }

  ghost predicate MarkKept(p: Pool, p': Pool, w: nat)
    requires w in p.workers && w in p'.workers
  {
    && p'.workers[w].toBeRemoved && (w in p'.cached ==> w in p.cached)
    && |p'.workers[w].ran| - |p.workers[w].ran| == p'.workers[w].afterMark - p.workers[w].afterMark
  }

  lemma FadedMarks(p: Pool, p': Pool)
    requires Faded(p, p')
    ensures MarksKept(p, p')
  {
    forall w | w in p.workers && p.workers[w].toBeRemoved ensures MarkKept(p, p', w) {
      assert SameTask(At(p, w), At(p', w));
    }
  }

  lemma HandedMarks(cfg: Config, p: Pool, p': Pool, w: nat, task: Task)
    requires HandedTo(cfg, p, p', w, task)
    ensures MarksKept(p, p')
  {
    forall x | x in p.workers && p.workers[x].toBeRemoved ensures MarkKept(p, p', x) {
      if x != w { assert SameTask(At(p, x), At(p', x)); }
    }
  }

  lemma IdlingMarks(cfg: Config, p: Pool, w: nat)
    requires PoolOk(p) && w in p.workers && p.workers[w].task.Some?
    ensures MarksKept(p, IdlingFrom(cfg, p, w))
  {
    hide IdlingFrom, PoolOk, Load;
    IdlingFrame(cfg, p, w);
    var p' := IdlingFrom(cfg, p, w);
    forall x | x in p.workers && p.workers[x].toBeRemoved ensures MarkKept(p, p', x) {
      if x != w { assert SameTask(At(p, x), At(p', x)); }
    }
  }

  lemma AttemptMarks(cfg: Settings, s: State, c: nat)
    requires PoolOk(s.pool) && c < |s.chains| && s.chains[c].Awaiting?
    ensures MarksKept(s.pool, Attempt(cfg, s, c).pool)
  {
    hide PoolOk, HandOff, MakeRoom, HandedTo, Faded, Fork, MarksKept;
    var o := s.chains[c];
    match HandOff(cfg.cfg, s.pool, o.task)
    case Some(r) =>
      HandOffFrame(cfg.cfg, s.pool, o.task);
      HandedMarks(cfg.cfg, s.pool, r.0, r.1, o.task);
    case None =>
      var room := MakeRoom(cfg.cfg, s.pool);
      MakeRoomKeeps(cfg.cfg, s.pool);
      MakeRoomFades(cfg.cfg, s.pool);
      ForkFades(room);
      FadedTrans(s.pool, room, Fork(room));
      FadedMarks(s.pool, Fork(room));
  }

  lemma MessageMarks(cfg: Settings, s: State, w: nat)
    requires PoolOk(s.pool) && w in s.pool.workers && Proc(s, w).outbox != []
    ensures MarksKept(s.pool, OnMessage(cfg, s, w).pool)
  {
    hide PoolOk, IdlingFrom;
    if Proc(s, w).outbox[0].Idling? && s.pool.workers[w].task.Some? {
      IdlingMarks(cfg.cfg, s.pool, w);
    }
  }

  lemma MarksSame(p: Pool)
    ensures MarksKept(p, p)
  {
  }

  lemma PoolEventMarks(cfg: Settings, s: State, e: Event)
    requires PoolOk(s.pool)
    requires e.WorkerStarted? || e.TimerKills? || e.Redeployed? || e.WorkerExits? || e.LeavesCluster? || e.BrokerStops?
    ensures MarksKept(s.pool, Step(cfg, s, e).pool)
  {
    hide PoolOk, Faded, Started, Kill, Exited, KillAllAppWorkers, MarksKept;
    var p := s.pool;
    MarksSame(p);
    FadedSelf(p);
    match e {
      case WorkerStarted(w) => if w in p.booting && w in p.workers { StartedFades(cfg.cfg, p, w); }
      case TimerKills(w) => if w in p.workers { KillAnyFades(cfg.cfg, p, w); }
      case Redeployed(app) => KillAllFades(cfg.cfg, p, app);
      case WorkerExits(w, disconnected) => if w in p.workers { ExitedFades(cfg.cfg, p, w, disconnected); }
      case LeavesCluster(w) => FlagsFade(p, p.(cluster := p.cluster - {w}));
      case BrokerStops => FlagsFade(p, p.(stopping := true));
    }
    FadedMarks(p, Step(cfg, s, e).pool);
  }

  lemma ReadyPool(cfg: Settings, s: State)
    ensures OnReady(cfg, s).pool == s.pool
  {
  }

  lemma StepMarks(cfg: Settings, s: State, e: Event)
    requires PoolOk(s.pool)
    ensures MarksKept(s.pool, Step(cfg, s, e).pool)
  {
    MarksSame(s.pool);
    hide PoolOk, MarksKept;
    if e.WorkerStarted? || e.TimerKills? || e.Redeployed? || e.WorkerExits? || e.LeavesCluster? || e.BrokerStops? {
      hide *;
      PoolEventMarks(cfg, s, e);
    } else {
      hide OnReady, Attempt, OnMessage, RateLimitReached;
      match e
      case Ready => ReadyPool(cfg, s);
      case TaskArrives(c, task, outdated) =>
        if IsGetting(s, c) {
          ReadyPool(cfg, Ended(Returned(s, c, Over), c, s.chains[c].q, true));
          AttemptMarks(cfg, Admit(cfg, s, c, task), c);
        }
      case GetFails(c) =>
        if IsGetting(s, c) { ReadyPool(cfg, Ended(Returned(s, c, Over), c, s.chains[c].q, true)); }
      case PushEnds(c) =>
        if c < |s.chains| && s.chains[c].PushingBack? { ReadyPool(cfg, Ended(s, c, s.chains[c].q, true)); }
      case Retry(c) => if c < |s.chains| && s.chains[c].Awaiting? { AttemptMarks(cfg, s, c); }
      case Delivered(w) => if w in s.pool.workers && Proc(s, w).outbox != [] { MessageMarks(cfg, s, w); }
      case _ =>
    }
  }

  lemma MarkTrans(p: Pool, q: Pool, r: Pool, w: nat)
    requires w in p.workers && p.workers[w].toBeRemoved && w in q.workers && MarkKept(p, q, w) && MarksKept(q, r)
    ensures w in r.workers && MarkKept(p, r, w)
  {
    assert MarkKept(q, r, w);
  }

  lemma RunStep(cfg: Settings, es: seq<Event>, e: Event)
    ensures Run(cfg, es + [e]) == Step(cfg, Run(cfg, es), e)
  {
    hide Step;
    assert (es + [e])[..|es + [e]| - 1] == es;
  }

  lemma {:induction false} MarksKeptBy(cfg: Settings, es: seq<Event>, more: seq<Event>, w: nat)
    requires w in Run(cfg, es).pool.workers && Run(cfg, es).pool.workers[w].toBeRemoved
    ensures var p, p' := Run(cfg, es).pool, Run(cfg, es + more).pool;
      w in p'.workers && MarkKept(p, p', w)
  {
    if more == [] {
      hide Run;
      assert es + more == es;
    } else {
      hide Run, Step, Inv, MarkKept, MarksKept;
      var less := more[..|more| - 1];
      MarksKeptBy(cfg, es, less, w);
      assert es + more == (es + less) + [more[|more| - 1]];
      RunStep(cfg, es + less, more[|more| - 1]);
      RunOk(cfg, es + less);
      InvPool(cfg, Run(cfg, es + less));
      hide PoolOk;
      StepMarks(cfg, Run(cfg, es + less), more[|more| - 1]);
      MarkTrans(Run(cfg, es).pool, Run(cfg, es + less).pool, Run(cfg, es + more).pool, w);
    }
  }

  /** Once a worker is marked, by a critical error or a redeployment, it stays marked, never enters the
      cache again and is given at most one more task. */
  lemma MarkedForGood(cfg: Settings, es: seq<Event>, more: seq<Event>, w: nat)
    requires w in Run(cfg, es).pool.workers && Run(cfg, es).pool.workers[w].toBeRemoved
    ensures var p, p' := Run(cfg, es).pool, Run(cfg, es + more).pool;
      && w in p'.workers && p'.workers[w].toBeRemoved
      && (w in p'.cached ==> w in p.cached)
      && |p'.workers[w].ran| <= |p.workers[w].ran| + 1
  {
    hide Run;
    MarksKeptBy(cfg, es, more, w);
    RunOk(cfg, es + more);
    assert OneApp(Run(cfg, es + more).pool.workers[w]);
  }

  /** A redeployment in any run leaves no worker of the app unmarked whose process has not exited, pooled
      or not; of the others it marks exactly those the cluster still lists. */
  lemma RedeployedMarks(cfg: Settings, es: seq<Event>, app: Option<App>, w: nat)
    requires IsOf(Run(cfg, es).pool.workers, w, app)
    ensures var p, p' := Run(cfg, es).pool, Run(cfg, es + [Redeployed(app)]).pool;
      && w in p'.workers
      && (!p.workers[w].exited ==> p'.workers[w].toBeRemoved)
      && (p'.workers[w].toBeRemoved <==> p.workers[w].toBeRemoved || w in p.cluster)
  {
    hide Run, Inv, PoolOk, KillAllAppWorkers;
    RunStep(cfg, es, Redeployed(app));
    RunOk(cfg, es);
    InvPool(cfg, Run(cfg, es));
    RedeployMarks(cfg.cfg, Run(cfg, es).pool, app, w);
  }
}
