/** The whole code runner as a state machine: the master's request chains, the getter clients of the
    messages broker, the worker pools, the worker processes and the channels between them.  An event
    that cannot happen in a state changes nothing. */
module RunnerSystem {
  import opened Options
  import opened WorkerPool
  import opened CloudWorkerProcess
  import opened TaskRequests

  datatype Settings = Settings(cfg: Config, threshold: real)

  /** TASK_PROCESSED: the task the broker has on record, and the one the result is of. */
  datatype Emission = Emission(w: nat, task: Option<Task>, of: Task)

  /** `faults` counts the TypeErrors of the source that the theorems rule out: 'idling' from a worker
      without a task, a getter popped from an empty array, and a task started over another one.
      `peak` and `peaks` are the largest numbers of chains alive and of hand-overs pending so far. */
  datatype State = State(
    pool: Pool,
    procs: map<nat, Process>,
    chains: seq<Chain>,
    slots: set<Queue>,
    getters: seq<nat>,
    stopped: bool,
    log: seq<Emission>,
    faults: nat,
    peak: nat,
    peaks: map<App, nat>)

  datatype Event =
    | Ready
    | TaskArrives(c: nat, task: Task, outdated: bool)
    | GetFails(c: nat)
    | PushEnds(c: nat)
    | Retry(c: nat)
    | WorkerStarted(w: nat)
    | TimerKills(w: nat)
    | Redeployed(app: Option<App>)
    | WorkerExits(w: nat, disconnected: bool)
    | LeavesCluster(w: nat)
    | ProcessMoves(w: nat, move: Move)
    | Delivered(w: nat)
    | MasterStops
    | BrokerStops

  function GettersCount(cfg: Settings): nat {
    if cfg.threshold != 0.0 then 2 else 1
  }

  function Clients(n: nat): seq<nat> {
    seq(n, i => i)
  }

  function Start(cfg: Settings): State {
    State(KeepMinIdle(cfg.cfg, Pool([], [], [], map[], 0, map[], {}, {}, 0, 0, false)),
          map[], [], {}, Clients(GettersCount(cfg)), false, [], 0, 0, map[])
  }

  function Proc(s: State, w: nat): Process {
    if w in s.procs then s.procs[w] else NewProcess
  }

  function Peak(s: State, app: App): nat {
    if app in s.peaks then s.peaks[app] else 0
  }

  // ----- the master

  function Max(a: nat, b: nat): (m: nat)
    ensures m >= a && m >= b && m in {a, b}
  {
    if a >= b then a else b
  }

  /** waitAndProcessNextTask up to the wait in getTask. */
  function Begin(s: State, q: Queue): State {
    if q in s.slots then s
    else if s.getters == [] then s.(faults := s.faults + 1)
    else
      var chains := s.chains + [Getting(q, s.getters[|s.getters| - 1])];
      s.(chains := chains, slots := s.slots + {q}, getters := s.getters[..|s.getters| - 1],
         peak := Max(s.peak, Tally(chains, Alive)))
  }

  predicate LoadBelow(cfg: Settings, p: Pool) {
    cfg.cfg.limit > 0 && cfg.threshold > |p.busy| as real / cfg.cfg.limit as real
  }

  function OnReady(cfg: Settings, s: State): State {
    if s.stopped then s
    else
      var s1 := if Available(cfg.cfg, s.pool) > 0 then Begin(s, Main) else s;
      if cfg.threshold != 0.0 && LoadBelow(cfg, s.pool) && Available(cfg.cfg, s.pool) > 1
      then Begin(s1, LowPriority) else s1
  }

  predicate IsGetting(s: State, c: nat) {
    c < |s.chains| && s.chains[c].Getting?
  }

  /** The getter client goes back when getTask has ended, whatever came of it. */
  function Returned(s: State, c: nat, next: Chain): State
    requires IsGetting(s, c)
  {
    s.(getters := s.getters + [s.chains[c].client], chains := s.chains[c := next])
  }

  /** A chain is over; `frees` when it still stands for its queue. */
  function Ended(s: State, c: nat, q: Queue, frees: bool): State
    requires c < |s.chains|
  {
    s.(chains := s.chains[c := Over], slots := if frees then s.slots - {q} else s.slots)
  }

  /** getWorkerForTask and, when it finds a worker at once, processTask. */
  function Attempt(cfg: Settings, s: State, c: nat): State
    requires c < |s.chains| && s.chains[c].Awaiting?
  {
    var o := s.chains[c];
    match HandOff(cfg.cfg, s.pool, o.task)
    case Some(r) => Dispatched(Ended(s, c, o.q, !o.early), r.0, r.1)
    case None =>
      var room := MakeRoom(cfg.cfg, s.pool);
      s.(pool := Fork(room), chains := s.chains[c := o.(w := room.nextId)])
  }

  /** `worker.process.send({ task })` */
  function Dispatched(s: State, p: Pool, w: nat): State {
    if w in p.workers && p.workers[w].task.Some?
    then s.(pool := p, procs := s.procs[w := Proc(s, w).(inbox := Proc(s, w).inbox + [p.workers[w].task.value])])
    else s.(pool := p)
  }

  /** A task neither outdated nor over its app's rate limit. */
  function Admit(cfg: Settings, s: State, c: nat, task: Task): State
    requires IsGetting(s, c)
  {
    var q := s.chains[c].q;
    var early := Available(cfg.cfg, s.pool) > 2;
    var s1 := Returned(s, c, Awaiting(q, task, early, 0));
    s1.(slots := if early then s.slots - {q} else s.slots,
        peaks := s.peaks[task.app := Max(Peak(s, task.app), Tally(s1.chains, For(task.app)))])
  }

  function OnTask(cfg: Settings, s: State, c: nat, task: Task, outdated: bool): State
    requires IsGetting(s, c)
  {
    var q := s.chains[c].q;
    if outdated then OnReady(cfg, Ended(Returned(s, c, Over), c, q, true))
    else if RateLimitReached(cfg.cfg, s.pool, task.app) then Returned(s, c, PushingBack(q))
    else Attempt(cfg, Admit(cfg, s, c, task), c)
  }

  // ----- messages

  function OnMessage(cfg: Settings, s: State, w: nat): State
    requires w in s.pool.workers && Proc(s, w).outbox != []
  {
    var m := Proc(s, w).outbox[0];
    var o := s.pool.workers[w];
    var s1 := s.(procs := s.procs[w := Proc(s, w).(outbox := Proc(s, w).outbox[1..])]);
    match m
    case Processed(of) => s1.(log := s.log + [Emission(w, o.task, of)], pool := ReportFrom(s.pool, w))
    case CriticalErrorMessage => s1.(pool := CriticalErrorFrom(s.pool, w))
    case Idling => if o.task.Some? then s1.(pool := IdlingFrom(cfg.cfg, s.pool, w)) else s1.(faults := s.faults + 1)
    case Heartbeat => s1
  }

  function OnMove(s: State, w: nat, move: Move): State {
    s.(procs := s.procs[w := Advance(Proc(s, w), move)],
       faults := if Overlaps(Proc(s, w), move) then s.faults + 1 else s.faults)
  }

  // ----- runs

  function Step(cfg: Settings, s: State, e: Event): State {
    match e
    case Ready => OnReady(cfg, s)
    case TaskArrives(c, task, outdated) => if IsGetting(s, c) then OnTask(cfg, s, c, task, outdated) else s
    case GetFails(c) =>
      if IsGetting(s, c) then OnReady(cfg, Ended(Returned(s, c, Over), c, s.chains[c].q, true)) else s
    case PushEnds(c) =>
      if c < |s.chains| && s.chains[c].PushingBack? then OnReady(cfg, Ended(s, c, s.chains[c].q, true)) else s
    case Retry(c) =>
      if c < |s.chains| && s.chains[c].Awaiting? && s.chains[c].w !in s.pool.booting then Attempt(cfg, s, c) else s
    case WorkerStarted(w) =>
      if w in s.pool.booting && w in s.pool.workers then s.(pool := Started(cfg.cfg, s.pool, w)) else s
    case TimerKills(w) => if w in s.pool.workers then s.(pool := Kill(cfg.cfg, s.pool, w)) else s
    case Redeployed(app) => s.(pool := KillAllAppWorkers(cfg.cfg, s.pool, app))
    case WorkerExits(w, disconnected) =>
      if w in s.pool.workers && !s.pool.workers[w].exited
      then s.(pool := Exited(cfg.cfg, s.pool, w, disconnected)) else s
    case LeavesCluster(w) =>
      if w in s.pool.workers && s.pool.workers[w].exited
      then s.(pool := s.pool.(cluster := s.pool.cluster - {w})) else s
    case ProcessMoves(w, move) =>
      if w in s.pool.workers && !s.pool.workers[w].exited then OnMove(s, w, move) else s
    case Delivered(w) => if w in s.pool.workers && Proc(s, w).outbox != [] then OnMessage(cfg, s, w) else s
    case MasterStops => s.(stopped := true)
    case BrokerStops => s.(pool := s.pool.(stopping := true))
  }

  function Run(cfg: Settings, es: seq<Event>): State {
    if es == [] then Start(cfg) else Step(cfg, Run(cfg, es[..|es| - 1]), es[|es| - 1])
  }
}
