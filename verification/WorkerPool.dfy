/** The worker pools of lib/server-code/runners/cloud-workers-broker.js as values: what each
    operation makes of the three pools, the load counters and the workers' fields. */
module WorkerPool {
  import opened Options

  type App = string

  datatype Task = Task(id: nat, app: App, cacheable: bool)

  /** `currentPlace`: the pool array a worker is filed under, or undefined. */
  datatype Place = Nowhere | Idle | Cached | Busy

  /** The fields the broker sets on a worker.  The last five are bookkeeping the theorems speak
      about: whether its process has exited, the tasks handed to it, since when it has been waiting in
      the idle or the cached pool, the tasks it was handed after it was marked, and the results it has
      reported for its present task. */
  datatype Worker = Worker(
    appId: Option<App>,
    place: Place,
    task: Option<Task>,
    toBeRemoved: bool,
    killed: bool,
    exited: bool,
    ran: seq<Task>,
    waitsSince: nat,
    afterMark: nat,
    reports: nat)

  datatype Config = Config(
    limit: nat,
    cachedLimit: nat,
    minIdle: nat,
    rateEnabled: bool,
    rateDefault: int,
    rateOverrides: map<App, int>)

  /** `cluster` is the key set of cluster.workers; `booting` the workers whose 'started' is awaited. */
  datatype Pool = Pool(
    idle: seq<nat>,
    cached: seq<nat>,
    busy: seq<nat>,
    appsLoad: map<Option<App>, int>,
    starting: int,
    workers: map<nat, Worker>,
    cluster: set<nat>,
    booting: set<nat>,
    nextId: nat,
    clock: nat,
    stopping: bool)

  const NewWorker := Worker(None, Nowhere, None, false, false, false, [], 0, 0, 0)

  function Limit(cfg: Config, app: App): int {
    if app in cfg.rateOverrides && cfg.rateOverrides[app] != 0 then cfg.rateOverrides[app]
    else cfg.rateDefault
  }

  /** isAppRateLimitReached: an app that never ran a task has no counter and is never stopped. */
  predicate RateLimitReached(cfg: Config, p: Pool, app: App) {
    cfg.rateEnabled && Some(app) in p.appsLoad && p.appsLoad[Some(app)] >= Limit(cfg, app)
  }

  predicate CacheEnabled(cfg: Config) {
    cfg.cachedLimit != 0
  }

  function Available(cfg: Config, p: Pool): int {
    cfg.limit - |p.busy|
  }

  // ----- starting workers

  /** cluster.fork in startNewWorker. */
  function Fork(p: Pool): Pool {
    p.(starting := p.starting + 1,
       workers := p.workers[p.nextId := NewWorker],
       cluster := p.cluster + {p.nextId},
       booting := p.booting + {p.nextId},
       nextId := p.nextId + 1)
  }

  function ForkMany(p: Pool, n: nat): Pool
    decreases n
  {
    if n == 0 then p else ForkMany(Fork(p), n - 1)
  }

  function Min(a: int, b: int): int {
    if a <= b then a else b
  }

  function Wanting(cfg: Config, p: Pool): int {
    Min(cfg.minIdle - |p.idle|, cfg.limit - |p.cluster|) - p.starting
  }

  function KeepMinIdle(cfg: Config, p: Pool): Pool {
    if Wanting(cfg, p) > 0 then ForkMany(p, Wanting(cfg, p)) else p
  }

  // ----- moving a worker

  /** `oldPlace.splice(oldPlace.indexOf(worker), 1)`, when it is there. */
  function Without(s: seq<nat>, w: nat): seq<nat> {
    if s == [] then [] else if s[0] == w then s[1..] else [s[0]] + Without(s[1..], w)
  }

  predicate Waits(place: Place) {
    place == Idle || place == Cached
  }

  function Load(p: Pool, app: Option<App>): int {
    if app in p.appsLoad then p.appsLoad[app] else 0
  }

  /** Taking `w` out of the pool it is filed under and putting it at the front of `to`. */
  function Moved(p: Pool, w: nat, to: Place): Pool
    requires w in p.workers
  {
    var from := p.workers[w].place;
    var idle := if from == Idle then Without(p.idle, w) else p.idle;
    var cached := if from == Cached then Without(p.cached, w) else p.cached;
    var busy := if from == Busy then Without(p.busy, w) else p.busy;
    p.(idle := if to == Idle then [w] + idle else idle,
       cached := if to == Cached then [w] + cached else cached,
       busy := if to == Busy then [w] + busy else busy,
       workers := p.workers[w := p.workers[w].(
         place := to,
         waitsSince := if Waits(to) then p.clock else p.workers[w].waitsSince)],
       clock := if Waits(to) then p.clock + 1 else p.clock)
  }

  function Counted(p: Pool, app: Option<App>, from: Place, to: Place): Pool {
    if from == Busy || to == Busy
    then p.(appsLoad := p.appsLoad[app := Load(p, app) + if to == Busy then 1 else -1])
    else p
  }

  function Relocate(cfg: Config, p: Pool, w: nat, to: Place): Pool
    requires w in p.workers
  {
    var from := p.workers[w].place;
    var p1 := Counted(Moved(p, w, to), p.workers[w].appId, from, to);
    if !p.stopping && (from == Idle || from == Busy || to == Busy) then KeepMinIdle(cfg, p1) else p1
  }

  /** The continuation of startNewWorker when 'started' has arrived. */
  function Started(cfg: Config, p: Pool, w: nat): Pool
    requires w in p.workers
  {
    var p1 := Relocate(cfg, p, w, Idle);
    p1.(starting := p1.starting - 1, booting := p1.booting - {w})
  }

  function Kill(cfg: Config, p: Pool, w: nat): Pool
    requires w in p.workers
  {
    var p1 := Relocate(cfg, p, w, Nowhere);
    if w in p1.workers then p1.(workers := p1.workers[w := p1.workers[w].(killed := true)]) else p1
  }

  /** cluster.on('exit'); `disconnected` when the channel was closed before, so that the cluster has just
      dropped the worker. */
  function Exited(cfg: Config, p: Pool, w: nat, disconnected: bool): Pool
    requires w in p.workers
  {
    var q := p.(workers := p.workers[w := p.workers[w].(exited := true)],
                cluster := if disconnected then p.cluster - {w} else p.cluster);
    if p.workers[w].killed then q else Relocate(cfg, q, w, Nowhere)
  }

  // ----- handing a task over

  /** The first cached worker of the app. */
  function FindCached(cached: seq<nat>, workers: map<nat, Worker>, app: App): Option<nat> {
    if cached == [] then None
    else if cached[0] in workers && workers[cached[0]].appId == Some(app) then Some(cached[0])
    else FindCached(cached[1..], workers, app)
  }

  function Assigned(cfg: Config, o: Worker, task: Task): Worker {
    var t := if CacheEnabled(cfg) then task else task.(cacheable := false);
    o.(task := Some(t), ran := o.ran + [t], reports := 0,
       afterMark := if o.toBeRemoved then o.afterMark + 1 else o.afterMark)
  }

  function ProcessTask(cfg: Config, p: Pool, w: nat, task: Task): Pool
    requires w in p.workers
  {
    Relocate(cfg, p.(workers := p.workers[w := Assigned(cfg, p.workers[w], task)]), w, Busy)
  }

  /** The cached worker getWorkerForTask would reuse. */
  function Hit(cfg: Config, p: Pool, app: App, cacheable: bool): Option<nat> {
    if CacheEnabled(cfg) && cacheable then FindCached(p.cached, p.workers, app) else None
  }

  /** After idleWorkers.pop(): a worker taken for a cacheable task belongs to the app from now on. */
  function Popped(p: Pool, w: nat, app: App, cacheable: bool): Pool
    requires p.idle != [] && w in p.workers
  {
    p.(idle := p.idle[..|p.idle| - 1],
       workers := if cacheable then p.workers[w := p.workers[w].(appId := Some(app))] else p.workers)
  }

  /** One pass of getWorkerForTask up to the point where it would have to start a worker, and the
      processTask that follows in the same turn of the event loop. */
  function HandOff(cfg: Config, p: Pool, task: Task): Option<(Pool, nat)> {
    var hit := Hit(cfg, p, task.app, task.cacheable);
    if hit.Some? && hit.value in p.workers then Some((ProcessTask(cfg, p, hit.value, task), hit.value))
    else if p.idle != [] && p.idle[|p.idle| - 1] in p.workers then
      var w := p.idle[|p.idle| - 1];
      Some((ProcessTask(cfg, Popped(p, w, task.app, task.cacheable), w, task), w))
    else None
  }

  /** What getWorkerForTask does before it waits for a new worker. */
  function MakeRoom(cfg: Config, p: Pool): Pool {
    if CacheEnabled(cfg) && cfg.cachedLimit <= |p.cached| && p.cached != []
       && p.cached[|p.cached| - 1] in p.workers
    then Kill(cfg, p.(cached := p.cached[..|p.cached| - 1]), p.cached[|p.cached| - 1])
    else p
  }

  // ----- redeployment

  function MarkAll(p: Pool, app: Option<App>): Pool {
    p.(workers := map w | w in p.workers ::
         if w in p.cluster && p.workers[w].appId == app then p.workers[w].(toBeRemoved := true) else p.workers[w])
  }

  /** `cachedWorkers.forEach` with the splices of killWorker under it: index k runs up to the length
      the array had at the start, over the array as it is by then. */
  function KillCached(cfg: Config, p: Pool, app: Option<App>, k: nat, len: nat): Pool
    requires k <= len
    decreases len - k
  {
    if k == len then p
    else if k < |p.cached| && p.cached[k] in p.workers && p.workers[p.cached[k]].appId == app
    then KillCached(cfg, Kill(cfg, p, p.cached[k]), app, k + 1, len)
    else KillCached(cfg, p, app, k + 1, len)
  }

  function KillAllAppWorkers(cfg: Config, p: Pool, app: Option<App>): Pool {
    var p1 := MarkAll(p, app);
    KillCached(cfg, p1, app, 0, |p1.cached|)
  }

  // ----- messages from a worker

  function CriticalErrorFrom(p: Pool, w: nat): Pool
    requires w in p.workers
  {
    p.(workers := p.workers[w := p.workers[w].(toBeRemoved := true)])
  }

  function ReportFrom(p: Pool, w: nat): Pool
    requires w in p.workers
  {
    p.(workers := p.workers[w := p.workers[w].(reports := p.workers[w].reports + 1)])
  }

  /** 'idling': a worker without a task is a TypeError in the source. */
  function IdlingFrom(cfg: Config, p: Pool, w: nat): Pool
    requires w in p.workers && p.workers[w].task.Some?
  {
    var o := p.workers[w];
    if o.task.value.cacheable && !o.toBeRemoved
    then Relocate(cfg, p.(workers := p.workers[w := o.(task := None)]), w, Cached)
    else Kill(cfg, p, w)
  }
}
