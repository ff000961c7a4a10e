/** The WorkersBroker class of lib/server-code/runners/cloud-workers-broker.js: pools that are spliced
    and unshifted in place, counters and worker fields updated by every event.  Each method is proved
    to take the state where WorkerPool says, and every event handler to keep PoolOk. */
module WorkersBroker {
  import opened Options
  import opened WorkerPool
  import opened PoolInvariants
  import opened PoolFrames
  import opened PoolLaws

  class WorkersBroker {
    const cfg: Config
    var idleWorkers: seq<nat>
    var cachedWorkers: seq<nat>
    var busyWorkers: seq<nat>
    var appsLoad: map<Option<App>, int>
    var startingWorkersCount: int
    var workers: map<nat, Worker>
    var cluster: set<nat>
    var booting: set<nat>
    var nextId: nat
    var clock: nat
    var stopper: bool

    ghost function View(): Pool
      reads this
    {
      Pool(idleWorkers, cachedWorkers, busyWorkers, appsLoad, startingWorkersCount,
           workers, cluster, booting, nextId, clock, stopper)
    }

    constructor (cfg: Config)
      ensures this.cfg == cfg
      ensures View() == KeepMinIdle(cfg, Pool([], [], [], map[], 0, map[], {}, {}, 0, 0, false))
      ensures Replenished(cfg, Pool([], [], [], map[], 0, map[], {}, {}, 0, 0, false), View())
      ensures PoolOk(View())
    {
      this.cfg := cfg;
      idleWorkers, cachedWorkers, busyWorkers := [], [], [];
      appsLoad := map[];
      startingWorkersCount := 0;
      workers := map[];
      cluster, booting := {}, {};
      nextId, clock := 0, 0;
      stopper := false;
      new;
      PoolStart();
      ghost var p := View();
      KeepMinIdleWorkersCount();
      KeepMinIdleExtends(cfg, p);
      ExtendsKeeps(p, View());
    }

    /** startNewWorker up to the point where it waits for 'started'. */
    method StartNewWorker() returns (w: nat)
      modifies this
      ensures View() == Fork(old(View())) && w == old(nextId)
      ensures WithNew(old(View()), View(), 1)
    {
      startingWorkersCount := startingWorkersCount + 1;
      w := nextId;
      workers := workers[w := NewWorker];
      cluster := cluster + {w};
      booting := booting + {w};
      nextId := nextId + 1;
    }

    method KeepMinIdleWorkersCount()
      modifies this
      ensures View() == KeepMinIdle(cfg, old(View()))
      ensures Replenished(cfg, old(View()), View())
    {
      hide Replenished;
      MinIdleLaw(cfg, View());
      var wantingWorkersCount := cfg.minIdle - |idleWorkers|;
      var allowedWorkersCount := cfg.limit - |cluster|;
      var requiredWorkersCount := Min(wantingWorkersCount, allowedWorkersCount) - startingWorkersCount;
      if requiredWorkersCount > 0 {
        ghost var p := View();
        for i := 0 to requiredWorkersCount
          invariant ForkMany(View(), requiredWorkersCount - i) == ForkMany(p, requiredWorkersCount)
        {
          var w := StartNewWorker();
        }
      }
    }

    /** `const index = oldPlace.indexOf(worker); if (index !== -1) oldPlace.splice(index, 1)` */
    static method Spliced(place: seq<nat>, w: nat) returns (rest: seq<nat>)
      ensures rest == Without(place, w)
    {
      var index := 0;
      while index < |place| && place[index] != w
        invariant index <= |place|
        invariant forall j | 0 <= j < index :: place[j] != w
      {
        index := index + 1;
      }
      WithoutAt(place, w, index);
      rest := if index < |place| then place[..index] + place[index + 1..] else place;
    }

    /** The part of relocateWorker that splices the worker out of one array and unshifts it into another. */
    method MoveWorker(w: nat, newPlace: Place)
      requires w in workers
      modifies `idleWorkers, `cachedWorkers, `busyWorkers, `workers, `clock
      ensures View() == Moved(old(View()), w, newPlace)
    {
      hide Without;
      var worker := workers[w];
      var oldPlace := worker.place;
      if oldPlace == Idle {
        idleWorkers := Spliced(idleWorkers, w);
      } else if oldPlace == Cached {
        cachedWorkers := Spliced(cachedWorkers, w);
      } else if oldPlace == Busy {
        busyWorkers := Spliced(busyWorkers, w);
      }
      var waitsSince := if Waits(newPlace) then clock else worker.waitsSince;
      workers := workers[w := worker.(place := newPlace, waitsSince := waitsSince)];
      if newPlace == Idle {
        idleWorkers := [w] + idleWorkers;
        clock := clock + 1;
      } else if newPlace == Cached {
        cachedWorkers := [w] + cachedWorkers;
        clock := clock + 1;
      } else if newPlace == Busy {
        busyWorkers := [w] + busyWorkers;
      }
    }

    method RelocateWorker(w: nat, newPlace: Place)
      requires w in workers
      modifies this
      ensures View() == Relocate(cfg, old(View()), w, newPlace)
      ensures RelocatedTo(cfg, old(View()), View(), w, newPlace)
    {
      hide RelocatedTo, Replenished;
      RelocateLaw(cfg, View(), w, newPlace);
      var worker := workers[w];
      var oldPlace := worker.place;
      MoveWorker(w, newPlace);
      hide Moved, KeepMinIdle;
      if oldPlace == Busy || newPlace == Busy {
        var load := if worker.appId in appsLoad then appsLoad[worker.appId] else 0;
        appsLoad := appsLoad[worker.appId := load + if newPlace == Busy then 1 else -1];
      }
      if !stopper && (oldPlace == Idle || oldPlace == Busy || newPlace == Busy) {
        KeepMinIdleWorkersCount();
      }
    }

    /** The rest of startNewWorker, when 'started' has arrived. */
    method OnWorkerStarted(w: nat)
      requires PoolOk(View()) && w in booting
      modifies this
      ensures View() == Started(cfg, old(View()), w) && PoolOk(View())
      ensures w in old(workers) && Joined(old(View()), w, View())
    {
      hide PoolOk, Joined, RelocatedTo, Relocate;
      StartedLaw(cfg, View(), w);
      Pooled(View());
      StartedKeeps(cfg, View(), w);
      RelocateWorker(w, Idle);
      startingWorkersCount := startingWorkersCount - 1;
      booting := booting - {w};
    }

    method KillWorker(w: nat)
      requires w in workers && Known(View())
      modifies this
      ensures View() == Kill(cfg, old(View()), w)
      ensures KilledIn(cfg, old(View()), View(), w)
      ensures old(PoolOk(View())) ==> PoolOk(View())
    {
      hide PoolOk, KilledIn, RelocatedTo, Relocate, Known, OnlyMoved;
      KillLaw(cfg, View(), w);
      KilledKnown(cfg, View(), w);
      ghost var p := View();
      if PoolOk(p) {
        KillAnyKeeps(cfg, p, w);
      }
      RelocateWorker(w, Nowhere);
      workers := workers[w := workers[w].(killed := true)];
    }

    /** One pass of getWorkerForTask; `found` when it returned without starting a worker. */
    method FindWorkerForTask(appId: App, isTaskCacheable: bool) returns (found: bool, w: nat)
      requires PoolOk(View())
      modifies this
      ensures found && Hit(cfg, old(View()), appId, isTaskCacheable).Some? ==>
        w in workers && View() == old(View()) && Hit(cfg, old(View()), appId, isTaskCacheable) == Some(w)
      ensures found && Hit(cfg, old(View()), appId, isTaskCacheable).None? ==>
        w in workers && |old(idleWorkers)| > 0 && w == old(idleWorkers)[|old(idleWorkers)| - 1]
        && View() == Popped(old(View()), w, appId, isTaskCacheable)
      ensures found ==> Known(View())
      ensures !found ==> Hit(cfg, old(View()), appId, isTaskCacheable).None?
      ensures !found ==> old(idleWorkers) == []
      ensures !found ==> View() == MakeRoom(cfg, old(View()))
      ensures !found ==> RoomMade(cfg, old(View()), View())
    {
      hide PoolOk, Kill, KilledIn, RoomMade;
      RoomLaw(cfg, View());
      Pooled(View());
      if cfg.cachedLimit != 0 && isTaskCacheable {
        var i := 0;
        while i < |cachedWorkers|
          invariant i <= |cachedWorkers|
          invariant FindCached(cachedWorkers[i..], workers, appId) == FindCached(cachedWorkers, workers, appId)
        {
          assert cachedWorkers[i] in cachedWorkers;
          assert cachedWorkers[i..][1..] == cachedWorkers[i + 1..];
          if workers[cachedWorkers[i]].appId == Some(appId) {
            return true, cachedWorkers[i];
          }
          i := i + 1;
        }
        assert cachedWorkers[i..] == [];
      }
      if |idleWorkers| > 0 {
        w := idleWorkers[|idleWorkers| - 1];
        assert w in idleWorkers;
        idleWorkers := idleWorkers[..|idleWorkers| - 1];
        if isTaskCacheable {
          workers := workers[w := workers[w].(appId := Some(appId))];
        }
        return true, w;
      }
      w := 0;
      found := false;
      if cfg.cachedLimit != 0 && cfg.cachedLimit <= |cachedWorkers| {
        var leastActiveWorker := cachedWorkers[|cachedWorkers| - 1];
        assert leastActiveWorker in cachedWorkers;
        cachedWorkers := cachedWorkers[..|cachedWorkers| - 1];
        KillWorker(leastActiveWorker);
      }
    }

    method ProcessTaskOn(task: Task, w: nat)
      requires w in workers && Known(View())
      modifies this
      ensures View() == ProcessTask(cfg, old(View()), w, task)
      ensures w in workers
      ensures Given(old(workers[w]), workers[w], if cfg.cachedLimit != 0 then task else Task(task.id, task.app, false))
    {
      hide Relocate, RelocatedTo, Known, OnlyMoved;
      TaskKnown(cfg, View(), w, task);
      var t := if CacheEnabled(cfg) then task else task.(cacheable := false);
      var worker := workers[w];
      workers := workers[w := worker.(
        task := Some(t), ran := worker.ran + [t], reports := 0,
        afterMark := if worker.toBeRemoved then worker.afterMark + 1 else worker.afterMark)];
      RelocateWorker(w, Busy);
    }

    /** getWorkerForTask and processTask in one turn of the event loop; when no worker is at hand the
        least active cached one makes room and the caller starts a new one. */
    method GetWorkerAndProcess(task: Task) returns (found: bool, w: nat)
      requires PoolOk(View())
      modifies this
      ensures found ==> HandOff(cfg, old(View()), task) == Some((View(), w))
      ensures !found ==> HandOff(cfg, old(View()), task) == None && View() == MakeRoom(cfg, old(View()))
      ensures found ==> HandedOut(cfg, old(View()), View(), w, task)
      ensures !found ==> NobodyAtHand(cfg, old(View()), task) && RoomMade(cfg, old(View()), View())
      ensures PoolOk(View())
    {
      hide PoolOk, Hit, HandOff, Popped, ProcessTask, MakeRoom, HandedOut, NobodyAtHand, RoomMade, Given;
      HandOffLaw(cfg, View(), task);
      ghost var p := View();
      HandOffIs(cfg, p, task);
      found, w := FindWorkerForTask(task.app, task.cacheable);
      if found {
        ProcessTaskOn(task, w);
        HandOffKeeps(cfg, p, task);
      } else {
        MakeRoomKeeps(cfg, p);
      }
    }

    /** Marks the app's workers, then kills its cached ones while their array shrinks under the walk. */
    method KillAll(appId: Option<App>)
      requires PoolOk(View())
      modifies this
      ensures View() == KillAllAppWorkers(cfg, old(View()), appId) && PoolOk(View())
      ensures Swept(old(View()), appId, View())
    {
      hide PoolOk, Swept, KilledIn, Kill;
      SweepLaw(cfg, View(), appId);
      ghost var p := View();
      KillAllKeeps(cfg, p, appId);
      MarkKeeps(p, appId);
      workers := map w | w in workers ::
        if w in cluster && workers[w].appId == appId then workers[w].(toBeRemoved := true) else workers[w];
      ghost var p1 := View();
      assert p1 == MarkAll(p, appId);
      var length := |cachedWorkers|;
      for k := 0 to length
        invariant PoolOk(View())
        invariant KillCached(cfg, View(), appId, k, length) == KillCached(cfg, p1, appId, 0, length)
      {
        Pooled(View());
        if k < |cachedWorkers| {
          assert cachedWorkers[k] in cachedWorkers;
          if workers[cachedWorkers[k]].appId == appId {
            KillWorker(cachedWorkers[k]);
          }
        }
      }
    }

    method OnCriticalError(w: nat)
      requires PoolOk(View()) && w in workers
      modifies this
      ensures View() == old(View()).(workers := old(workers)[w := old(workers)[w].(toBeRemoved := true)])
      ensures View() == CriticalErrorFrom(old(View()), w) && PoolOk(View())
    {
      hide PoolOk;
      CriticalKeeps(View(), w);
      workers := workers[w := workers[w].(toBeRemoved := true)];
    }

    /** The task the emitted TASK_PROCESSED event names. */
    method OnWorkerTaskProcessed(w: nat) returns (task: Option<Task>)
      requires PoolOk(View()) && w in workers
      modifies this
      ensures task == old(workers[w].task)
      ensures View() == old(View()).(
        workers := old(workers)[w := old(workers)[w].(reports := old(workers)[w].reports + 1)])
      ensures View() == ReportFrom(old(View()), w) && PoolOk(View())
    {
      hide PoolOk;
      ReportKeeps(View(), w);
      task := workers[w].task;
      workers := workers[w := workers[w].(reports := workers[w].reports + 1)];
    }

    method OnIdling(w: nat)
      requires PoolOk(View()) && w in workers && workers[w].task.Some?
      modifies this
      ensures View() == IdlingFrom(cfg, old(View()), w) && PoolOk(View())
      ensures Released(cfg, old(View()), View(), w)
    {
      hide PoolOk, Released, KilledIn, RelocatedTo, Relocate, Kill;
      IdlingLaw(cfg, View(), w);
      Pooled(View());
      IdlingKeeps(cfg, View(), w);
      var worker := workers[w];
      if worker.task.value.cacheable && !worker.toBeRemoved {
        workers := workers[w := worker.(task := None)];
        RelocateWorker(w, Cached);
      } else {
        KillWorker(w);
      }
    }

    method OnWorkerExit(w: nat, disconnected: bool)
      requires PoolOk(View()) && w in workers
      modifies this
      ensures View() == Exited(cfg, old(View()), w, disconnected) && PoolOk(View())
      ensures ExitNoted(cfg, old(View()), w, disconnected, View())
    {
      hide PoolOk, ExitNoted, RelocatedTo, Relocate;
      ExitLaw(cfg, View(), w, disconnected);
      ExitedKeeps(cfg, View(), w, disconnected);
      workers := workers[w := workers[w].(exited := true)];
      if disconnected {
        cluster := cluster - {w};
      }
      if !workers[w].killed {
        RelocateWorker(w, Nowhere);
      }
    }

    /** An app is stopped when as many busy workers as its limit belong to it. */
    method IsAppRateLimitReached(appId: App) returns (isReached: bool)
      requires PoolOk(View())
      ensures isReached <==>
        && cfg.rateEnabled
        && var limit := if appId in cfg.rateOverrides && cfg.rateOverrides[appId] != 0
             then cfg.rateOverrides[appId] else cfg.rateDefault;
           if limit > 0 then |Having(busyWorkers, workers, Some(appId))| >= limit else Some(appId) in appsLoad
    {
      RateLimitMeans(cfg, View(), appId);
      if !cfg.rateEnabled {
        return false;
      }
      var limit := if appId in cfg.rateOverrides && cfg.rateOverrides[appId] != 0
        then cfg.rateOverrides[appId] else cfg.rateDefault;
      isReached := Some(appId) in appsLoad && appsLoad[Some(appId)] >= limit;
    }
  }

  lemma KilledKnown(cfg: Config, p: Pool, w: nat)
    requires w in p.workers && Known(p)
    ensures w in Relocate(cfg, p, w, Nowhere).workers
  {
    hide Relocate, Known;
    RelocateMoves(cfg, p, w, Nowhere);
  }

  /** What goes on record for a worker that is given a task. */
  lemma TaskKnown(cfg: Config, p: Pool, w: nat, task: Task)
    requires w in p.workers && Known(p)
    ensures var p' := ProcessTask(cfg, p, w, task);
      w in p'.workers
      && Given(p.workers[w], p'.workers[w], if cfg.cachedLimit != 0 then task else Task(task.id, task.app, false))
  {
    hide Relocate;
    var q := p.(workers := p.workers[w := Assigned(cfg, p.workers[w], task)]);
    assert Known(q);
    RelocateMoves(cfg, q, w, Busy);
  }
}
