/** The CloudMaster class of lib/server-code/runners/cloud-master.js and the getter clients of the
    MessagesBroker it drives: each continuation of a request chain, proved to take the state where
    RunnerSystem says and to keep every reachable state in order. */
module CloudMaster {
  import opened Options
  import opened WorkerPool
  import opened PoolInvariants
  import opened PoolFrames
  import opened PoolLaws
  import opened CloudWorkerProcess
  import opened TaskRequests
  import opened RunnerSystem
  import opened RunnerInvariants
  import opened RunnerLaws
  import Workers = WorkersBroker

  /** The `getters` array of lib/server-code/services/messages-broker.js. */
  class MessagesBroker {
    const gettersCount: nat
    var getters: seq<nat>

    constructor (gettersCount: nat)
      ensures this.gettersCount == gettersCount && getters == Clients(gettersCount)
    {
      this.gettersCount := gettersCount;
      getters := [];
      new;
      for i := 0 to gettersCount
        invariant getters == Clients(i)
      {
        getters := getters + [i];
      }
    }

    /** getTask up to the wait; `found` is false where the source would call a method of undefined. */
    method PopGetter() returns (found: bool, getter: nat)
      modifies this
      ensures found == (old(getters) != [])
      ensures found ==> old(getters) == getters + [getter]
      ensures !found ==> getters == old(getters)
    {
      found, getter := getters != [], 0;
      if found {
        getter := getters[|getters| - 1];
        getters := getters[..|getters| - 1];
      }
    }

    method PushGetter(getter: nat)
      modifies this
      ensures getters == old(getters) + [getter]
    {
      getters := getters + [getter];
    }
  }

  class CloudMaster {
    const cfg: Settings
    const workersBroker: Workers.WorkersBroker
    const messageBroker: MessagesBroker
    var chains: seq<Chain>
    var taskRequests: set<Queue>
    var stopped: bool
    var procs: map<nat, Process>
    var log: seq<Emission>
    ghost var faults: nat
    ghost var peak: nat
    ghost var peaks: map<App, nat>

    ghost function View(): State
      reads this, workersBroker, messageBroker
    {
      State(workersBroker.View(), procs, chains, taskRequests, messageBroker.getters, stopped, log, faults, peak, peaks)
    }

    constructor (cfg: Settings)
      ensures View() == Start(cfg) && Inv(cfg, View()) && this.cfg == cfg && workersBroker.cfg == cfg.cfg
      ensures fresh(workersBroker) && fresh(messageBroker)
    {
      this.cfg := cfg;
      workersBroker := new Workers.WorkersBroker(cfg.cfg);
      messageBroker := new MessagesBroker(GettersCount(cfg));
      chains, taskRequests, stopped, procs, log := [], {}, false, map[], [];
      faults, peak, peaks := 0, 0, map[];
      new;
      StartOk(cfg);
    }

    method WaitAndProcessNextTask(q: Queue)
      modifies this, messageBroker
      ensures View() == Begin(old(View()), q)
    {
      if q !in taskRequests {
        var found, getter := messageBroker.PopGetter();
        if found {
          taskRequests := taskRequests + {q};
          chains := chains + [Getting(q, getter)];
          peak := Max(peak, Tally(chains, Alive));
        } else {
          faults := faults + 1;
        }
      }
    }

    method OnReadyForNextTasks()
      requires workersBroker.cfg == cfg.cfg && Inv(cfg, View())
      modifies this, messageBroker
      ensures View() == OnReady(cfg, old(View())) && Inv(cfg, View())
      ensures QueuesAsked(cfg, old(View()), View())
      ensures Main in taskRequests <==>
        (Main in old(taskRequests) || (!stopped && cfg.cfg.limit - |workersBroker.busyWorkers| > 0))
      ensures LowPriority in taskRequests <==>
        (|| LowPriority in old(taskRequests)
         || (!stopped && cfg.threshold != 0.0 && cfg.cfg.limit - |workersBroker.busyWorkers| > 1
             && |workersBroker.busyWorkers| as real < cfg.threshold * cfg.cfg.limit as real))
      ensures old(chains) <= chains
      ensures forall q ::
        Tally(chains[|old(chains)|..], On(q)) == if q in taskRequests && q !in old(taskRequests) then 1 else 0
    {
      hide Inv, Begin, OnReady, QueuesAsked;
      ReadyKeeps(cfg, View());
      ReadyLaw(cfg, View());
      SlotsTell(cfg, View(), OnReady(cfg, View()));
      ReadyOpens(cfg, View());
      if stopped {
        return;
      }
      var availableWorkersCount := workersBroker.cfg.limit - |workersBroker.busyWorkers|;
      var low := cfg.threshold != 0.0 && availableWorkersCount > 1
        && cfg.threshold > |workersBroker.busyWorkers| as real / workersBroker.cfg.limit as real;
      if availableWorkersCount > 0 {
        WaitAndProcessNextTask(Main);
      }
      if low {
        WaitAndProcessNextTask(LowPriority);
      }
    }

    /** The catch branch, and the ends of a chain that lead back to onReadyForNextTasks. */
    method ResetAndAskAgain(c: nat, q: Queue)
      requires workersBroker.cfg == cfg.cfg && c < |chains| && Inv(cfg, Ended(View(), c, q, true))
      modifies this, messageBroker
      ensures View() == OnReady(cfg, Ended(old(View()), c, q, true)) && Inv(cfg, View())
      ensures QueuesAsked(cfg, Ended(old(View()), c, q, true), View())
    {
      hide Inv, OnReady, QueuesAsked;
      chains := chains[c := Over];
      taskRequests := taskRequests - {q};
      OnReadyForNextTasks();
    }

    method OnGetTaskFailed(c: nat)
      requires workersBroker.cfg == cfg.cfg && Inv(cfg, View()) && IsGetting(View(), c)
      modifies this, messageBroker
      ensures View() == Step(cfg, old(View()), GetFails(c)) && Inv(cfg, View())
      ensures Obeys(cfg, old(View()), GetFails(c), View())
    {
      hide Inv, OnReady, QueuesAsked, Obeys;
      RequestLaw(cfg, View(), GetFails(c));
      ReturnEndsKeeps(cfg, View(), c);
      var q := chains[c].q;
      messageBroker.PushGetter(chains[c].client);
      chains := chains[c := Over];
      ResetAndAskAgain(c, q);
    }

    method OnPushEnded(c: nat)
      requires workersBroker.cfg == cfg.cfg && Inv(cfg, View()) && c < |chains| && chains[c].PushingBack?
      modifies this, messageBroker
      ensures View() == Step(cfg, old(View()), PushEnds(c)) && Inv(cfg, View())
      ensures Obeys(cfg, old(View()), PushEnds(c), View())
    {
      hide Inv, OnReady, QueuesAsked, Obeys;
      RequestLaw(cfg, View(), PushEnds(c));
      PushEndsKeeps(cfg, View(), c);
      ResetAndAskAgain(c, chains[c].q);
    }

    /** getWorkerForTask; the task is sent off when a worker is at hand, and waits for a new one if not. */
    method FindWorkerAndProcess(c: nat)
      requires workersBroker.cfg == cfg.cfg && Inv(cfg, View()) && c < |chains| && chains[c].Awaiting?
      modifies this, workersBroker
      ensures View() == Attempt(cfg, old(View()), c) && Inv(cfg, View())
      ensures Attempted(cfg, old(View()), c, View())
    {
      hide PoolOk, Chained, Channels, Reported, HandOff, MakeRoom, HandedTo, Fork, Attempted, HandedOut, RoomMade;
      hide NobodyAtHand, WithNew;
      AttemptLaw(cfg, View(), c);
      AttemptKeeps(cfg, View(), c);
      ghost var before := View();
      var request := chains[c];
      if HandOff(cfg.cfg, before.pool, request.task).Some? {
        HandOffFrame(cfg.cfg, before.pool, request.task);
      }
      var found, w := workersBroker.GetWorkerAndProcess(request.task);
      if found {
        assert w in workersBroker.workers && workersBroker.workers[w].task.Some? by {
          Dispatchable(cfg.cfg, before.pool, workersBroker.View(), w, request.task);
        }
        if !request.early {
          taskRequests := taskRequests - {request.q};
        }
        chains := chains[c := Over];
        var channel := if w in procs then procs[w] else NewProcess;
        procs := procs[w := channel.(inbox := channel.inbox + [workersBroker.workers[w].task.value])];
      } else {
        w := workersBroker.StartNewWorker();
        chains := chains[c := request.(w := w)];
      }
    }

    method OnNewWorkerStarted(c: nat)
      requires workersBroker.cfg == cfg.cfg && Inv(cfg, View())
      requires c < |chains| && chains[c].Awaiting? && chains[c].w !in workersBroker.booting
      modifies this, workersBroker
      ensures View() == Step(cfg, old(View()), Retry(c)) && Inv(cfg, View())
      ensures Obeys(cfg, old(View()), Retry(c), View())
    {
      hide Inv, Attempt, Attempted, Obeys;
      RequestLaw(cfg, View(), Retry(c));
      FindWorkerAndProcess(c);
    }

    /** The continuation of getTask with a task. */
    method OnTaskReceived(c: nat, task: Task, outdated: bool)
      requires workersBroker.cfg == cfg.cfg && Inv(cfg, View()) && IsGetting(View(), c)
      modifies this, workersBroker, messageBroker
      ensures View() == Step(cfg, old(View()), TaskArrives(c, task, outdated)) && Inv(cfg, View())
      ensures TaskTaken(cfg, old(View()), c, task, outdated, View())
    {
      hide Inv, OnReady, Attempt, Attempted, QueuesAsked, TaskTaken;
      TaskLaw(cfg, View(), c, task, outdated);
      ghost var before := View();
      var q := chains[c].q;
      InvPool(cfg, before);
      RateLimitMeans(cfg.cfg, before.pool, task.app);
      var limited := workersBroker.IsAppRateLimitReached(task.app);
      messageBroker.PushGetter(chains[c].client);
      if outdated {
        ReturnEndsKeeps(cfg, before, c);
        chains := chains[c := Over];
        ResetAndAskAgain(c, q);
      } else if limited {
        PushBackKeeps(cfg, before, c);
        chains := chains[c := PushingBack(q)];
      } else {
        AdmitKeeps(cfg, before, c, task);
        var resetRequestBefore := workersBroker.cfg.limit - |workersBroker.busyWorkers| > 2;
        if resetRequestBefore {
          taskRequests := taskRequests - {q};
        }
        chains := chains[c := Awaiting(q, task, resetRequestBefore, 0)];
        peaks := peaks[task.app := Max(Peak(before, task.app), Tally(chains, For(task.app)))];
        FindWorkerAndProcess(c);
      }
    }

    /** stop() as far as the master itself goes. */
    method Stop()
      requires Inv(cfg, View())
      modifies this
      ensures View() == Step(cfg, old(View()), MasterStops) && Inv(cfg, View())
    {
      StopKeeps(cfg, View());
      stopped := true;
    }
  }

  lemma Dispatchable(cfg: Config, p: Pool, p': Pool, w: nat, task: Task)
    requires HandedTo(cfg, p, p', w, task)
    ensures w in p'.workers && p'.workers[w].task.Some?
  {
  }

  /** The two questions `onReadyForNextTasks` asks itself before either queue is asked. */
  lemma ReadyOpens(cfg: Settings, s: State)
    ensures s.stopped ==> OnReady(cfg, s) == s
    ensures !s.stopped ==>
      var s1 := if cfg.cfg.limit - |s.pool.busy| > 0 then Begin(s, Main) else s;
      OnReady(cfg, s) ==
        if cfg.threshold != 0.0 && cfg.cfg.limit - |s.pool.busy| > 1
           && cfg.threshold > |s.pool.busy| as real / cfg.cfg.limit as real
        then Begin(s1, LowPriority) else s1
  {
    hide Begin;
  }
}
