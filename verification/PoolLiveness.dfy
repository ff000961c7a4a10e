/** When every worker in a pool is alive, exactly: a message of a worker that was killed, or whose process
    exited, before the message arrived may file the worker again. */
module PoolLiveness {
  import opened Options
  import opened WorkerPool
  import opened PoolInvariants
  import opened PoolFrames
  import opened CloudWorkerProcess
  import opened TaskRequests
  import opened RunnerSystem
  import opened RunnerInvariants
  import opened RunnerTheorems
  import opened ConcurrencyLimit

  /** Neither killed by the broker nor gone by itself. */
  predicate Lives(o: Worker) {
    !o.killed && !o.exited
  }

  ghost predicate Alive(p: Pool) {
    forall w | w in p.workers && p.workers[w].place != Nowhere :: Lives(p.workers[w])
  }

  /** The event is a message of a dead worker that files it: 'started', or 'idling' after a cacheable
      task when the worker is not marked. */
  predicate ComesTooLate(s: State, e: Event) {
    match e
    case WorkerStarted(w) => w in s.pool.booting && w in s.pool.workers && !Lives(s.pool.workers[w])
    case Delivered(w) =>
      && w in s.pool.workers && Proc(s, w).outbox != [] && Proc(s, w).outbox[0] == Idling
      && !Lives(s.pool.workers[w]) && s.pool.workers[w].task.Some?
      && s.pool.workers[w].task.value.cacheable && !s.pool.workers[w].toBeRemoved
    case _ => false
  }

  /** Moving one worker leaves all as alive as it is itself. */
  lemma RelocateAlive(cfg: Config, p: Pool, w: nat, to: Place)
    requires w in p.workers && Known(p)
    requires forall x | x in p.workers && x != w && p.workers[x].place != Nowhere :: Lives(p.workers[x])
    ensures Alive(Relocate(cfg, p, w, to)) <==> to == Nowhere || Lives(p.workers[w])
    ensures w in Relocate(cfg, p, w, to).workers && Relocate(cfg, p, w, to).workers[w].place == to
  {
    RelocateMoves(cfg, p, w, to);
    hide Relocate, Known;
    var p' := Relocate(cfg, p, w, to);
    assert Lives(p'.workers[w]) == Lives(p.workers[w]);
    forall x | x in p'.workers && x != w && p'.workers[x].place != Nowhere ensures Lives(p'.workers[x]) {}
  }

  lemma KillAlive(cfg: Config, p: Pool, w: nat)
    requires w in p.workers && Known(p) && Alive(p)
    ensures Alive(Kill(cfg, p, w))
  {
    RelocateAlive(cfg, p, w, Nowhere);
    hide Relocate;
  }

  lemma StartedAlive(cfg: Config, p: Pool, w: nat)
    requires w in p.workers && Known(p) && Alive(p)
    ensures Alive(Started(cfg, p, w)) <==> Lives(p.workers[w])
  {
    RelocateAlive(cfg, p, w, Idle);
    hide Relocate;
    var p1, p' := Relocate(cfg, p, w, Idle), Started(cfg, p, w);
    assert p'.workers == p1.workers;
    assert Alive(p') <==> Alive(p1);
  }

  lemma ExitedAlive(cfg: Config, p: Pool, w: nat, disconnected: bool)
    requires w in p.workers && Known(p) && Alive(p)
    ensures Alive(Exited(cfg, p, w, disconnected))
  {
    hide Relocate;
    var q := p.(workers := p.workers[w := p.workers[w].(exited := true)],
                cluster := if disconnected then p.cluster - {w} else p.cluster);
    assert Known(q);
    RelocateAlive(cfg, q, w, Nowhere);
  }

  lemma IdlingAlive(cfg: Config, p: Pool, w: nat)
    requires w in p.workers && Known(p) && Alive(p) && p.workers[w].task.Some?
    ensures var o := p.workers[w];
      Alive(IdlingFrom(cfg, p, w)) <==> !(!Lives(o) && o.task.value.cacheable && !o.toBeRemoved)
  {
    var o := p.workers[w];
    if o.task.value.cacheable && !o.toBeRemoved {
      var q := p.(workers := p.workers[w := o.(task := None)]);
      assert Known(q);
      RelocateAlive(cfg, q, w, Cached);
      hide Relocate;
    } else {
      KillAlive(cfg, p, w);
    }
  }

  lemma ProcessTaskAlive(cfg: Config, p: Pool, w: nat, task: Task)
    requires w in p.workers && Known(p) && Alive(p) && p.workers[w].place != Nowhere
    ensures Alive(ProcessTask(cfg, p, w, task))
  {
    hide Relocate;
    var q := p.(workers := p.workers[w := Assigned(cfg, p.workers[w], task)]);
    assert Known(q);
    RelocateAlive(cfg, q, w, Busy);
  }

  lemma PoppedAlive(p: Pool, w: nat, app: App, cacheable: bool)
    requires p.idle != [] && w in p.workers && Known(p) && Alive(p)
    ensures var q := Popped(p, w, app, cacheable);
      w in q.workers && Known(q) && Alive(q) && q.workers[w].place == p.workers[w].place
  {
  }

  lemma HandOffAlive(cfg: Config, p: Pool, task: Task)
    requires PoolOk(p) && Alive(p) && HandOff(cfg, p, task).Some?
    ensures Alive(HandOff(cfg, p, task).value.0)
  {
    hide PoolOk, Alive, Known, Hit, HandOff, Popped, ProcessTask, Load;
    Pooled(p);
    HandOffIs(cfg, p, task);
    HandOffFrame(cfg, p, task);
    var w := HandOff(cfg, p, task).value.1;
    if Hit(cfg, p, task.app, task.cacheable).Some? {
      ProcessTaskAlive(cfg, p, w, task);
    } else {
      PoppedAlive(p, w, task.app, task.cacheable);
      ProcessTaskAlive(cfg, Popped(p, w, task.app, task.cacheable), w, task);
    }
  }

  lemma MakeRoomAlive(cfg: Config, p: Pool)
    requires PoolOk(p) && Alive(p)
    ensures Alive(Fork(MakeRoom(cfg, p)))
  {
    hide Kill, FiledBut, Counts, Sorted, OneApp, Fresh;
    if CacheEnabled(cfg) && cfg.cachedLimit <= |p.cached| && p.cached != [] && p.cached[|p.cached| - 1] in p.workers {
      KillAlive(cfg, p.(cached := p.cached[..|p.cached| - 1]), p.cached[|p.cached| - 1]);
    }
  }

  lemma {:induction false} KillCachedAlive(cfg: Config, p: Pool, app: Option<App>, k: nat, len: nat)
    requires PoolOk(p) && Alive(p) && k <= len
    ensures Alive(KillCached(cfg, p, app, k, len))
    decreases len - k
  {
    hide PoolOk, Kill, KillCached, Alive;
    if k < len {
      KillCachedStep(cfg, p, app, k, len);
      if k < |p.cached| && IsOf(p.workers, p.cached[k], app) {
        Pooled(p);
        KillAnyKeeps(cfg, p, p.cached[k]);
        KillAlive(cfg, p, p.cached[k]);
        KillCachedAlive(cfg, Kill(cfg, p, p.cached[k]), app, k + 1, len);
      } else {
        KillCachedAlive(cfg, p, app, k + 1, len);
      }
    } else {
      KillCachedDone(cfg, p, app, k);
    }
  }

  lemma KillAllAlive(cfg: Config, p: Pool, app: Option<App>)
    requires PoolOk(p) && Alive(p)
    ensures Alive(KillAllAppWorkers(cfg, p, app))
  {
    hide PoolOk, KillCached;
    MarkKeeps(p, app);
    assert Alive(MarkAll(p, app));
    KillCachedAlive(cfg, MarkAll(p, app), app, 0, |p.cached|);
  }

  lemma AttemptAlive(cfg: Settings, s: State, c: nat)
    requires PoolOk(s.pool) && Alive(s.pool) && c < |s.chains| && s.chains[c].Awaiting?
    ensures Alive(Attempt(cfg, s, c).pool)
  {
    hide PoolOk, HandOff, MakeRoom, Alive, Fork;
    match HandOff(cfg.cfg, s.pool, s.chains[c].task)
    case Some(r) => HandOffAlive(cfg.cfg, s.pool, s.chains[c].task);
    case None => MakeRoomAlive(cfg.cfg, s.pool);
  }

  lemma FieldAlive(p: Pool, w: nat, o: Worker)
    requires Alive(p) && w in p.workers && o.place == p.workers[w].place && Lives(o) == Lives(p.workers[w])
    ensures Alive(p.(workers := p.workers[w := o]))
  {
  }

  lemma MessageAlive(cfg: Settings, s: State, w: nat)
    requires PoolOk(s.pool) && Alive(s.pool) && w in s.pool.workers && Proc(s, w).outbox != []
    ensures Alive(OnMessage(cfg, s, w).pool) <==> !ComesTooLate(s, Delivered(w))
  {
    hide PoolOk, IdlingFrom, Alive, Known;
    Pooled(s.pool);
    var o := s.pool.workers[w];
    FieldAlive(s.pool, w, o.(toBeRemoved := true));
    FieldAlive(s.pool, w, o.(reports := o.reports + 1));
    if o.task.Some? { IdlingAlive(cfg.cfg, s.pool, w); }
  }

  lemma SameAlive(p: Pool, p': Pool)
    requires Alive(p) && p'.workers == p.workers
    ensures Alive(p')
  {
  }

  /** One event, whatever it is: all pooled workers stay alive unless it comes too late. */
  lemma StepAlive(cfg: Settings, s: State, e: Event)
    requires PoolOk(s.pool) && Alive(s.pool)
    ensures Alive(Step(cfg, s, e).pool) <==> !ComesTooLate(s, e)
  {
    hide PoolOk, Alive, Known, OnReady, Attempt, OnMessage, RateLimitReached, Started, Kill, Exited, KillAllAppWorkers;
    var p := s.pool;
    Pooled(p);
    match e
    case Ready => ReadyPool(cfg, s);
    case TaskArrives(c, task, outdated) =>
      if IsGetting(s, c) {
        ReadyPool(cfg, Ended(Returned(s, c, Over), c, s.chains[c].q, true));
        AttemptAlive(cfg, Admit(cfg, s, c, task), c);
      }
    case GetFails(c) =>
      if IsGetting(s, c) { ReadyPool(cfg, Ended(Returned(s, c, Over), c, s.chains[c].q, true)); }
    case PushEnds(c) =>
      if c < |s.chains| && s.chains[c].PushingBack? { ReadyPool(cfg, Ended(s, c, s.chains[c].q, true)); }
    case Retry(c) => if c < |s.chains| && s.chains[c].Awaiting? { AttemptAlive(cfg, s, c); }
    case WorkerStarted(w) => if w in p.workers { StartedAlive(cfg.cfg, p, w); }
    case TimerKills(w) => if w in p.workers { KillAlive(cfg.cfg, p, w); }
    case Redeployed(app) => KillAllAlive(cfg.cfg, p, app);
    case WorkerExits(w, disconnected) => if w in p.workers { ExitedAlive(cfg.cfg, p, w, disconnected); }
    case LeavesCluster(w) => SameAlive(p, p.(cluster := p.cluster - {w}));
    case Delivered(w) => if w in p.workers && Proc(s, w).outbox != [] { MessageAlive(cfg, s, w); }
    case BrokerStops => SameAlive(p, p.(stopping := true));
    case _ =>
  }

  /** No message of a dead worker filed it again in the run. */
  ghost predicate NeverTooLate(cfg: Settings, es: seq<Event>) {
    forall i | 0 <= i < |es| :: !ComesTooLate(Run(cfg, es[..i]), es[i])
  }

  ghost predicate AlwaysAlive(cfg: Settings, es: seq<Event>) {
    forall i | 0 <= i <= |es| :: Alive(Run(cfg, es[..i]).pool)
  }

  lemma StartAlive(cfg: Settings)
    ensures Alive(Run(cfg, []).pool)
  {
    var p0 := Pool([], [], [], map[], 0, map[], {}, {}, 0, 0, false);
    KeepMinIdleExtends(cfg.cfg, p0);
    hide KeepMinIdle;
  }

  lemma RunTake(cfg: Settings, es: seq<Event>, i: nat)
    requires i < |es|
    ensures Run(cfg, es[..i + 1]) == Step(cfg, Run(cfg, es[..i]), es[i])
  {
    assert es[..i + 1] == es[..i] + [es[i]];
    RunStep(cfg, es[..i], es[i]);
  }

  lemma {:induction false} AliveUpTo(cfg: Settings, es: seq<Event>, i: nat)
    requires i <= |es| && forall j | 0 <= j < i :: !ComesTooLate(Run(cfg, es[..j]), es[j])
    ensures Alive(Run(cfg, es[..i]).pool)
  {
    hide Run, Step, Inv, PoolOk, Alive, ComesTooLate;
    if i == 0 {
      StartAlive(cfg);
      assert es[..0] == [];
    } else {
      AliveUpTo(cfg, es, i - 1);
      RunOk(cfg, es[..i - 1]);
      InvPool(cfg, Run(cfg, es[..i - 1]));
      StepAlive(cfg, Run(cfg, es[..i - 1]), es[i - 1]);
      RunTake(cfg, es, i - 1);
    }
  }

  /** Throughout a run every pooled worker is alive if and only if no message of a dead worker that would
      file it arrives. */
  lemma AliveExactly(cfg: Settings, es: seq<Event>)
    ensures AlwaysAlive(cfg, es) <==> NeverTooLate(cfg, es)
  {
    hide Run, Step, Inv, PoolOk, Alive, ComesTooLate;
    if NeverTooLate(cfg, es) {
      forall i | 0 <= i <= |es| ensures Alive(Run(cfg, es[..i]).pool) { AliveUpTo(cfg, es, i); }
    }
    if AlwaysAlive(cfg, es) {
      forall i | 0 <= i < |es| ensures !ComesTooLate(Run(cfg, es[..i]), es[i]) {
        RunOk(cfg, es[..i]);
        InvPool(cfg, Run(cfg, es[..i]));
        StepAlive(cfg, Run(cfg, es[..i]), es[i]);
        RunTake(cfg, es, i);
        assert Alive(Run(cfg, es[..i + 1]).pool);
      }
    }
  }

  /** The worker the first request waits for. */
  function FirstAwaited(cfg: Settings): nat {
    var s := Run(cfg, Asked(cfg, []));
    if |s.chains| > 0 && s.chains[0].Awaiting? then s.chains[0].w else 0
  }

  /** A worker that dies while it starts, killed by the heartbeat timer or by itself, is filed when its
      'started' arrives after all. */
  function LateRun(cfg: Settings, death: Event): seq<Event> {
    Asked(cfg, []) + [death] + [WorkerStarted(FirstAwaited(cfg))]
  }

  predicate Dies(e: Event, w: nat) {
    e == TimerKills(w) || e == WorkerExits(w, true) || e == WorkerExits(w, false)
  }

  lemma KilledIsDead(cfg: Config, p: Pool, w: nat)
    requires Known(p) && w in p.booting && w in p.workers
    ensures var p' := Kill(cfg, p, w); w in p'.booting && w in p'.workers && !Lives(p'.workers[w])
  {
    hide Known, Relocate;
    RelocateMoves(cfg, p, w, Nowhere);
  }

  lemma ExitedIsDead(cfg: Config, p: Pool, w: nat, disconnected: bool)
    requires Known(p) && w in p.booting && w in p.workers
    ensures var p' := Exited(cfg, p, w, disconnected); w in p'.booting && w in p'.workers && !Lives(p'.workers[w])
  {
    var q := p.(workers := p.workers[w := p.workers[w].(exited := true)],
                cluster := if disconnected then p.cluster - {w} else p.cluster);
    assert Known(q);
    hide Known, Relocate;
    RelocateMoves(cfg, q, w, Nowhere);
  }

  lemma DeadStaysBooting(cfg: Settings, s: State, w: nat, death: Event)
    requires PoolOk(s.pool) && w in s.pool.booting && Dies(death, w)
    ensures ComesTooLate(Step(cfg, s, death), WorkerStarted(w))
  {
    hide PoolOk, Kill, Exited, Known;
    Pooled(s.pool);
    KilledIsDead(cfg.cfg, s.pool, w);
    ExitedIsDead(cfg.cfg, s.pool, w, true);
    ExitedIsDead(cfg.cfg, s.pool, w, false);
  }

  lemma DeadInThePool(cfg: Settings, death: Event)
    requires cfg.cfg.limit > 0 && Dies(death, FirstAwaited(cfg))
    ensures !AlwaysAlive(cfg, LateRun(cfg, death))
  {
    hide Run, Step, Inv, PoolOk, Alive, ComesTooLate, Calm;
    StartIsCalm(cfg);
    AddWaiting(cfg, [], []);
    var es := Asked(cfg, []);
    assert [] + [|Run(cfg, []).chains|] == [0];
    LinedHead(Run(cfg, es), [0]);
    var w := Run(cfg, es).chains[0].w;
    RunOk(cfg, es);
    InvPool(cfg, Run(cfg, es));
    DeadStaysBooting(cfg, Run(cfg, es), w, death);
    RunStep(cfg, es, death);
    var run := LateRun(cfg, death);
    assert run[..|es| + 1] == es + [death] && run[|es| + 1] == WorkerStarted(w);
    AliveExactly(cfg, run);
  }
}
