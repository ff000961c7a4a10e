/** What the pool operations do, written out: which arrays, counters and fields differ afterwards and by
    how much.  The operations are defined elsewhere; nothing here is defined by them. */
module PoolLaws {
  import opened Options
  import opened Sequences
  import opened WorkerPool
  import opened PoolInvariants
  import opened PoolFrames

  /** `n` workers more have been forked, and nothing else has happened. */
  ghost predicate WithNew(p: Pool, p': Pool, n: nat) {
    && p'.idle == p.idle && p'.cached == p.cached && p'.busy == p.busy && p'.appsLoad == p.appsLoad
    && p'.clock == p.clock && p'.stopping == p.stopping
    && p'.starting == p.starting + n && p'.nextId == p.nextId + n
    && (forall w: nat :: w in p'.workers <==> w in p.workers || p.nextId <= w < p.nextId + n)
    && (forall w | w in p'.workers :: p'.workers[w] ==
          if p.nextId <= w < p.nextId + n then Worker(None, Nowhere, None, false, false, false, [], 0, 0, 0)
          else p.workers[w])
    && (forall w: nat :: w in p'.cluster <==> w in p.cluster || p.nextId <= w < p.nextId + n)
    && (forall w: nat :: w in p'.booting <==> w in p.booting || p.nextId <= w < p.nextId + n)
  }

  /** Spare workers are forked up to the wanted number of idle ones and the room in the cluster, those on
      their way counted in. */
  ghost predicate Replenished(cfg: Config, p: Pool, p': Pool) {
    var wanting, allowed := cfg.minIdle - |p.idle|, cfg.limit - |p.cluster|;
    var required := (if wanting <= allowed then wanting else allowed) - p.starting;
    WithNew(p, p', if required > 0 then required else 0)
  }

  /** The worker has left the array it was filed under and heads the one it is filed under now; the load
      of its app is up by one if it has become busy and down by one if it was; spare workers are forked
      if it was idle or busy or has become busy, and the broker is not stopping. */
  ghost predicate RelocatedTo(cfg: Config, p: Pool, p': Pool, w: nat, to: Place)
    requires w in p.workers
  {
    var o := p.workers[w];
    var load := if o.appId in p.appsLoad then p.appsLoad[o.appId] else 0;
    var waiting := to == Idle || to == Cached;
    var q := p.(
      idle := (if to == Idle then [w] else []) + (if o.place == Idle then Without(p.idle, w) else p.idle),
      cached := (if to == Cached then [w] else []) + (if o.place == Cached then Without(p.cached, w) else p.cached),
      busy := (if to == Busy then [w] else []) + (if o.place == Busy then Without(p.busy, w) else p.busy),
      appsLoad := if to == Busy then p.appsLoad[o.appId := load + 1]
                  else if o.place == Busy then p.appsLoad[o.appId := load - 1] else p.appsLoad,
      workers := p.workers[w := o.(place := to, waitsSince := if waiting then p.clock else o.waitsSince)],
      clock := if waiting then p.clock + 1 else p.clock);
    if !p.stopping && (o.place == Idle || o.place == Busy || to == Busy) then Replenished(cfg, q, p') else p' == q
  }

  /** It has been taken out of its pool, and is marked as killed. */
  ghost predicate KilledIn(cfg: Config, p: Pool, p': Pool, w: nat)
    requires w in p.workers
  {
    exists q :: RelocatedTo(cfg, p, q, w, Nowhere) && w in q.workers
      && p' == q.(workers := q.workers[w := q.workers[w].(killed := true)])
  }

  /** The task as it goes on record: without a cache nothing is cacheable. */
  function OnRecord(cfg: Config, task: Task): Task {
    if cfg.cachedLimit != 0 then task else Task(task.id, task.app, false)
  }

  /** The worker the broker reuses: the first cached one of the app, for a cacheable task. */
  ghost predicate Reused(cfg: Config, p: Pool, task: Task, w: nat) {
    && cfg.cachedLimit != 0 && task.cacheable
    && exists i :: 0 <= i < |p.cached| && p.cached[i] == w && w in p.workers && p.workers[w].appId == Some(task.app)
         && forall j | 0 <= j < i :: !IsOf(p.workers, p.cached[j], Some(task.app))
  }

  ghost predicate SomeReused(cfg: Config, p: Pool, task: Task) {
    exists w :: Reused(cfg, p, task, w)
  }

  /** The task has been handed to `w`: the cached worker to be reused or, if there is none, the last of the
      idle ones, which belongs to the app from now on if the task is cacheable. */
  ghost predicate HandedOut(cfg: Config, p: Pool, p': Pool, w: nat, task: Task) {
    w in p.workers &&
    var o := p.workers[w];
    var t := OnRecord(cfg, task);
    var appId := if !SomeReused(cfg, p, task) && task.cacheable then Some(task.app) else o.appId;
    var given := o.(appId := appId, task := Some(t), ran := o.ran + [t], reports := 0,
                    afterMark := o.afterMark + if o.toBeRemoved then 1 else 0);
    && (if SomeReused(cfg, p, task) then Reused(cfg, p, task, w)
        else p.idle != [] && w == p.idle[|p.idle| - 1])
    && RelocatedTo(cfg, p.(
         idle := if SomeReused(cfg, p, task) then p.idle else p.idle[..|p.idle| - 1],
         workers := p.workers[w := given]), p', w, Busy)
  }

  ghost predicate NobodyAtHand(cfg: Config, p: Pool, task: Task) {
    p.idle == [] && !SomeReused(cfg, p, task)
  }

  /** When the cache is enabled and full, its last worker is popped and killed; otherwise nothing. */
  ghost predicate RoomMade(cfg: Config, p: Pool, p': Pool) {
    if cfg.cachedLimit != 0 && cfg.cachedLimit <= |p.cached| then
      var w := p.cached[|p.cached| - 1];
      w in p.workers && KilledIn(cfg, p.(cached := p.cached[..|p.cached| - 1]), p', w)
    else p' == p
  }

  /** A task was ended: the worker goes to the cache if the task was cacheable and it is not marked, and is
      killed otherwise. */
  ghost predicate Released(cfg: Config, p: Pool, p': Pool, w: nat) {
    w in p.workers && p.workers[w].task.Some? &&
    var o := p.workers[w];
    if o.task.value.cacheable && !o.toBeRemoved
    then RelocatedTo(cfg, p.(workers := p.workers[w := o.(task := None)]), p', w, Cached)
    else KilledIn(cfg, p, p', w)
  }

  // ----- the operations obey

  lemma {:induction false} ForkManyNew(p: Pool, n: nat)
    ensures WithNew(p, ForkMany(p, n), n)
    decreases n
  {
    if n > 0 { ForkManyNew(Fork(p), n - 1); }
  }

  lemma MinIdleLaw(cfg: Config, p: Pool)
    ensures Replenished(cfg, p, KeepMinIdle(cfg, p))
  {
    ForkManyNew(p, if Wanting(cfg, p) > 0 then Wanting(cfg, p) else 0);
    hide WithNew;
  }

  lemma RelocateLaw(cfg: Config, p: Pool, w: nat, to: Place)
    requires w in p.workers
    ensures RelocatedTo(cfg, p, Relocate(cfg, p, w, to), w, to)
  {
    hide KeepMinIdle, Replenished, Without;
    var o := p.workers[w];
    var q := Counted(Moved(p, w, to), o.appId, o.place, to);
    MinIdleLaw(cfg, q);
    assert forall s: seq<nat> :: [] + s == s;
  }

  lemma KillLaw(cfg: Config, p: Pool, w: nat)
    requires w in p.workers && Known(p)
    ensures KilledIn(cfg, p, Kill(cfg, p, w), w)
  {
    hide Relocate, RelocatedTo, Known;
    RelocateLaw(cfg, p, w, Nowhere);
    RelocateMoves(cfg, p, w, Nowhere);
  }

  lemma HitIs(cfg: Config, p: Pool, task: Task)
    requires PoolOk(p)
    ensures var hit := Hit(cfg, p, task.app, task.cacheable);
      && (hit.Some? ==> Reused(cfg, p, task, hit.value))
      && (hit.None? ==> !SomeReused(cfg, p, task))
  {
    FindCachedIs(p.cached, p.workers, task.app);
    Pooled(p);
    hide PoolOk;
  }

  lemma ReusedLaw(cfg: Config, p: Pool, w: nat, task: Task)
    requires Reused(cfg, p, task, w)
    ensures HandedOut(cfg, p, ProcessTask(cfg, p, w, task), w, task)
  {
    hide Reused, Relocate, RelocatedTo;
    ReusedKnown(cfg, p, task, w);
    var given := Assigned(cfg, p.workers[w], task);
    RelocateLaw(cfg, p.(workers := p.workers[w := given]), w, Busy);
    assert p.(idle := p.idle, workers := p.workers[w := given]) == p.(workers := p.workers[w := given]);
  }

  lemma ReusedKnown(cfg: Config, p: Pool, task: Task, w: nat)
    requires Reused(cfg, p, task, w)
    ensures w in p.workers
  {
  }

  lemma IdleLaw(cfg: Config, p: Pool, task: Task)
    requires p.idle != [] && p.idle[|p.idle| - 1] in p.workers && !SomeReused(cfg, p, task)
    ensures var w := p.idle[|p.idle| - 1];
      HandedOut(cfg, p, ProcessTask(cfg, Popped(p, w, task.app, task.cacheable), w, task), w, task)
  {
    hide SomeReused, Relocate, RelocatedTo;
    var w := p.idle[|p.idle| - 1];
    var q := Popped(p, w, task.app, task.cacheable);
    var given := Assigned(cfg, q.workers[w], task);
    RelocateLaw(cfg, q.(workers := q.workers[w := given]), w, Busy);
    assert q.workers[w := given] == p.workers[w := given];
  }

  lemma HandOffLaw(cfg: Config, p: Pool, task: Task)
    requires PoolOk(p)
    ensures match HandOff(cfg, p, task)
      case Some(r) => HandedOut(cfg, p, r.0, r.1, task)
      case None => NobodyAtHand(cfg, p, task)
  {
    HandOffIs(cfg, p, task);
    HitIs(cfg, p, task);
    hide PoolOk, Hit, HandOff, HandedOut, ProcessTask, Popped, Reused;
    var hit := Hit(cfg, p, task.app, task.cacheable);
    if hit.Some? {
      ReusedLaw(cfg, p, hit.value, task);
    } else if p.idle != [] {
      IdleLaw(cfg, p, task);
    }
  }

  lemma RoomLaw(cfg: Config, p: Pool)
    requires PoolOk(p)
    ensures RoomMade(cfg, p, MakeRoom(cfg, p))
  {
    LastCachedIsOldest(p);
    hide PoolOk, Kill, KilledIn, Known;
    if cfg.cachedLimit != 0 && cfg.cachedLimit <= |p.cached| {
      KillLaw(cfg, p.(cached := p.cached[..|p.cached| - 1]), p.cached[|p.cached| - 1]);
    }
  }

  lemma IdlingLaw(cfg: Config, p: Pool, w: nat)
    requires PoolOk(p) && w in p.workers && p.workers[w].task.Some?
    ensures Released(cfg, p, IdlingFrom(cfg, p, w), w)
  {
    Pooled(p);
    hide PoolOk, Kill, KilledIn, Known, Relocate, RelocatedTo;
    var o := p.workers[w];
    if o.task.value.cacheable && !o.toBeRemoved {
      RelocateLaw(cfg, p.(workers := p.workers[w := o.(task := None)]), w, Cached);
    } else {
      KillLaw(cfg, p, w);
    }
  }

  // ----- starts, exits and redeployments

  /** A booting worker joins the idle ones. */
  ghost predicate Joined(p: Pool, w: nat, p': Pool)
    requires w in p.workers
  {
    p' == p.(idle := [w] + p.idle, starting := p.starting - 1, booting := p.booting - {w}, clock := p.clock + 1,
             workers := p.workers[w := p.workers[w].(place := Idle, waitsSince := p.clock)])
  }

  lemma StartedLaw(cfg: Config, p: Pool, w: nat)
    requires PoolOk(p) && w in p.booting
    ensures w in p.workers && Joined(p, w, Started(cfg, p, w))
  {
    hide FiledBut, Counts, Sorted, OneApp;
  }

  /** The exit is noted; a worker that was not killed leaves its pool. */
  ghost predicate ExitNoted(cfg: Config, p: Pool, w: nat, disconnected: bool, p': Pool)
    requires w in p.workers
  {
    var q := p.(workers := p.workers[w := p.workers[w].(exited := true)],
                cluster := if disconnected then p.cluster - {w} else p.cluster);
    if p.workers[w].killed then p' == q else RelocatedTo(cfg, q, p', w, Nowhere)
  }

  lemma ExitLaw(cfg: Config, p: Pool, w: nat, disconnected: bool)
    requires w in p.workers
    ensures ExitNoted(cfg, p, w, disconnected, Exited(cfg, p, w, disconnected))
  {
    hide Relocate, RelocatedTo;
    RelocateLaw(cfg, p.(workers := p.workers[w := p.workers[w].(exited := true)],
                        cluster := if disconnected then p.cluster - {w} else p.cluster), w, Nowhere);
  }

  /** The app's workers the cluster lists are marked; of the cached ones those the walk reaches are killed,
      and nothing else changes. */
  ghost predicate Swept(p: Pool, app: Option<App>, p': Pool) {
    var left := Survivors(p.cached, p.workers, app);
    p' == p.(cached := left, workers := map w | w in p.workers ::
      var o := p.workers[w].(toBeRemoved := p.workers[w].toBeRemoved || (w in p.cluster && p.workers[w].appId == app));
      if w in p.cached && w !in left then o.(place := Nowhere, killed := true) else o)
  }

  lemma KillCachedOneLaw(cfg: Config, p: Pool, w: nat)
    requires PoolOk(p) && w in p.cached
    ensures w in p.workers
    ensures Kill(cfg, p, w) == p.(cached := Without(p.cached, w),
                                  workers := p.workers[w := p.workers[w].(place := Nowhere, killed := true)])
    ensures forall x :: x in Without(p.cached, w) <==> x in p.cached && x != w
  {
    hide PoolOk, KeepMinIdle, Without;
    CachedPlace(p, w);
    WithoutMembers(p.cached, w);
  }

  lemma CachedPlace(p: Pool, w: nat)
    requires PoolOk(p) && w in p.cached
    ensures NoDup(p.cached) && w in p.workers && p.workers[w].place == Cached
  {
    hide Counts, Sorted, OneApp, Fresh, Known;
  }

  lemma {:induction false} WalkLaw(cfg: Config, p: Pool, app: Option<App>, k: nat, len: nat)
    requires PoolOk(p) && k <= len
    ensures var p' := KillCached(cfg, p, app, k, len);
      && (forall x | x in p'.cached :: x in p.cached)
      && p' == p.(cached := p'.cached, workers := map w | w in p.workers ::
           if w in p.cached && w !in p'.cached then p.workers[w].(place := Nowhere, killed := true) else p.workers[w])
    decreases len - k
  {
    hide PoolOk, Kill, Without;
    if k < len {
      if k < |p.cached| && p.cached[k] in p.workers && p.workers[p.cached[k]].appId == app {
        var w := p.cached[k];
        KillAnyKeeps(cfg, p, w);
        KillCachedOneLaw(cfg, p, w);
        WalkLaw(cfg, Kill(cfg, p, w), app, k + 1, len);
      } else {
        WalkLaw(cfg, p, app, k + 1, len);
      }
    }
  }

  lemma SweepLaw(cfg: Config, p: Pool, app: Option<App>)
    requires PoolOk(p)
    ensures Swept(p, app, KillAllAppWorkers(cfg, p, app))
  {
    hide PoolOk, KillCached, Survivors;
    MarkKeeps(p, app);
    KillAllLeaves(cfg, p, app);
    WalkLaw(cfg, MarkAll(p, app), app, 0, |p.cached|);
  }
}
