/** What each pool operation leaves alone, which worker a hand-off picks, which one is evicted, and
    which cached workers outlive a redeployment. */
module PoolFrames {
  import opened Options
  import opened WorkerPool
  import opened PoolInvariants

  predicate SameTask(o: Worker, o': Worker) {
    && o'.task == o.task && o'.ran == o.ran && o'.reports == o.reports && o'.afterMark == o.afterMark
    && (o.toBeRemoved ==> o'.toBeRemoved)
  }

  /** The broker's view of worker `w`; one not forked yet is as a new one. */
  function At(p: Pool, w: nat): Worker {
    if w in p.workers then p.workers[w] else NewWorker
  }

  /** No worker but those of `but` was given or has lost a task. */
  ghost predicate Untouched(p: Pool, p': Pool, but: set<nat>) {
    && p.workers.Keys <= p'.workers.Keys
    && (forall w | w !in but :: SameTask(At(p, w), At(p', w)))
  }

  /** No task was handed out or taken back: workers were moved away, marked, killed or forked. */
  ghost predicate Faded(p: Pool, p': Pool) {
    && |p'.busy| <= |p.busy|
    && (forall a :: Load(p', a) <= Load(p, a))
    && (forall w | w in p'.cached :: w in p.cached)
    && Untouched(p, p', {})
  }

  lemma FadedTrans(p: Pool, q: Pool, r: Pool)
    requires Faded(p, q) && Faded(q, r)
    ensures Faded(p, r)
  {
    forall w ensures SameTask(At(p, w), At(r, w)) {
      assert SameTask(At(p, w), At(q, w)) && SameTask(At(q, w), At(r, w));
    }
    forall a ensures Load(r, a) <= Load(p, a) {
      assert Load(r, a) <= Load(q, a) <= Load(p, a);
    }
  }

  lemma ExtendsFades(p: Pool, p': Pool)
    requires Extends(p, p')
    ensures Faded(p, p')
  {
    forall a ensures Load(p', a) <= Load(p, a) {}
    forall w ensures SameTask(At(p, w), At(p', w)) {}
  }

  /** What `relocateWorker` does to the figures the master looks at. */
  ghost predicate Shifted(p: Pool, p': Pool, w: nat, to: Place)
    requires w in p.workers
  {
    && w in p'.workers
    && p'.workers[w] == p.workers[w].(
         place := to, waitsSince := if Waits(to) then p.clock else p.workers[w].waitsSince)
    && |p'.busy| == |p.busy| - (if p.workers[w].place == Busy then 1 else 0) + (if to == Busy then 1 else 0)
    && (forall a :: Load(p', a) <= Load(p, a) + if to == Busy && a == p.workers[w].appId then 1 else 0)
    && (forall x | x in p'.cached :: x in p.cached || (x == w && to == Cached))
    && Untouched(p, p', {w})
  }

  lemma RelocateShifts(cfg: Config, p: Pool, w: nat, to: Place)
    requires w in p.workers && Known(p) && FiledBut(p, {w})
    ensures Shifted(p, Relocate(cfg, p, w, to), w, to)
  {
    hide FiledBut, Known, Relocate, Moved, Counted, Load;
    RelocateMoves(cfg, p, w, to);
    MovedFiles(p, w, to);
    var p' := Relocate(cfg, p, w, to);
    CountedLoad(p, w, to, p');
    CachedAfter(p, w, to);
    OnlyMovedUntouched(p, p', w, to);
  }

  lemma OnlyMovedUntouched(p: Pool, p': Pool, w: nat, to: Place)
    requires w in p.workers && OnlyMoved(p, p', w, to)
    ensures Untouched(p, p', {w})
  {
    hide Known;
  }

  lemma CountedLoad(p: Pool, w: nat, to: Place, p': Pool)
    requires w in p.workers
    requires p'.appsLoad == Counted(p, p.workers[w].appId, p.workers[w].place, to).appsLoad
    ensures forall a :: Load(p', a) <= Load(p, a) + if to == Busy && a == p.workers[w].appId then 1 else 0
  {
  }

  lemma CachedAfter(p: Pool, w: nat, to: Place)
    requires w in p.workers && FiledBut(p, {w})
    ensures forall x | x in Moved(p, w, to).cached :: x in p.cached || (x == w && to == Cached)
  {
    WithoutMembers(p.cached, w);
  }

  lemma RelocateFades(cfg: Config, p: Pool, w: nat, to: Place)
    requires w in p.workers && Known(p) && FiledBut(p, {w}) && (to == Nowhere || to == Idle)
    ensures Faded(p, Relocate(cfg, p, w, to))
  {
    hide FiledBut, Known, Relocate;
    RelocateShifts(cfg, p, w, to);
    var p' := Relocate(cfg, p, w, to);
    forall x ensures SameTask(At(p, x), At(p', x)) {}
  }

  lemma KillFades(cfg: Config, p: Pool, w: nat)
    requires w in p.workers && Known(p) && FiledBut(p, {w})
    ensures Faded(p, Kill(cfg, p, w))
  {
    hide FiledBut, Known, Relocate;
    RelocateFades(cfg, p, w, Nowhere);
    RelocateHas(cfg, p, w, Nowhere);
    SameLoad(Relocate(cfg, p, w, Nowhere), Kill(cfg, p, w));
    FlaggedFades(p, Relocate(cfg, p, w, Nowhere), Kill(cfg, p, w), w);
  }

  lemma RelocateHas(cfg: Config, p: Pool, w: nat, to: Place)
    requires w in p.workers && Known(p) && FiledBut(p, {w})
    ensures w in Relocate(cfg, p, w, to).workers
  {
    hide FiledBut, Known, Relocate;
    RelocateShifts(cfg, p, w, to);
  }

  lemma FlaggedFades(p: Pool, p1: Pool, p': Pool, w: nat)
    requires Faded(p, p1) && w in p1.workers && p' == p1.(workers := p1.workers[w := p1.workers[w].(killed := true)])
    requires forall a :: Load(p', a) == Load(p1, a)
    ensures Faded(p, p')
  {
    forall x ensures SameTask(At(p, x), At(p', x)) { assert SameTask(At(p, x), At(p1, x)); }
  }

  lemma KillAnyFades(cfg: Config, p: Pool, w: nat)
    requires PoolOk(p) && w in p.workers
    ensures Faded(p, Kill(cfg, p, w))
  {
    WeakenFiled(p, w);
    hide Faded, FiledBut, Kill;
    KillFades(cfg, p, w);
  }

  lemma ExitedFades(cfg: Config, p: Pool, w: nat, disconnected: bool)
    requires PoolOk(p) && w in p.workers
    ensures Faded(p, Exited(cfg, p, w, disconnected))
  {
    hide PoolOk, Faded, FiledBut, Known, Relocate;
    var cluster := if disconnected then p.cluster - {w} else p.cluster;
    var q := p.(workers := p.workers[w := p.workers[w].(exited := true)], cluster := cluster);
    ExitFlagKeeps(p, w, cluster);
    ExitFlagFades(p, w, q);
    if !p.workers[w].killed {
      Weakened(q, w);
      RelocateFades(cfg, q, w, Nowhere);
      FadedTrans(p, q, Relocate(cfg, q, w, Nowhere));
    }
  }

  lemma ExitFlagFades(p: Pool, w: nat, q: Pool)
    requires w in p.workers
    requires q == p.(workers := p.workers[w := p.workers[w].(exited := true)], cluster := q.cluster)
    ensures Faded(p, q)
  {
    SameLoad(p, q);
  }

  lemma FadedSelf(p: Pool)
    ensures Faded(p, p)
  {
  }

  lemma StartedFades(cfg: Config, p: Pool, w: nat)
    requires PoolOk(p) && w in p.booting
    ensures Faded(p, Started(cfg, p, w))
  {
    WeakenFiled(p, w);
    RelocateFades(cfg, p, w, Idle);
    hide FiledBut, Relocate;
    var p1, p' := Relocate(cfg, p, w, Idle), Started(cfg, p, w);
    forall a ensures Load(p', a) <= Load(p, a) { assert Load(p', a) == Load(p1, a); }
    forall x ensures SameTask(At(p, x), At(p', x)) { assert SameTask(At(p, x), At(p1, x)); }
  }

  lemma ForkFades(p: Pool)
    requires PoolOk(p)
    ensures Faded(p, Fork(p))
  {
    ForkKeeps(p);
    ExtendsFades(p, Fork(p));
  }

  lemma MakeRoomFades(cfg: Config, p: Pool)
    requires PoolOk(p)
    ensures Faded(p, MakeRoom(cfg, p))
  {
    hide OneApp, Fresh, Counts, Sorted, Lists, Kill, Faded;
    FadedSelf(p);
    if CacheEnabled(cfg) && cfg.cachedLimit <= |p.cached| && p.cached != [] {
      var w := p.cached[|p.cached| - 1];
      var q := p.(cached := p.cached[..|p.cached| - 1]);
      PoppedLists(p.cached, p.workers, Cached);
      PoppedOthers(p, q, w);
      KillFades(cfg, q, w);
      FadedBy(p, q);
      FadedTrans(p, q, Kill(cfg, q, w));
    }
  }

  lemma FadedBy(p: Pool, q: Pool)
    requires p.cached != [] && q == p.(cached := p.cached[..|p.cached| - 1])
    ensures Faded(p, q)
  {
  }

  lemma MarkFades(p: Pool, app: Option<App>)
    ensures Faded(p, MarkAll(p, app))
  {
    var p' := MarkAll(p, app);
    forall a ensures Load(p', a) <= Load(p, a) {}
    forall x ensures SameTask(At(p, x), At(p', x)) {}
  }

  lemma {:induction false} KillCachedFades(cfg: Config, p: Pool, app: Option<App>, k: nat, len: nat)
    requires PoolOk(p) && k <= len
    ensures Faded(p, KillCached(cfg, p, app, k, len))
    decreases len - k
  {
    FadedSelf(p);
    hide PoolOk, Kill, Faded;
    if k < len {
      if k < |p.cached| && p.cached[k] in p.workers && p.workers[p.cached[k]].appId == app {
        KillAnyKeeps(cfg, p, p.cached[k]);
        KillAnyFades(cfg, p, p.cached[k]);
        var q := Kill(cfg, p, p.cached[k]);
        KillCachedFades(cfg, q, app, k + 1, len);
        FadedTrans(p, q, KillCached(cfg, q, app, k + 1, len));
      } else {
        KillCachedFades(cfg, p, app, k + 1, len);
      }
    }
  }

  lemma KillAllFades(cfg: Config, p: Pool, app: Option<App>)
    requires PoolOk(p)
    ensures Faded(p, KillAllAppWorkers(cfg, p, app))
  {
    hide PoolOk, Faded, KillCached;
    MarkKeeps(p, app);
    MarkFades(p, app);
    KillCachedFades(cfg, MarkAll(p, app), app, 0, |p.cached|);
    FadedTrans(p, MarkAll(p, app), KillAllAppWorkers(cfg, p, app));
  }

  // ----- handing a task over

  /** The task is on record as the worker's present one and as the last it got. */
  predicate Given(o: Worker, o': Worker, t: Task) {
    && o'.task == Some(t) && o'.ran == o.ran + [t] && o'.reports == 0
    && o'.afterMark == o.afterMark + (if o.toBeRemoved then 1 else 0)
    && (o.toBeRemoved ==> o'.toBeRemoved)
  }

  /** `task` went to worker `w`, which had none: one more is busy, at most one more is charged to the
      task's app, and no other worker was involved. */
  ghost predicate HandedTo(cfg: Config, p: Pool, p': Pool, w: nat, task: Task) {
    && w in p.workers && w in p'.workers && p.workers[w].task == None
    && (p.workers[w].place == Idle || p.workers[w].place == Cached)
    && p'.workers[w].place == Busy
    && Given(p.workers[w], p'.workers[w], if cfg.cachedLimit != 0 then task else Task(task.id, task.app, false))
    && |p'.busy| == |p.busy| + 1
    && (forall a :: Load(p', a) <= Load(p, a) + if a == None || a == Some(task.app) then 1 else 0)
    && (forall x | x in p'.cached :: x in p.cached)
    && Untouched(p, p', {w})
  }

  lemma ProcessTaskFrame(cfg: Config, p: Pool, w: nat, task: Task)
    requires w in p.workers && FiledBut(p, {w}) && Known(p)
    requires p.workers[w].place == Idle || p.workers[w].place == Cached
    requires p.workers[w].task == None
    requires p.workers[w].appId == None || p.workers[w].appId == Some(task.app)
    ensures HandedTo(cfg, p, ProcessTask(cfg, p, w, task), w, task)
  {
    hide FiledBut, Known, Relocate, Load;
    var q := p.(workers := p.workers[w := Assigned(cfg, p.workers[w], task)]);
    BooksKeep(p, q.workers, {w});
    RelocateShifts(cfg, q, w, Busy);
    SameLoad(p, q);
    FieldUntouched(p, q, ProcessTask(cfg, p, w, task), w);
  }

  lemma SameLoad(p: Pool, q: Pool)
    requires q.appsLoad == p.appsLoad
    ensures forall a :: Load(q, a) == Load(p, a)
  {
  }

  lemma FieldUntouched(p: Pool, q: Pool, p': Pool, w: nat)
    requires w in p.workers && q.workers.Keys == p.workers.Keys && Untouched(q, p', {w})
    requires forall x | x in p.workers && x != w :: q.workers[x] == p.workers[x]
    ensures Untouched(p, p', {w})
  {
    forall x | x != w ensures SameTask(At(p, x), At(p', x)) { assert At(q, x) == At(p, x); }
  }

  lemma HandedAfterPop(cfg: Config, p: Pool, q: Pool, p': Pool, w: nat, task: Task)
    requires HandedTo(cfg, q, p', w, task) && q.workers.Keys == p.workers.Keys
    requires q.busy == p.busy && q.cached == p.cached && q.appsLoad == p.appsLoad
    requires forall x | x in p.workers && x != w :: q.workers[x] == p.workers[x]
    requires w in p.workers && q.workers[w] == p.workers[w].(appId := q.workers[w].appId)
    ensures HandedTo(cfg, p, p', w, task)
  {
    forall a ensures Load(p', a) <= Load(p, a) + if a == None || a == Some(task.app) then 1 else 0 {
      assert Load(q, a) == Load(p, a);
    }
    forall x | x != w ensures SameTask(At(p, x), At(p', x)) { assert At(q, x) == At(p, x); }
  }

  lemma HandOffIdleFrame(cfg: Config, p: Pool, w: nat, task: Task)
    requires PoolOk(p) && p.idle != [] && w == p.idle[|p.idle| - 1] && w in p.workers
    ensures HandedTo(cfg, p, ProcessTask(cfg, Popped(p, w, task.app, task.cacheable), w, task), w, task)
  {
    hide OneApp, PoolOk, FiledBut, ProcessTask, HandedTo, Counts, Sorted, Known;
    var q := Popped(p, w, task.app, task.cacheable);
    PopKeeps(p, w, q.workers[w].appId);
    LifeOf(p, w);
    IdleIsNew(p.workers[w]);
    assert !task.cacheable ==> p.workers == p.workers[w := p.workers[w].(appId := p.workers[w].appId)];
    ProcessTaskFrame(cfg, q, w, task);
    HandedAfterPop(cfg, p, q, ProcessTask(cfg, q, w, task), w, task);
  }

  lemma LifeOf(p: Pool, w: nat)
    requires PoolOk(p) && w in p.workers
    ensures OneApp(p.workers[w])
  {
  }

  lemma IdleIsNew(o: Worker)
    requires OneApp(o) && (o.place == Idle || o.place == Cached)
    ensures o.task == None && (o.place == Idle ==> o.appId == None)
  {
  }

  lemma HandOffFrame(cfg: Config, p: Pool, task: Task)
    requires PoolOk(p) && HandOff(cfg, p, task).Some?
    ensures HandedTo(cfg, p, HandOff(cfg, p, task).value.0, HandOff(cfg, p, task).value.1, task)
  {
    var hit := Hit(cfg, p, task.app, task.cacheable);
    FindCachedIs(p.cached, p.workers, task.app);
    if hit.Some? {
      var w := hit.value;
      assert w in p.cached;
      IdleIsNew(p.workers[w]);
      WeakenFiled(p, w);
      hide PoolOk, FiledBut, HandedTo, ProcessTask;
      ProcessTaskFrame(cfg, p, w, task);
    } else {
      hide PoolOk, HandedTo, ProcessTask;
      HandOffIdleFrame(cfg, p, p.idle[|p.idle| - 1], task);
    }
  }

  /** The three ways a hand-over can go. */
  lemma HandOffIs(cfg: Config, p: Pool, task: Task)
    requires PoolOk(p)
    ensures var hit := Hit(cfg, p, task.app, task.cacheable);
      && (hit.Some? ==>
            hit.value in p.workers
            && HandOff(cfg, p, task) == Some((ProcessTask(cfg, p, hit.value, task), hit.value)))
      && (hit.None? && p.idle != [] ==>
            var w := p.idle[|p.idle| - 1];
            w in p.workers
            && HandOff(cfg, p, task) == Some((ProcessTask(cfg, Popped(p, w, task.app, task.cacheable), w, task), w)))
      && (hit.None? && p.idle == [] ==> HandOff(cfg, p, task) == None)
  {
    hide PoolOk, ProcessTask;
    Pooled(p);
    FindCachedIs(p.cached, p.workers, task.app);
    assert p.idle != [] ==> p.idle[|p.idle| - 1] in p.idle;
  }

  // ----- which worker

  /** A cacheable task goes to the cached worker of its app that was released last, if there is one;
      any other to the worker that has been idle longest of all. */
  lemma ReuseIsMostRecent(cfg: Config, p: Pool, task: Task)
    requires PoolOk(p) && HandOff(cfg, p, task).Some?
    ensures var w := HandOff(cfg, p, task).value.1;
      if CacheEnabled(cfg) && task.cacheable && exists x :: x in p.cached && p.workers[x].appId == Some(task.app)
      then
        && w in p.cached && p.workers[w].appId == Some(task.app)
        && forall x | x in p.cached && p.workers[x].appId == Some(task.app) ::
             p.workers[x].waitsSince <= p.workers[w].waitsSince
      else
        && w in p.idle
        && forall x | x in p.idle :: p.workers[w].waitsSince <= p.workers[x].waitsSince
  {
    hide PoolOk, ProcessTask;
    Pooled(p);
    LastIsFirst(p);
    FindCachedIs(p.cached, p.workers, task.app);
    var hit := Hit(cfg, p, task.app, task.cacheable);
    if hit.Some? {
      var i :| 0 <= i < |p.cached| && p.cached[i] == hit.value
        && forall j | 0 <= j < i && p.cached[j] in p.workers :: p.workers[p.cached[j]].appId != Some(task.app);
      FirstIsLatest(p, task.app, i);
    }
  }

  /** The last of the idle workers has been waiting longest. */
  lemma LastIsFirst(p: Pool)
    requires PoolOk(p)
    ensures p.idle != [] ==> var w := p.idle[|p.idle| - 1];
      w in p.workers && forall x | x in p.idle :: x in p.workers && p.workers[w].waitsSince <= p.workers[x].waitsSince
  {
    if p.idle != [] {
      var w := p.idle[|p.idle| - 1];
      assert w in p.idle;
      forall x | x in p.idle ensures p.workers[w].waitsSince <= p.workers[x].waitsSince {
        var j :| 0 <= j < |p.idle| && p.idle[j] == x;
      }
    }
  }

  lemma FirstIsLatest(p: Pool, app: App, i: nat)
    requires PoolOk(p) && i < |p.cached|
    requires forall j | 0 <= j < i && p.cached[j] in p.workers :: p.workers[p.cached[j]].appId != Some(app)
    ensures p.cached[i] in p.workers
    ensures forall x | x in p.cached && x in p.workers && p.workers[x].appId == Some(app) ::
      p.workers[x].waitsSince <= p.workers[p.cached[i]].waitsSince
  {
    assert p.cached[i] in p.cached;
    forall x | x in p.cached && x in p.workers && p.workers[x].appId == Some(app)
      ensures p.workers[x].waitsSince <= p.workers[p.cached[i]].waitsSince
    {
      var j :| 0 <= j < |p.cached| && p.cached[j] == x;
      assert !(j < i);
    }
  }

  /** When the cache is full, the worker released longest ago is killed, and only it leaves. */
  lemma EvictionIsLeastRecent(cfg: Config, p: Pool)
    requires PoolOk(p) && CacheEnabled(cfg) && cfg.cachedLimit <= |p.cached|
    ensures |p.cached| > 0
    ensures var w := p.cached[|p.cached| - 1];
      && MakeRoom(cfg, p).cached == p.cached[..|p.cached| - 1]
      && w in p.workers && w in MakeRoom(cfg, p).workers && MakeRoom(cfg, p).workers[w].killed
      && forall x | x in p.cached :: p.workers[w].waitsSince <= p.workers[x].waitsSince
  {
    hide PoolOk, Relocate;
    LastCachedIsOldest(p);
    var w := p.cached[|p.cached| - 1];
    var q := p.(cached := p.cached[..|p.cached| - 1]);
    RelocateMoves(cfg, q, w, Nowhere);
    WithoutAt(q.cached, w, |q.cached|);
  }

  lemma LastCachedIsOldest(p: Pool)
    requires PoolOk(p)
    ensures p.cached != [] ==> var w := p.cached[|p.cached| - 1]; var q := p.(cached := p.cached[..|p.cached| - 1]);
      && w in p.workers && p.workers[w].place == Cached && Known(q)
      && (forall x | x in p.cached :: x in p.workers && p.workers[w].waitsSince <= p.workers[x].waitsSince)
      && forall j | 0 <= j < |q.cached| :: q.cached[j] != w
  {
    if p.cached != [] {
      var w := p.cached[|p.cached| - 1];
      assert w in p.cached;
      forall x | x in p.cached ensures p.workers[w].waitsSince <= p.workers[x].waitsSince {
        var j :| 0 <= j < |p.cached| && p.cached[j] == x;
      }
    }
  }

  // ----- redeployment

  predicate IsOf(ws: map<nat, Worker>, w: nat, app: Option<App>) {
    w in ws && ws[w].appId == app
  }

  /** The cached workers that outlive `killAllAppWorkers`: each kill closes the gap under the walk's
      index, so the worker behind a killed one is passed over, whatever its app. */
  function Survivors(s: seq<nat>, ws: map<nat, Worker>, app: Option<App>): seq<nat> {
    if s == [] then []
    else if !IsOf(ws, s[0], app) then [s[0]] + Survivors(s[1..], ws, app)
    else if |s| == 1 then []
    else [s[1]] + Survivors(s[2..], ws, app)
  }

  lemma {:induction false} SurvivorsFrame(s: seq<nat>, ws: map<nat, Worker>, ws': map<nat, Worker>, app: Option<App>)
    requires forall x | x in s :: IsOf(ws, x, app) == IsOf(ws', x, app)
    ensures Survivors(s, ws, app) == Survivors(s, ws', app)
    decreases |s|
  {
    if s != [] {
      assert s[0] in s;
      SurvivorsFrame(s[1..], ws, ws', app);
      if |s| > 1 { SurvivorsFrame(s[2..], ws, ws', app); }
    }
  }

  lemma KillCachedOne(cfg: Config, p: Pool, k: nat)
    requires PoolOk(p) && k < |p.cached|
    ensures var w := p.cached[k];
      && w in p.workers && Kill(cfg, p, w).cached == p.cached[..k] + p.cached[k + 1..]
      && forall x, app | x in p.workers :: IsOf(Kill(cfg, p, w).workers, x, app) == IsOf(p.workers, x, app)
  {
    var w := p.cached[k];
    assert w in p.cached;
    RelocateMoves(cfg, p, w, Nowhere);
    WithoutAt(p.cached, w, k);
  }

  /** What the walk leaves when it stands at index `k` of the array `s`. */
  function LeftFrom(s: seq<nat>, k: nat, ws: map<nat, Worker>, app: Option<App>): seq<nat> {
    if k < |s| then s[..k] + Survivors(s[k..], ws, app) else s
  }

  lemma LeftStep(s: seq<nat>, k: nat, ws: map<nat, Worker>, app: Option<App>)
    requires k < |s|
    ensures !IsOf(ws, s[k], app) ==> LeftFrom(s, k, ws, app) == LeftFrom(s, k + 1, ws, app)
    ensures IsOf(ws, s[k], app) ==> LeftFrom(s, k, ws, app) == LeftFrom(s[..k] + s[k + 1..], k + 1, ws, app)
  {
    if IsOf(ws, s[k], app) { LeftKilled(s, k, ws, app); } else { LeftKept(s, k, ws, app); }
  }

  lemma LeftKept(s: seq<nat>, k: nat, ws: map<nat, Worker>, app: Option<App>)
    requires k < |s| && !IsOf(ws, s[k], app)
    ensures LeftFrom(s, k, ws, app) == LeftFrom(s, k + 1, ws, app)
  {
    hide IsOf;
    var more := Survivors(s[k + 1..], ws, app);
    assert s[k..][0] == s[k] && s[k..][1..] == s[k + 1..];
    assert Survivors(s[k..], ws, app) == [s[k]] + more;
    assert s[..k] + ([s[k]] + more) == s[..k + 1] + more;
    if k + 1 == |s| {
      assert s[k + 1..] == [] && more == [];
      assert s[..k + 1] + [] == s;
    }
  }

  lemma LeftKilled(s: seq<nat>, k: nat, ws: map<nat, Worker>, app: Option<App>)
    requires k < |s| && IsOf(ws, s[k], app)
    ensures LeftFrom(s, k, ws, app) == LeftFrom(s[..k] + s[k + 1..], k + 1, ws, app)
  {
    hide IsOf;
    var q := s[..k] + s[k + 1..];
    assert s[k..][0] == s[k];
    if k + 1 == |s| {
      assert Survivors(s[k..], ws, app) == [] && q == s[..k];
      assert s[..k] + [] == s[..k];
    } else {
      var more := Survivors(s[k + 2..], ws, app);
      assert s[k..][1] == s[k + 1] && s[k..][2..] == s[k + 2..];
      assert Survivors(s[k..], ws, app) == [s[k + 1]] + more;
      assert q[..k + 1] == s[..k] + [s[k + 1]] && q[k + 1..] == s[k + 2..];
      assert s[..k] + ([s[k + 1]] + more) == q[..k + 1] + more;
      if k + 1 == |q| {
        assert s[k + 2..] == [] && more == [];
        assert q[..k + 1] + [] == q;
      }
    }
  }

  lemma LeftFrame(s: seq<nat>, k: nat, ws: map<nat, Worker>, ws': map<nat, Worker>, app: Option<App>)
    requires forall x | x in s :: IsOf(ws, x, app) == IsOf(ws', x, app)
    ensures LeftFrom(s, k, ws, app) == LeftFrom(s, k, ws', app)
  {
    if k < |s| { SurvivorsFrame(s[k..], ws, ws', app); }
  }

  lemma LeftPast(s: seq<nat>, k: nat, ws: map<nat, Worker>, app: Option<App>)
    requires |s| <= k
    ensures LeftFrom(s, k, ws, app) == s
  {
  }

  lemma KillCachedStep(cfg: Config, p: Pool, app: Option<App>, k: nat, len: nat)
    requires k < len
    ensures KillCached(cfg, p, app, k, len) ==
            if k < |p.cached| && IsOf(p.workers, p.cached[k], app)
            then KillCached(cfg, Kill(cfg, p, p.cached[k]), app, k + 1, len)
            else KillCached(cfg, p, app, k + 1, len)
  {
    hide Kill;
  }

  lemma KillCachedDone(cfg: Config, p: Pool, app: Option<App>, k: nat)
    ensures KillCached(cfg, p, app, k, k) == p
  {
  }

  /** One kill of the walk, and what is left to walk over. */
  lemma KilledLeft(cfg: Config, p: Pool, app: Option<App>, k: nat)
    requires PoolOk(p) && k < |p.cached| && IsOf(p.workers, p.cached[k], app)
    ensures var q := Kill(cfg, p, p.cached[k]);
      && PoolOk(q) && |q.cached| == |p.cached| - 1
      && LeftFrom(p.cached, k, p.workers, app) == LeftFrom(q.cached, k + 1, q.workers, app)
  {
    hide PoolOk, Kill, LeftFrom, IsOf;
    KillCachedOne(cfg, p, k);
    IsOfKnown(p.workers, p.cached[k], app);
    KillAnyKeeps(cfg, p, p.cached[k]);
    LeftStep(p.cached, k, p.workers, app);
    var q := Kill(cfg, p, p.cached[k]);
    Pooled(p);
    LeftFrame(q.cached, k + 1, p.workers, q.workers, app);
  }

  lemma IsOfKnown(ws: map<nat, Worker>, w: nat, app: Option<App>)
    requires IsOf(ws, w, app)
    ensures w in ws
  {
  }

  lemma {:induction false} KillCachedLeaves(cfg: Config, p: Pool, app: Option<App>, k: nat, len: nat)
    requires PoolOk(p) && k <= len && |p.cached| <= len
    ensures KillCached(cfg, p, app, k, len).cached == LeftFrom(p.cached, k, p.workers, app)
    decreases len - k
  {
    hide PoolOk, Kill, KillCached, LeftFrom, IsOf;
    if k == len {
      KillCachedDone(cfg, p, app, k);
      LeftPast(p.cached, k, p.workers, app);
    } else {
      KillCachedStep(cfg, p, app, k, len);
      if k >= |p.cached| {
        LeftPast(p.cached, k, p.workers, app);
        LeftPast(p.cached, k + 1, p.workers, app);
        KillCachedLeaves(cfg, p, app, k + 1, len);
      } else if IsOf(p.workers, p.cached[k], app) {
        KilledLeft(cfg, p, app, k);
        IsOfKnown(p.workers, p.cached[k], app);
        KillCachedLeaves(cfg, Kill(cfg, p, p.cached[k]), app, k + 1, len);
      } else {
        LeftStep(p.cached, k, p.workers, app);
        KillCachedLeaves(cfg, p, app, k + 1, len);
      }
    }
  }

  lemma {:induction false} SurvivorsMembers(s: seq<nat>, ws: map<nat, Worker>, app: Option<App>)
    ensures forall x | x in Survivors(s, ws, app) :: x in s
    ensures forall x | x in s && !IsOf(ws, x, app) :: x in Survivors(s, ws, app)
    ensures (exists x :: x in Survivors(s, ws, app) && IsOf(ws, x, app)) <==>
            (exists i :: 0 <= i < |s| - 1 && IsOf(ws, s[i], app) && IsOf(ws, s[i + 1], app))
    decreases |s|
  {
    var r := Survivors(s, ws, app);
    if s != [] && !IsOf(ws, s[0], app) {
      var t := s[1..];
      SurvivorsMembers(t, ws, app);
      assert forall i | 0 <= i < |t| :: t[i] == s[i + 1];
      if i :| 0 <= i < |s| - 1 && IsOf(ws, s[i], app) && IsOf(ws, s[i + 1], app) {
        assert IsOf(ws, t[i - 1], app) && IsOf(ws, t[i - 1 + 1], app);
      }
      if i :| 0 <= i < |t| - 1 && IsOf(ws, t[i], app) && IsOf(ws, t[i + 1], app) {
        assert IsOf(ws, s[i + 1], app) && IsOf(ws, s[i + 1 + 1], app);
      }
    } else if |s| > 1 {
      var t := s[2..];
      SurvivorsMembers(t, ws, app);
      assert forall i | 0 <= i < |t| :: t[i] == s[i + 2];
      assert s == [s[0], s[1]] + t;
      assert s[1] == r[0];
      if IsOf(ws, s[1], app) {
        assert IsOf(ws, s[0], app) && IsOf(ws, s[0 + 1], app);
      } else {
        if i :| 0 <= i < |s| - 1 && IsOf(ws, s[i], app) && IsOf(ws, s[i + 1], app) {
          assert i >= 2;
          assert IsOf(ws, t[i - 2], app) && IsOf(ws, t[i - 2 + 1], app);
        }
        if i :| 0 <= i < |t| - 1 && IsOf(ws, t[i], app) && IsOf(ws, t[i + 1], app) {
          assert IsOf(ws, s[i + 2], app) && IsOf(ws, s[i + 2 + 1], app);
        }
      }
    }
  }

  lemma KillAllLeaves(cfg: Config, p: Pool, app: Option<App>)
    requires PoolOk(p)
    ensures KillAllAppWorkers(cfg, p, app).cached == Survivors(p.cached, p.workers, app)
  {
    hide PoolOk, KillCached, Survivors;
    var m := MarkAll(p, app);
    MarkKeeps(p, app);
    KillCachedLeaves(cfg, m, app, 0, |p.cached|);
    LeftFrame(p.cached, 0, p.workers, m.workers, app);
    LeftFromStart(p.cached, p.workers, app);
  }

  lemma LeftFromStart(s: seq<nat>, ws: map<nat, Worker>, app: Option<App>)
    ensures LeftFrom(s, 0, ws, app) == Survivors(s, ws, app)
  {
    if s != [] { assert s[0..] == s && s[..0] + Survivors(s, ws, app) == Survivors(s, ws, app); }
  }

  /** A redeployment kills no cached worker of another app, and empties the cache of the app's workers
      exactly when no two of them were neighbours. */
  lemma RedeployClears(cfg: Config, p: Pool, app: Option<App>)
    requires PoolOk(p)
    ensures var p' := KillAllAppWorkers(cfg, p, app);
      && (forall x | x in p'.cached :: x in p.cached)
      && (forall x | x in p.cached && !IsOf(p.workers, x, app) :: x in p'.cached)
      && ((exists x :: x in p'.cached && IsOf(p.workers, x, app)) <==>
          (exists i :: 0 <= i < |p.cached| - 1
                       && IsOf(p.workers, p.cached[i], app) && IsOf(p.workers, p.cached[i + 1], app)))
  {
    hide PoolOk, KillAllAppWorkers, Survivors, IsOf;
    KillAllLeaves(cfg, p, app);
    SurvivorsMembers(p.cached, p.workers, app);
  }

  /** Killing moves one worker and marks none. */
  ghost predicate SameMarks(p: Pool, p': Pool) {
    forall w | w in p.workers :: w in p'.workers && p'.workers[w].toBeRemoved == p.workers[w].toBeRemoved
  }

  lemma KillSameMarks(cfg: Config, p: Pool, w: nat)
    requires PoolOk(p) && w in p.workers
    ensures SameMarks(p, Kill(cfg, p, w))
  {
    RelocateMoves(cfg, p, w, Nowhere);
    hide Relocate, Known;
  }

  lemma {:induction false} KillCachedSameMarks(cfg: Config, p: Pool, app: Option<App>, k: nat, len: nat)
    requires PoolOk(p) && k <= len
    ensures SameMarks(p, KillCached(cfg, p, app, k, len))
    decreases len - k
  {
    hide PoolOk, Kill, KillCached, IsOf;
    if k == len {
      KillCachedDone(cfg, p, app, k);
    } else {
      KillCachedStep(cfg, p, app, k, len);
      if k < |p.cached| && IsOf(p.workers, p.cached[k], app) {
        IsOfKnown(p.workers, p.cached[k], app);
        KillAnyKeeps(cfg, p, p.cached[k]);
        KillSameMarks(cfg, p, p.cached[k]);
        KillCachedSameMarks(cfg, Kill(cfg, p, p.cached[k]), app, k + 1, len);
      } else {
        KillCachedSameMarks(cfg, p, app, k + 1, len);
      }
    }
  }

  /** A redeployment marks, of the workers that were not marked before, exactly those of the app the
      cluster lists; these include every one of the app whose process has not exited. */
  lemma RedeployMarks(cfg: Config, p: Pool, app: Option<App>, w: nat)
    requires PoolOk(p) && w in p.workers
    ensures w in KillAllAppWorkers(cfg, p, app).workers
    ensures KillAllAppWorkers(cfg, p, app).workers[w].toBeRemoved <==>
            p.workers[w].toBeRemoved || (p.workers[w].appId == app && w in p.cluster)
    ensures p.workers[w].appId == app && !p.workers[w].exited ==>
            KillAllAppWorkers(cfg, p, app).workers[w].toBeRemoved
  {
    Pooled(p);
    hide PoolOk, KillCached;
    var m := MarkAll(p, app);
    MarkKeeps(p, app);
    KillCachedSameMarks(cfg, m, app, 0, |p.cached|);
  }

  // ----- messages

  /** 'idling' cannot add a busy worker, and only an unmarked worker enters the cache, after a cacheable task. */
  lemma IdlingFrame(cfg: Config, p: Pool, w: nat)
    requires PoolOk(p) && w in p.workers && p.workers[w].task.Some?
    ensures var p' := IdlingFrom(cfg, p, w);
      && |p'.busy| <= |p.busy|
      && (forall a :: Load(p', a) <= Load(p, a))
      && (forall x | x in p'.cached ::
            x in p.cached || (x == w && !p.workers[w].toBeRemoved && p.workers[w].task.value.cacheable))
      && Untouched(p, p', {w})
      && w in p'.workers
      && p'.workers[w].toBeRemoved == p.workers[w].toBeRemoved
      && p'.workers[w].ran == p.workers[w].ran && p'.workers[w].afterMark == p.workers[w].afterMark
      && p'.workers[w].reports == p.workers[w].reports
      && (p'.workers[w].task == p.workers[w].task || p'.workers[w].task == None)
  {
    hide FiledBut, Known, Relocate, PoolOk, Load;
    var o := p.workers[w];
    Weakened(p, w);
    if o.task.value.cacheable && !o.toBeRemoved {
      var q := p.(workers := p.workers[w := o.(task := None)]);
      BooksKeep(p, q.workers, {w});
      RelocateShifts(cfg, q, w, Cached);
      SameLoad(p, q);
      FieldUntouched(p, q, Relocate(cfg, q, w, Cached), w);
    } else {
      RelocateShifts(cfg, p, w, Nowhere);
      KillFades(cfg, p, w);
    }
  }

  lemma Weakened(p: Pool, w: nat)
    requires PoolOk(p)
    ensures FiledBut(p, {w}) && Known(p)
  {
    WeakenFiled(p, w);
  }
}
