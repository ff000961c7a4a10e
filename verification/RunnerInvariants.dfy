/** What every event of the code runner keeps. */
module RunnerInvariants {
  import opened Options
  import opened WorkerPool
  import opened PoolInvariants
  import opened PoolFrames
  import opened CloudWorkerProcess
  import opened TaskRequests
  import opened RunnerSystem

  /** The channel of every worker agrees with the task the broker has on record for it. */
  ghost predicate Channels(s: State) {
    forall w :: Flow(At(s.pool, w), Proc(s, w))
  }

  /** The result went out under the task it is of, and that task was one of the worker's. */
  predicate LoggedRight(p: Pool, e: Emission) {
    e.task == Some(e.of) && e.w in p.workers && e.of in p.workers[e.w].ran
  }

  /** Results were put down to the tasks they are of, and no reported task is missing from the log. */
  ghost predicate Reported(s: State) {
    && s.faults == 0
    && (forall e | e in s.log :: LoggedRight(s.pool, e))
    && (forall w | w in s.pool.workers ::
          s.pool.workers[w].task.Some? && s.pool.workers[w].reports > 0 ==>
          Emission(w, s.pool.workers[w].task, s.pool.workers[w].task.value) in s.log)
  }

  /** The low priority queue is asked only for a positive threshold and with room for two tasks. */
  predicate UsesLowQueue(cfg: Settings) {
    cfg.threshold > 0.0 && cfg.cfg.limit > 1
  }

  /** taskRequests[q] is set exactly while one chain stands for it. */
  ghost predicate SlotsOk(cfg: Settings, s: State) {
    && (forall q :: Tally(s.chains, Holding(q)) == if q in s.slots then 1 else 0)
    && (!UsesLowQueue(cfg) ==> Tally(s.chains, On(LowPriority)) == 0)
  }

  /** Each getter client is in the pool or in one getTask call. */
  ghost predicate GettersOk(cfg: Settings, s: State) {
    && |s.getters| + Tally(s.chains, InGetTask) == GettersCount(cfg)
    && forall g: nat :: multiset(s.getters)[g] + Tally(s.chains, With(g)) == if g < GettersCount(cfg) then 1 else 0
  }

  ghost predicate Bounded(cfg: Settings, s: State) {
    && Tally(s.chains, Alive) <= s.peak
    && (|s.pool.busy| + Tally(s.chains, Alive) == 0
        || |s.pool.busy| + Tally(s.chains, Alive) <= cfg.cfg.limit - 1 + s.peak)
    && (cfg.cfg.limit <= 2 ==> Tally(s.chains, Early) == 0 && s.peak <= if UsesLowQueue(cfg) then 2 else 1)
  }

  ghost predicate RateOk(cfg: Settings, s: State) {
    cfg.cfg.rateEnabled ==> forall a :: RateOf(cfg, s, a)
  }

  ghost predicate RateOf(cfg: Settings, s: State, a: App) {
    var sum := Load(s.pool, Some(a)) + Tally(s.chains, For(a));
    && Tally(s.chains, For(a)) <= Peak(s, a)
    && (sum <= 0 || sum <= (if Limit(cfg.cfg, a) > 1 then Limit(cfg.cfg, a) else 1) - 1 + Peak(s, a))
  }

  ghost predicate Chained(cfg: Settings, s: State) {
    SlotsOk(cfg, s) && GettersOk(cfg, s) && Bounded(cfg, s) && RateOk(cfg, s)
  }

  ghost predicate Inv(cfg: Settings, s: State) {
    PoolOk(s.pool) && Channels(s) && Reported(s) && Chained(cfg, s)
  }

  // ----- the start

  lemma StartOk(cfg: Settings)
    ensures Inv(cfg, Start(cfg))
  {
    hide PoolOk, KeepMinIdle, GettersOk, Flow;
    var p0 := Pool([], [], [], map[], 0, map[], {}, {}, 0, 0, false);
    PoolStart();
    assert Known(p0);
    KeepMinIdleExtends(cfg.cfg, p0);
    ExtendsKeeps(p0, Start(cfg).pool);
    var s := Start(cfg);
    StartGetters(cfg);
    forall w ensures Flow(At(s.pool, w), Proc(s, w)) { QuietStart(); }
  }

  lemma StartGetters(cfg: Settings)
    ensures GettersOk(cfg, Start(cfg))
  {
    hide KeepMinIdle;
    assert Start(cfg).getters == if GettersCount(cfg) == 1 then [0] else [0, 1];
  }

  lemma QuietStart()
    ensures Flow(NewWorker, NewProcess)
  {
  }

  // ----- only the pool changes

  lemma PoolChange(cfg: Settings, s: State, p: Pool)
    requires Inv(cfg, s) && PoolOk(p) && Faded(s.pool, p)
    ensures Inv(cfg, s.(pool := p))
  {
    hide PoolOk, SlotsOk, GettersOk, Flow, RateOk, Limit;
    var s' := s.(pool := p);
    forall w ensures Flow(At(p, w), Proc(s', w)) {
      assert SameTask(At(s.pool, w), At(p, w));
      FlowSame(At(s.pool, w), At(p, w), Proc(s, w));
    }
    PoolReported(s, p);
    PoolRate(cfg, s, p);
    PoolSlots(cfg, s, p);
  }

  lemma FlowSame(o: Worker, o': Worker, pr: Process)
    requires Flow(o, pr) && o'.task == o.task && o'.reports == o.reports
    ensures Flow(o', pr)
  {
  }

  lemma PoolReported(s: State, p: Pool)
    requires Reported(s) && Untouched(s.pool, p, {})
    ensures Reported(s.(pool := p))
  {
    forall e | e in s.log ensures LoggedRight(p, e) {
      assert LoggedRight(s.pool, e) && SameTask(At(s.pool, e.w), At(p, e.w));
    }
    forall w | w in p.workers && p.workers[w].task.Some? && p.workers[w].reports > 0
      ensures Emission(w, p.workers[w].task, p.workers[w].task.value) in s.log
    {
      assert SameTask(At(s.pool, w), At(p, w));
    }
  }

  lemma PoolRate(cfg: Settings, s: State, p: Pool)
    requires RateOk(cfg, s) && forall a :: Load(p, a) <= Load(s.pool, a)
    ensures RateOk(cfg, s.(pool := p))
  {
    hide Limit, Load;
    if cfg.cfg.rateEnabled {
      forall a ensures RateOf(cfg, s.(pool := p), a) { assert RateOf(cfg, s, a); }
    }
  }

  lemma PoolSlots(cfg: Settings, s: State, p: Pool)
    requires SlotsOk(cfg, s) && GettersOk(cfg, s)
    ensures SlotsOk(cfg, s.(pool := p)) && GettersOk(cfg, s.(pool := p))
  {
  }

  // ----- the master's chains

  /** How one chain turning into another moves all the tallies. */
  lemma Updated(s: seq<Chain>, c: nat, x: Chain)
    requires c < |s|
    ensures forall k :: Tally(s[c := x], k) == Tally(s, k) - One(s[c], k) + One(x, k)
  {
    forall k ensures Tally(s[c := x], k) == Tally(s, k) - One(s[c], k) + One(x, k) {
      TallyUpdate(s, c, x, k);
    }
  }

  lemma Appended(s: seq<Chain>, x: Chain)
    ensures forall k :: Tally(s + [x], k) == Tally(s, k) + One(x, k)
  {
    forall k ensures Tally(s + [x], k) == Tally(s, k) + One(x, k) {
      TallyAppend(s, x, k);
    }
  }

  /** A getter client is at hand whenever a queue without a pending request asks for one. */
  lemma GetterAtHand(cfg: Settings, s: State, q: Queue)
    requires SlotsOk(cfg, s) && GettersOk(cfg, s) && q !in s.slots && (q == LowPriority ==> UsesLowQueue(cfg))
    ensures |s.getters| > 0
  {
    AliveSplits(s.chains);
    assert Tally(s.chains, Holding(q)) == 0;
    var other := if q == Main then LowPriority else Main;
    assert Tally(s.chains, Holding(other)) <= 1;
    assert q == Main && !UsesLowQueue(cfg) ==> Tally(s.chains, Holding(LowPriority)) == 0;
  }

  lemma BeginSlots(cfg: Settings, s: State, q: Queue)
    requires SlotsOk(cfg, s) && GettersOk(cfg, s) && (q == LowPriority ==> UsesLowQueue(cfg))
    ensures SlotsOk(cfg, Begin(s, q)) && GettersOk(cfg, Begin(s, q)) && Begin(s, q).faults == s.faults
  {
    hide Tally, UsesLowQueue;
    if q !in s.slots {
      GetterAtHand(cfg, s, q);
      var g := s.getters[|s.getters| - 1];
      Appended(s.chains, Getting(q, g));
      PoppedCount(s.getters);
      hide GettersCount;
      assert GettersOk(cfg, Begin(s, q));
    }
  }

  lemma PoppedCount(s: seq<nat>)
    requires |s| > 0
    ensures forall g: nat :: multiset(s[..|s| - 1])[g] == multiset(s)[g] - if g == s[|s| - 1] then 1 else 0
  {
    assert s == s[..|s| - 1] + [s[|s| - 1]];
  }

  lemma BeginBounded(cfg: Settings, s: State, q: Queue)
    requires SlotsOk(cfg, s) && GettersOk(cfg, s) && (q == LowPriority ==> UsesLowQueue(cfg))
    requires Bounded(cfg, s) && |s.pool.busy| < cfg.cfg.limit
    ensures Bounded(cfg, Begin(s, q))
  {
    var s' := Begin(s, q);
    BeginSlots(cfg, s, q);
    if q !in s.slots && s.getters != [] {
      Appended(s.chains, Getting(q, s.getters[|s.getters| - 1]));
      AliveSplits(s'.chains);
      hide Tally, GettersOk;
      assert Tally(s'.chains, Holding(Main)) <= 1 && Tally(s'.chains, Holding(LowPriority)) <= 1;
    }
  }

  lemma BeginRate(cfg: Settings, s: State, q: Queue)
    requires RateOk(cfg, s)
    ensures RateOk(cfg, Begin(s, q))
  {
    if cfg.cfg.rateEnabled {
      if s.getters != [] {
        Appended(s.chains, Getting(q, s.getters[|s.getters| - 1]));
      }
      hide Tally, Limit;
      forall a ensures RateOf(cfg, Begin(s, q), a) { assert RateOf(cfg, s, a); }
    }
  }

  /** The events that touch only chains, slots and getters. */
  ghost predicate SameWorld(s: State, s': State) {
    s'.pool == s.pool && s'.procs == s.procs && s'.log == s.log && s'.faults == s.faults
  }

  lemma SameWorldKeeps(cfg: Settings, s: State, s': State)
    requires PoolOk(s.pool) && Channels(s) && Reported(s) && SameWorld(s, s') && Chained(cfg, s')
    ensures Inv(cfg, s')
  {
    hide PoolOk, Chained, Flow;
    forall w ensures Flow(At(s'.pool, w), Proc(s', w)) { assert Flow(At(s.pool, w), Proc(s, w)); }
  }

  lemma BeginKeeps(cfg: Settings, s: State, q: Queue)
    requires Inv(cfg, s) && |s.pool.busy| < cfg.cfg.limit && (q == LowPriority ==> UsesLowQueue(cfg))
    ensures Inv(cfg, Begin(s, q)) && Begin(s, q).pool == s.pool
  {
    hide PoolOk, SlotsOk, GettersOk, Bounded, RateOk, Channels, Reported;
    BeginSlots(cfg, s, q);
    BeginBounded(cfg, s, q);
    BeginRate(cfg, s, q);
    SameWorldKeeps(cfg, s, Begin(s, q));
  }

  lemma ReadyKeeps(cfg: Settings, s: State)
    requires Inv(cfg, s)
    ensures Inv(cfg, OnReady(cfg, s))
  {
    hide Inv, Begin;
    if !s.stopped && Available(cfg.cfg, s.pool) > 0 {
      BeginKeeps(cfg, s, Main);
      if Available(cfg.cfg, s.pool) > 1 && LoadBelow(cfg, s.pool) {
        LoadIsPositive(cfg, s.pool);
        BeginKeeps(cfg, Begin(s, Main), LowPriority);
      }
    }
  }

  lemma LoadIsPositive(cfg: Settings, p: Pool)
    requires LoadBelow(cfg, p)
    ensures cfg.threshold > 0.0
  {
    assert |p.busy| as real / cfg.cfg.limit as real >= 0.0;
  }

  /** getTask has ended and its chain with it. */
  lemma ReturnEndsKeeps(cfg: Settings, s: State, c: nat)
    requires Inv(cfg, s) && IsGetting(s, c)
    ensures Inv(cfg, Ended(Returned(s, c, Over), c, s.chains[c].q, true))
  {
    hide PoolOk, Tally, Channels, Reported, Limit;
    var s' := Ended(Returned(s, c, Over), c, s.chains[c].q, true);
    var o := s.chains[c];
    assert s.chains[c := Over][c := Over] == s.chains[c := Over];
    Updated(s.chains, c, Over);
    ChainChange(cfg, s, s', c, Over);
    assert Chained(cfg, s') by {
      assert forall g: nat :: multiset(s'.getters)[g] == multiset(s.getters)[g] + if g == o.client then 1 else 0;
      assert GettersOk(cfg, s');
    }
    SameWorldKeeps(cfg, s, s');
  }

  /** What is left to show when one chain changes: the bounds follow when it does not come alive. */
  lemma ChainChange(cfg: Settings, s: State, s': State, c: nat, x: Chain)
    requires c < |s.chains| && s'.chains == s.chains[c := x] && s'.pool == s.pool
    requires s'.peak == s.peak && s'.peaks == s.peaks
    requires One(x, Alive) <= One(s.chains[c], Alive)
    requires Bounded(cfg, s) && RateOk(cfg, s)
    requires !x.Awaiting? || (s.chains[c].Awaiting? && s.chains[c] == x.(w := s.chains[c].w))
    ensures Bounded(cfg, s') && RateOk(cfg, s')
  {
    Updated(s.chains, c, x);
    hide Tally, Limit;
    if cfg.cfg.rateEnabled {
      forall a ensures RateOf(cfg, s', a) { assert RateOf(cfg, s, a); }
    }
  }

  lemma PushBackKeeps(cfg: Settings, s: State, c: nat)
    requires Inv(cfg, s) && IsGetting(s, c)
    ensures Inv(cfg, Returned(s, c, PushingBack(s.chains[c].q)))
  {
    hide PoolOk, Tally, Channels, Reported, Limit;
    var o := s.chains[c];
    var x := PushingBack(o.q);
    var s' := Returned(s, c, x);
    Updated(s.chains, c, x);
    ChainChange(cfg, s, s', c, x);
    assert forall g: nat :: multiset(s'.getters)[g] == multiset(s.getters)[g] + if g == o.client then 1 else 0;
    assert GettersOk(cfg, s');
    SameWorldKeeps(cfg, s, s');
  }

  lemma PushEndsKeeps(cfg: Settings, s: State, c: nat)
    requires Inv(cfg, s) && c < |s.chains| && s.chains[c].PushingBack?
    ensures Inv(cfg, Ended(s, c, s.chains[c].q, true))
  {
    hide PoolOk, Tally, Channels, Reported, Limit;
    var s' := Ended(s, c, s.chains[c].q, true);
    Updated(s.chains, c, Over);
    ChainChange(cfg, s, s', c, Over);
    assert GettersOk(cfg, s');
    SameWorldKeeps(cfg, s, s');
  }

  // ----- admission

  lemma AdmitSlots(cfg: Settings, s: State, c: nat, task: Task)
    requires SlotsOk(cfg, s) && GettersOk(cfg, s) && IsGetting(s, c)
    ensures SlotsOk(cfg, Admit(cfg, s, c, task)) && GettersOk(cfg, Admit(cfg, s, c, task))
  {
    hide Tally;
    var o := s.chains[c];
    var s' := Admit(cfg, s, c, task);
    var x := s'.chains[c];
    Updated(s.chains, c, x);
    assert forall g: nat :: multiset(s'.getters)[g] == multiset(s.getters)[g] + if g == o.client then 1 else 0;
  }

  lemma AdmitBounds(cfg: Settings, s: State, c: nat, task: Task)
    requires Bounded(cfg, s) && IsGetting(s, c)
    ensures Bounded(cfg, Admit(cfg, s, c, task))
  {
    hide Tally;
    Updated(s.chains, c, Admit(cfg, s, c, task).chains[c]);
  }

  lemma AdmitRates(cfg: Settings, s: State, c: nat, task: Task)
    requires RateOk(cfg, s) && IsGetting(s, c) && !RateLimitReached(cfg.cfg, s.pool, task.app)
    ensures RateOk(cfg, Admit(cfg, s, c, task))
  {
    hide Tally, Limit;
    var s' := Admit(cfg, s, c, task);
    Updated(s.chains, c, s'.chains[c]);
    if cfg.cfg.rateEnabled {
      forall a ensures RateOf(cfg, s', a) { assert RateOf(cfg, s, a); }
    }
  }

  lemma AdmitKeeps(cfg: Settings, s: State, c: nat, task: Task)
    requires Inv(cfg, s) && IsGetting(s, c) && !RateLimitReached(cfg.cfg, s.pool, task.app)
    ensures Inv(cfg, Admit(cfg, s, c, task))
  {
    hide PoolOk, SlotsOk, GettersOk, Bounded, RateOk, Channels, Reported, RateLimitReached;
    AdmitSlots(cfg, s, c, task);
    AdmitBounds(cfg, s, c, task);
    AdmitRates(cfg, s, c, task);
    SameWorldKeeps(cfg, s, Admit(cfg, s, c, task));
  }

  // ----- handing over

  lemma SentChannels(cfg: Settings, s: State, p: Pool, w: nat, task: Task)
    requires Channels(s) && Reported(s) && HandedTo(cfg.cfg, s.pool, p, w, task)
    ensures Channels(Dispatched(s, p, w)) && Reported(Dispatched(s, p, w))
  {
    hide Flow, Load;
    var s' := Dispatched(s, p, w);
    assert Flow(At(s.pool, w), Proc(s, w));
    QuietWithout(At(s.pool, w), Proc(s, w));
    HandedFlows(At(p, w), Proc(s, w), p.workers[w].task.value);
    forall x ensures Flow(At(p, x), Proc(s', x)) {
      if x != w {
        assert SameTask(At(s.pool, x), At(p, x)) && Flow(At(s.pool, x), Proc(s, x));
        FlowSame(At(s.pool, x), At(p, x), Proc(s, x));
      }
    }
    forall e | e in s.log ensures LoggedRight(p, e) {
      assert LoggedRight(s.pool, e);
      if e.w != w { assert SameTask(At(s.pool, e.w), At(p, e.w)); }
    }
    forall x | x in p.workers && p.workers[x].task.Some? && p.workers[x].reports > 0
      ensures Emission(x, p.workers[x].task, p.workers[x].task.value) in s.log
    {
      assert x != w;
      assert SameTask(At(s.pool, x), At(p, x));
    }
  }

  lemma QuietWithout(o: Worker, pr: Process)
    requires Flow(o, pr) && o.task == None
    ensures Quiet(pr)
  {
  }

  /** A hand-over moves one from the chains to the busy workers, and keeps every sum. */
  lemma SentChained(cfg: Settings, s: State, p: Pool, w: nat, c: nat, s': State)
    requires c < |s.chains| && s.chains[c].Awaiting? && Chained(cfg, s)
    requires HandedTo(cfg.cfg, s.pool, p, w, s.chains[c].task)
    requires s'.pool == p && s'.chains == s.chains[c := Over] && s'.getters == s.getters
    requires s'.slots == if s.chains[c].early then s.slots else s.slots - {s.chains[c].q}
    requires s'.peak == s.peak && s'.peaks == s.peaks
    ensures Chained(cfg, s')
  {
    hide Tally, Limit, Load;
    Updated(s.chains, c, Over);
    if cfg.cfg.rateEnabled {
      forall a ensures RateOf(cfg, s', a) { assert RateOf(cfg, s, a); }
    }
    assert GettersOk(cfg, s');
    assert SlotsOk(cfg, s');
  }

  lemma AttemptKeeps(cfg: Settings, s: State, c: nat)
    requires Inv(cfg, s) && c < |s.chains| && s.chains[c].Awaiting?
    ensures Inv(cfg, Attempt(cfg, s, c))
  {
    hide PoolOk, Chained, Channels, Reported, HandOff, MakeRoom, HandedTo, Faded, Fork;
    var o := s.chains[c];
    match HandOff(cfg.cfg, s.pool, o.task)
    case Some(r) =>
      HandOffKeeps(cfg.cfg, s.pool, o.task);
      HandOffFrame(cfg.cfg, s.pool, o.task);
      var s1 := Ended(s, c, o.q, !o.early);
      SameChannels(s, s1);
      SentChannels(cfg, s1, r.0, r.1, o.task);
      SentIs(s1, r.0, r.1);
      SentChained(cfg, s, r.0, r.1, c, Dispatched(s1, r.0, r.1));
    case None =>
      MakeRoomKeeps(cfg.cfg, s.pool);
      MakeRoomFades(cfg.cfg, s.pool);
      var room := MakeRoom(cfg.cfg, s.pool);
      ForkKeeps(room);
      ForkFades(room);
      FadedTrans(s.pool, room, Fork(room));
      AwaitAgain(cfg, s, c, room.nextId);
      PoolChange(cfg, s.(chains := s.chains[c := o.(w := room.nextId)]), Fork(room));
  }

  lemma SameChannels(s: State, s': State)
    requires SameWorld(s, s') && Channels(s) && Reported(s)
    ensures Channels(s') && Reported(s')
  {
    hide Flow;
    forall w ensures Flow(At(s'.pool, w), Proc(s', w)) { assert Flow(At(s.pool, w), Proc(s, w)); }
  }

  lemma SentIs(s: State, p: Pool, w: nat)
    ensures var s' := Dispatched(s, p, w);
      && s'.pool == p && s'.chains == s.chains && s'.slots == s.slots && s'.getters == s.getters
      && s'.peak == s.peak && s'.peaks == s.peaks
  {
  }

  lemma AwaitAgain(cfg: Settings, s: State, c: nat, w: nat)
    requires Inv(cfg, s) && c < |s.chains| && s.chains[c].Awaiting?
    ensures Inv(cfg, s.(chains := s.chains[c := s.chains[c].(w := w)]))
  {
    hide PoolOk, Tally, Channels, Reported, Limit;
    var x := s.chains[c].(w := w);
    var s' := s.(chains := s.chains[c := x]);
    Updated(s.chains, c, x);
    ChainChange(cfg, s, s', c, x);
    assert SlotsOk(cfg, s');
    assert GettersOk(cfg, s');
    SameWorldKeeps(cfg, s, s');
  }

  lemma TaskKeeps(cfg: Settings, s: State, c: nat, task: Task, outdated: bool)
    requires Inv(cfg, s) && IsGetting(s, c)
    ensures Inv(cfg, OnTask(cfg, s, c, task, outdated))
  {
    hide Inv, OnReady, RateLimitReached, Attempt;
    var q := s.chains[c].q;
    if outdated {
      ReturnEndsKeeps(cfg, s, c);
      ReadyKeeps(cfg, Ended(Returned(s, c, Over), c, q, true));
    } else if RateLimitReached(cfg.cfg, s.pool, task.app) {
      PushBackKeeps(cfg, s, c);
    } else {
      AdmitKeeps(cfg, s, c, task);
      AttemptKeeps(cfg, Admit(cfg, s, c, task), c);
    }
  }

  // ----- processes and messages

  lemma MoveKeeps(cfg: Settings, s: State, w: nat, move: Move)
    requires Inv(cfg, s)
    ensures Inv(cfg, OnMove(s, w, move))
  {
    hide PoolOk, SlotsOk, GettersOk, Bounded, RateOk, Flow;
    var s' := OnMove(s, w, move);
    assert Flow(At(s.pool, w), Proc(s, w));
    AdvanceFlows(At(s.pool, w), Proc(s, w), move);
    forall x ensures Flow(At(s'.pool, x), Proc(s', x)) {
      if x != w { assert Flow(At(s.pool, x), Proc(s, x)); }
    }
    SameChained(cfg, s, s');
  }

  lemma SameChained(cfg: Settings, s: State, s': State)
    requires Chained(cfg, s)
    requires s'.pool == s.pool && s'.chains == s.chains && s'.slots == s.slots && s'.getters == s.getters
    requires s'.peak == s.peak && s'.peaks == s.peaks
    ensures Chained(cfg, s')
  {
    hide Tally, Limit, Load;
    if cfg.cfg.rateEnabled {
      forall a ensures RateOf(cfg, s', a) { assert RateOf(cfg, s, a); }
    }
    assert GettersOk(cfg, s');
  }

  /** The pool after a message: one worker's record changed, and no figure grew. */
  ghost predicate Handled(p: Pool, p': Pool, w: nat) {
    && |p'.busy| <= |p.busy| && (forall a :: Load(p', a) <= Load(p, a))
    && w in p.workers && w in p'.workers && Untouched(p, p', {w})
  }

  lemma MessageChained(cfg: Settings, s: State, s': State, w: nat)
    requires Chained(cfg, s) && Handled(s.pool, s'.pool, w)
    requires s'.chains == s.chains && s'.slots == s.slots && s'.getters == s.getters
    requires s'.peak == s.peak && s'.peaks == s.peaks
    ensures Chained(cfg, s')
  {
    hide Tally, Limit, Load;
    if cfg.cfg.rateEnabled {
      forall a ensures RateOf(cfg, s', a) { assert RateOf(cfg, s, a); }
    }
    assert GettersOk(cfg, s');
    assert SlotsOk(cfg, s');
  }

  lemma MessageChannels(s: State, s': State, w: nat)
    requires Channels(s) && Reported(s) && Handled(s.pool, s'.pool, w)
    requires Flow(At(s'.pool, w), Proc(s', w)) && forall x | x != w :: Proc(s', x) == Proc(s, x)
    requires s'.faults == 0 && (forall e | e in s.log :: e in s'.log)
    requires forall e | e in s'.log && e !in s.log :: LoggedRight(s'.pool, e)
    requires s'.pool.workers[w].ran == s.pool.workers[w].ran
    requires var o := s'.pool.workers[w];
      o.task.Some? && o.reports > 0 ==> Emission(w, o.task, o.task.value) in s'.log
    ensures Channels(s') && Reported(s')
  {
    hide Flow, Load;
    forall x ensures Flow(At(s'.pool, x), Proc(s', x)) {
      if x != w {
        assert SameTask(At(s.pool, x), At(s'.pool, x)) && Flow(At(s.pool, x), Proc(s, x));
        FlowSame(At(s.pool, x), At(s'.pool, x), Proc(s, x));
      }
    }
    forall e | e in s.log ensures LoggedRight(s'.pool, e) {
      assert LoggedRight(s.pool, e);
      if e.w != w { assert SameTask(At(s.pool, e.w), At(s'.pool, e.w)); }
    }
    forall x | x in s'.pool.workers && s'.pool.workers[x].task.Some? && s'.pool.workers[x].reports > 0
      ensures Emission(x, s'.pool.workers[x].task, s'.pool.workers[x].task.value) in s'.log
    {
      if x != w { assert SameTask(At(s.pool, x), At(s'.pool, x)); }
    }
  }

  lemma ReportHandled(p: Pool, w: nat)
    requires w in p.workers
    ensures Handled(p, ReportFrom(p, w), w) && Handled(p, p, w)
  {
    SameLoad(p, ReportFrom(p, w));
  }

  lemma CriticalHandled(p: Pool, w: nat)
    requires w in p.workers
    ensures Handled(p, CriticalErrorFrom(p, w), w)
  {
    SameLoad(p, CriticalErrorFrom(p, w));
  }

  lemma PoolAfter(cfg: Settings, s: State, w: nat)
    requires PoolOk(s.pool) && w in s.pool.workers && Proc(s, w).outbox != []
    requires Proc(s, w).outbox[0].Idling? ==> s.pool.workers[w].task.Some?
    ensures PoolOk(OnMessage(cfg, s, w).pool) && Handled(s.pool, OnMessage(cfg, s, w).pool, w)
  {
    hide PoolOk, IdlingFrom, Handled;
    ReportHandled(s.pool, w);
    match Proc(s, w).outbox[0]
    case Processed(of) => ReportKeeps(s.pool, w);
    case CriticalErrorMessage =>
      CriticalKeeps(s.pool, w);
      CriticalHandled(s.pool, w);
    case Idling =>
      IdlingKeeps(cfg.cfg, s.pool, w);
      IdlingHandled(cfg.cfg, s.pool, w);
    case Heartbeat =>
  }

  lemma IdlingHandled(cfg: Config, p: Pool, w: nat)
    requires PoolOk(p) && w in p.workers && p.workers[w].task.Some?
    ensures Handled(p, IdlingFrom(cfg, p, w), w)
  {
    hide PoolOk, IdlingFrom, Load, SameTask;
    IdlingFrame(cfg, p, w);
  }

  lemma RecordAfter(cfg: Settings, s: State, w: nat)
    requires PoolOk(s.pool) && w in s.pool.workers && Proc(s, w).outbox != []
    requires Proc(s, w).outbox[0].Idling? ==> s.pool.workers[w].task.Some?
    ensures var o, s' := s.pool.workers[w], OnMessage(cfg, s, w);
      && w in s'.pool.workers
      && s'.pool.workers[w].ran == o.ran
      && s'.pool.workers[w].reports == o.reports + (if Proc(s, w).outbox[0].Processed? then 1 else 0)
      && (s'.pool.workers[w].task == o.task
          || (Proc(s, w).outbox[0].Idling? && s'.pool.workers[w].task == None))
  {
    hide PoolOk, IdlingFrom, Load, SameTask;
    if Proc(s, w).outbox[0].Idling? { IdlingFrame(cfg.cfg, s.pool, w); }
  }

  lemma MessageKeeps(cfg: Settings, s: State, w: nat)
    requires Inv(cfg, s) && w in s.pool.workers && Proc(s, w).outbox != []
    ensures Inv(cfg, OnMessage(cfg, s, w))
  {
    hide PoolOk, IdlingFrom, Chained, Flow, Handled;
    var o, pr := s.pool.workers[w], Proc(s, w);
    var s' := OnMessage(cfg, s, w);
    assert Flow(At(s.pool, w), pr);
    HeadIs(o, pr);
    PoolAfter(cfg, s, w);
    RecordAfter(cfg, s, w);
    DeliveredFlows(o, s'.pool.workers[w], pr);
    MessageChained(cfg, s, s', w);
    assert Reported(s);
    hide Reported, Channels;
    LifeOf(s.pool, w);
    hide OneApp;
    LogAfter(cfg, s, w);
    MessageChannels(s, s', w);
  }

  lemma LogAfter(cfg: Settings, s: State, w: nat)
    requires Reported(s) && w in s.pool.workers && Proc(s, w).outbox != [] && OneApp(s.pool.workers[w])
    requires Proc(s, w).outbox[0].Processed? ==> s.pool.workers[w].task == Some(Proc(s, w).outbox[0].of)
    requires Proc(s, w).outbox[0].Idling? ==> s.pool.workers[w].task.Some?
    requires var o, s' := s.pool.workers[w], OnMessage(cfg, s, w);
      && w in s'.pool.workers
      && s'.pool.workers[w].ran == o.ran
      && s'.pool.workers[w].reports == o.reports + (if Proc(s, w).outbox[0].Processed? then 1 else 0)
      && (s'.pool.workers[w].task == o.task
          || (Proc(s, w).outbox[0].Idling? && s'.pool.workers[w].task == None))
    ensures var s' := OnMessage(cfg, s, w);
      && s'.faults == 0 && (forall e | e in s.log :: e in s'.log)
      && (forall e | e in s'.log && e !in s.log :: LoggedRight(s'.pool, e))
      && (s'.pool.workers[w].task.Some? && s'.pool.workers[w].reports > 0 ==>
          Emission(w, s'.pool.workers[w].task, s'.pool.workers[w].task.value) in s'.log)
  {
    hide IdlingFrom;
    var s' := OnMessage(cfg, s, w);
    if Proc(s, w).outbox[0].Processed? {
      assert s'.log[|s.log|] == Emission(w, s.pool.workers[w].task, s.pool.workers[w].task.value);
    }
  }

  // ----- every event

  lemma FlagsKeep(cfg: Settings, s: State, p: Pool)
    requires Inv(cfg, s) && p == s.pool.(stopping := p.stopping, cluster := p.cluster) && p.cluster <= s.pool.cluster
    requires forall w | w in s.pool.cluster && w !in p.cluster && w in p.workers :: p.workers[w].exited
    ensures Inv(cfg, s.(pool := p))
  {
    assert PoolOk(p) by { ClusterKeeps(s.pool, p); }
    assert Faded(s.pool, p) by { FlagsFade(s.pool, p); }
    hide Inv, PoolOk, Faded;
    PoolChange(cfg, s, p);
  }

  lemma ClusterKeeps(p: Pool, p': Pool)
    requires PoolOk(p) && p' == p.(stopping := p'.stopping, cluster := p'.cluster) && p'.cluster <= p.cluster
    requires forall w | w in p.cluster && w !in p'.cluster && w in p.workers :: p.workers[w].exited
    ensures PoolOk(p')
  {
    hide OneApp, Fresh, Lists, Counts, Sorted;
    assert Counts(p') by { CountsSame(p, p'); }
    assert Sorted(p') by { SortedSame(p, p'); }
  }

  lemma CountsSame(p: Pool, p': Pool)
    requires Counts(p) && p'.busy == p.busy && p'.workers == p.workers && p'.appsLoad == p.appsLoad
    ensures Counts(p')
  {
    forall a ensures Load(p', a) == CountOf(p'.busy, p'.workers, a) {
      assert Load(p, a) == CountOf(p.busy, p.workers, a);
    }
  }

  lemma SortedSame(p: Pool, p': Pool)
    requires Sorted(p) && p'.idle == p.idle && p'.cached == p.cached
    requires p'.workers == p.workers && p'.clock == p.clock
    ensures Sorted(p')
  {
  }

  lemma FlagsFade(p: Pool, p': Pool)
    requires p' == p.(stopping := p'.stopping, cluster := p'.cluster)
    ensures Faded(p, p')
  {
    SameLoad(p, p');
  }

  lemma StopKeeps(cfg: Settings, s: State)
    requires Inv(cfg, s)
    ensures Inv(cfg, s.(stopped := true))
  {
    hide PoolOk, Chained, Channels, Reported;
    SameChained(cfg, s, s.(stopped := true));
    SameWorldKeeps(cfg, s, s.(stopped := true));
  }

  lemma InvPool(cfg: Settings, s: State)
    requires Inv(cfg, s)
    ensures PoolOk(s.pool)
  {
    hide PoolOk, Channels, Reported, Chained;
  }

  lemma StartedStep(cfg: Settings, s: State, w: nat)
    requires Inv(cfg, s) && w in s.pool.booting && w in s.pool.workers
    ensures Inv(cfg, s.(pool := Started(cfg.cfg, s.pool, w)))
  {
    hide Inv, PoolOk, Faded, Started;
    InvPool(cfg, s);
    StartedKeeps(cfg.cfg, s.pool, w);
    StartedFades(cfg.cfg, s.pool, w);
    PoolChange(cfg, s, Started(cfg.cfg, s.pool, w));
  }

  lemma KillStep(cfg: Settings, s: State, w: nat)
    requires Inv(cfg, s) && w in s.pool.workers
    ensures Inv(cfg, s.(pool := Kill(cfg.cfg, s.pool, w)))
  {
    hide Inv, PoolOk, Faded, Kill;
    InvPool(cfg, s);
    KillAnyKeeps(cfg.cfg, s.pool, w);
    KillAnyFades(cfg.cfg, s.pool, w);
    PoolChange(cfg, s, Kill(cfg.cfg, s.pool, w));
  }

  lemma RedeployStep(cfg: Settings, s: State, app: Option<App>)
    requires Inv(cfg, s)
    ensures Inv(cfg, s.(pool := KillAllAppWorkers(cfg.cfg, s.pool, app)))
  {
    hide Inv, PoolOk, Faded, KillAllAppWorkers;
    InvPool(cfg, s);
    KillAllKeeps(cfg.cfg, s.pool, app);
    KillAllFades(cfg.cfg, s.pool, app);
    PoolChange(cfg, s, KillAllAppWorkers(cfg.cfg, s.pool, app));
  }

  lemma ExitStep(cfg: Settings, s: State, w: nat, disconnected: bool)
    requires Inv(cfg, s) && w in s.pool.workers
    ensures Inv(cfg, s.(pool := Exited(cfg.cfg, s.pool, w, disconnected)))
  {
    hide Inv, PoolOk, Faded, Exited;
    InvPool(cfg, s);
    ExitedKeeps(cfg.cfg, s.pool, w, disconnected);
    ExitedFades(cfg.cfg, s.pool, w, disconnected);
    PoolChange(cfg, s, Exited(cfg.cfg, s.pool, w, disconnected));
  }

  lemma StepKeeps(cfg: Settings, s: State, e: Event)
    requires Inv(cfg, s)
    ensures Inv(cfg, Step(cfg, s, e))
  {
    hide Inv, OnReady, OnTask, Attempt, OnMessage, OnMove, Started, Kill, KillAllAppWorkers, Exited;
    match e
    case Ready => ReadyKeeps(cfg, s);
    case TaskArrives(c, task, outdated) =>
      if IsGetting(s, c) { TaskKeeps(cfg, s, c, task, outdated); }
    case GetFails(c) =>
      if IsGetting(s, c) {
        ReturnEndsKeeps(cfg, s, c);
        ReadyKeeps(cfg, Ended(Returned(s, c, Over), c, s.chains[c].q, true));
      }
    case PushEnds(c) =>
      if c < |s.chains| && s.chains[c].PushingBack? {
        PushEndsKeeps(cfg, s, c);
        ReadyKeeps(cfg, Ended(s, c, s.chains[c].q, true));
      }
    case Retry(c) =>
      if c < |s.chains| && s.chains[c].Awaiting? && s.chains[c].w !in s.pool.booting { AttemptKeeps(cfg, s, c); }
    case WorkerStarted(w) => if w in s.pool.booting && w in s.pool.workers { StartedStep(cfg, s, w); }
    case TimerKills(w) => if w in s.pool.workers { KillStep(cfg, s, w); }
    case Redeployed(app) => RedeployStep(cfg, s, app);
    case WorkerExits(w, disconnected) =>
      if w in s.pool.workers && !s.pool.workers[w].exited { ExitStep(cfg, s, w, disconnected); }
    case LeavesCluster(w) =>
      if w in s.pool.workers && s.pool.workers[w].exited {
        FlagsKeep(cfg, s, s.pool.(cluster := s.pool.cluster - {w}));
      }
    case ProcessMoves(w, move) => if w in s.pool.workers { MoveKeeps(cfg, s, w, move); }
    case Delivered(w) => if w in s.pool.workers && Proc(s, w).outbox != [] { MessageKeeps(cfg, s, w); }
    case MasterStops => StopKeeps(cfg, s);
    case BrokerStops => FlagsKeep(cfg, s, s.pool.(stopping := true));
  }

  /** Every reachable state is in order. */
  lemma {:induction false} RunOk(cfg: Settings, es: seq<Event>)
    ensures Inv(cfg, Run(cfg, es))
  {
    if es == [] {
      StartOk(cfg);
    } else {
      hide Inv, Step;
      RunOk(cfg, es[..|es| - 1]);
      StepKeeps(cfg, Run(cfg, es[..|es| - 1]), es[|es| - 1]);
    }
  }
}
