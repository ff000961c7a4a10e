/** What every operation on the worker pools keeps: each worker is filed in the one pool its
    `currentPlace` names, the load counters count the busy workers of each app, the cached pool is
    ordered by time of release, and no worker ever runs tasks of two applications. */
module PoolInvariants {
  import opened Options
  import opened Sequences
  import opened WorkerPool

  // ----- the invariants

  /** The array `s` lists each worker whose `currentPlace` it is once, but for `but`, which may just
      have been popped. */
  ghost predicate Lists(s: seq<nat>, workers: map<nat, Worker>, place: Place, but: set<nat>) {
    && NoDup(s)
    && (forall w | w in s :: w in workers && workers[w].place == place)
    && (forall w | w in workers && w !in but && workers[w].place == place :: w in s)
  }

  ghost predicate FiledBut(p: Pool, but: set<nat>) {
    && Lists(p.idle, p.workers, Idle, but)
    && Lists(p.cached, p.workers, Cached, but)
    && Lists(p.busy, p.workers, Busy, {})
  }

  function CountOf(s: seq<nat>, workers: map<nat, Worker>, app: Option<App>): nat {
    if s == [] then 0
    else (if s[0] in workers && workers[s[0]].appId == app then 1 else 0) + CountOf(s[1..], workers, app)
  }

  /** `appsLoad` counts the busy workers of each app. */
  ghost predicate Counts(p: Pool) {
    forall a :: Load(p, a) == CountOf(p.busy, p.workers, a)
  }

  /** Who came last stands first. */
  ghost predicate Descending(s: seq<nat>, ws: map<nat, Worker>) {
    && (forall w | w in s :: w in ws)
    && (forall i, j | 0 <= i < j < |s| :: ws[s[i]].waitsSince > ws[s[j]].waitsSince)
  }

  /** Both pools of waiting workers are in the order in which the workers came to wait. */
  ghost predicate Sorted(p: Pool) {
    && Descending(p.idle, p.workers) && Descending(p.cached, p.workers)
    && (forall w | w in p.idle || w in p.cached :: p.workers[w].waitsSince < p.clock)
  }

  /** The numbers the broker knows; the cluster lists every worker whose process has not exited. */
  ghost predicate Known(p: Pool) {
    && (forall w | w in p.workers :: w < p.nextId)
    && p.cluster <= p.workers.Keys
    && p.booting <= p.workers.Keys
    && (forall w | w in p.workers && !p.workers[w].exited :: w in p.cluster)
  }

  /** A worker's life so far: tasks of one application only, a non-cacheable one only as the last;
      a pooled worker has nothing to do and has not been used since it was marked. */
  ghost predicate OneApp(o: Worker) {
    && (forall t, u | t in o.ran && u in o.ran :: t.app == u.app)
    && (o.appId.Some? ==> forall t | t in o.ran :: Some(t.app) == o.appId)
    && (o.appId.None? ==> |o.ran| <= 1)
    && (forall i | 0 <= i < |o.ran| - 1 :: o.ran[i].cacheable)
    && (o.task.Some? ==>
          && o.ran != [] && o.ran[|o.ran| - 1] == o.task.value
          && (o.task.value.cacheable ==> o.appId.Some?))
    && (o.place == Idle ==> o.ran == [] && o.appId.None?)
    && (o.place == Cached ==> o.appId.Some? && o.ran != [] && forall t | t in o.ran :: t.cacheable)
    && (o.place == Idle || o.place == Cached ==> o.task.None? && o.afterMark == 0)
    && (o.place == Busy ==> o.task.Some?)
    && o.afterMark <= 1 && (!o.toBeRemoved ==> o.afterMark == 0)
  }

  ghost predicate Fresh(o: Worker) {
    o.ran == [] && o.appId.None? && o.task.None? && o.place == Nowhere && o.afterMark == 0
  }

  ghost predicate PoolOk(p: Pool) {
    && FiledBut(p, {}) && Counts(p) && Sorted(p) && Known(p)
    && (forall w | w in p.workers :: OneApp(p.workers[w]))
    && (forall w | w in p.booting :: Fresh(p.workers[w]))
  }

  // ----- sequences

  lemma NoDupTail(s: seq<nat>)
    requires NoDup(s) && s != []
    ensures NoDup(s[1..]) && s[0] !in s[1..]
    ensures forall x :: x in s <==> x == s[0] || x in s[1..]
  {
    forall j | 0 <= j < |s[1..]| ensures s[1..][j] != s[0] {
      assert s[1..][j] == s[j + 1];
    }
  }

  lemma {:induction false} WithoutMembers(s: seq<nat>, w: nat)
    requires NoDup(s)
    ensures forall x :: x in Without(s, w) <==> x in s && x != w
    ensures NoDup(Without(s, w))
    ensures |Without(s, w)| == |s| - if w in s then 1 else 0
  {
    if s != [] {
      NoDupTail(s);
      if s[0] != w {
        WithoutMembers(s[1..], w);
        assert s[0] !in Without(s[1..], w);
      }
    }
  }

  /** Removing the first occurrence. */
  lemma {:induction false} WithoutAt(s: seq<nat>, w: nat, i: nat)
    requires i <= |s| && forall j | 0 <= j < i :: s[j] != w
    requires i < |s| ==> s[i] == w
    ensures Without(s, w) == if i < |s| then s[..i] + s[i + 1..] else s
  {
    if i > 0 {
      forall j | 0 <= j < i - 1 ensures s[1..][j] != w { assert s[1..][j] == s[j + 1]; }
      WithoutAt(s[1..], w, i - 1);
    }
  }

  /** Every pooled worker is one the broker knows. */
  lemma Pooled(p: Pool)
    requires PoolOk(p)
    ensures Known(p)
    ensures forall w | w in p.idle || w in p.cached || w in p.busy || w in p.booting :: w in p.workers
  {
  }

  lemma {:induction false} CountFrame(s: seq<nat>, ws: map<nat, Worker>, ws': map<nat, Worker>, app: Option<App>)
    requires forall x | x in s :: x in ws && x in ws' && ws[x].appId == ws'[x].appId
    ensures CountOf(s, ws, app) == CountOf(s, ws', app)
  {
    if s != [] {
      assert s[0] in s;
      forall x | x in s[1..] ensures x in s {}
      CountFrame(s[1..], ws, ws', app);
    }
  }

  lemma {:induction false} CountWithout(s: seq<nat>, ws: map<nat, Worker>, w: nat, app: Option<App>)
    requires w in s && w in ws && NoDup(s)
    ensures CountOf(Without(s, w), ws, app) == CountOf(s, ws, app) - if ws[w].appId == app then 1 else 0
  {
    if s[0] != w {
      NoDupTail(s);
      CountWithout(s[1..], ws, w, app);
      assert ([s[0]] + Without(s[1..], w))[1..] == Without(s[1..], w);
    }
  }

  // ----- the load counters as cardinalities

  function Having(s: seq<nat>, ws: map<nat, Worker>, app: Option<App>): set<nat> {
    set w | w in s && w in ws && ws[w].appId == app
  }

  lemma HavingTail(s: seq<nat>, ws: map<nat, Worker>, app: Option<App>)
    requires NoDup(s) && s != []
    ensures s[0] !in Having(s[1..], ws, app)
    ensures Having(s, ws, app) ==
            Having(s[1..], ws, app) + if s[0] in ws && ws[s[0]].appId == app then {s[0]} else {}
  {
    NoDupTail(s);
    hide NoDup;
  }

  lemma {:induction false} CountIsCard(s: seq<nat>, ws: map<nat, Worker>, app: Option<App>)
    requires NoDup(s)
    ensures CountOf(s, ws, app) == |Having(s, ws, app)|
  {
    if s == [] {
      assert Having(s, ws, app) == {};
    } else {
      NoDupTail(s);
      hide NoDup, Having;
      HavingTail(s, ws, app);
      CountIsCard(s[1..], ws, app);
    }
  }

  lemma LoadsAreRight(p: Pool)
    requires Counts(p) && NoDup(p.busy)
    ensures forall a :: Load(p, a) == |Having(p.busy, p.workers, a)|
  {
    hide NoDup, Having, Load;
    forall a ensures Load(p, a) == |Having(p.busy, p.workers, a)| {
      CountIsCard(p.busy, p.workers, a);
    }
  }

  // ----- forking

  /** Only workers that are still booting were added. */
  ghost predicate Extends(p: Pool, p': Pool) {
    && p'.idle == p.idle && p'.cached == p.cached && p'.busy == p.busy
    && p'.appsLoad == p.appsLoad && p'.clock == p.clock && p'.stopping == p.stopping
    && p.nextId <= p'.nextId && p.cluster <= p'.cluster && p.booting <= p'.booting
    && (forall w | w in p.workers :: w in p'.workers && p'.workers[w] == p.workers[w])
    && (forall w | w in p'.workers && w !in p.workers ::
          p'.workers[w] == NewWorker && w in p'.booting && p.nextId <= w)
    && (Known(p) ==> Known(p') && forall w | w in p'.booting :: w in p.booting || w !in p.workers)
  }

  lemma {:induction false} ForkManyExtends(p: Pool, n: nat)
    requires Known(p)
    ensures Extends(p, ForkMany(p, n))
    decreases n
  {
    if n > 0 {
      ForkManyExtends(Fork(p), n - 1);
    }
  }

  lemma KeepMinIdleExtends(cfg: Config, p: Pool)
    requires Known(p)
    ensures Extends(p, KeepMinIdle(cfg, p))
  {
    if Wanting(cfg, p) > 0 {
      ForkManyExtends(p, Wanting(cfg, p));
    }
  }

  lemma ExtendsLists(s: seq<nat>, ws: map<nat, Worker>, ws': map<nat, Worker>, place: Place)
    requires Lists(s, ws, place, {}) && place != Nowhere
    requires forall w | w in ws :: w in ws' && ws'[w] == ws[w]
    requires forall w | w in ws' && w !in ws :: ws'[w] == NewWorker
    ensures Lists(s, ws', place, {})
  {
  }

  lemma ExtendsCounts(p: Pool, p': Pool)
    requires Counts(p) && Lists(p.busy, p.workers, Busy, {}) && p'.busy == p.busy && p'.appsLoad == p.appsLoad
    requires forall w | w in p.workers :: w in p'.workers && p'.workers[w] == p.workers[w]
    ensures Counts(p')
  {
    forall a ensures Load(p', a) == CountOf(p'.busy, p'.workers, a) {
      CountFrame(p.busy, p.workers, p'.workers, a);
    }
  }

  lemma ExtendsSorts(p: Pool, p': Pool)
    requires Sorted(p) && p'.idle == p.idle && p'.cached == p.cached && p'.clock == p.clock
    requires forall w | w in p.workers :: w in p'.workers && p'.workers[w] == p.workers[w]
    ensures Sorted(p')
  {
  }

  lemma NewIsFresh()
    ensures OneApp(NewWorker) && Fresh(NewWorker)
  {
  }

  lemma ExtendsKeeps(p: Pool, p': Pool)
    requires PoolOk(p) && Extends(p, p')
    ensures PoolOk(p')
  {
    hide Lists, Counts, Sorted, OneApp, Fresh;
    ExtendsLists(p.idle, p.workers, p'.workers, Idle);
    ExtendsLists(p.cached, p.workers, p'.workers, Cached);
    ExtendsLists(p.busy, p.workers, p'.workers, Busy);
    ExtendsCounts(p, p');
    ExtendsSorts(p, p');
    NewIsFresh();
  }

  // ----- relocating

  /** What `relocateWorker` does to the fields of workers. */
  ghost predicate OnlyMoved(p: Pool, p': Pool, w: nat, to: Place)
    requires w in p.workers
  {
    && Known(p')
    && (forall x | x in p.workers && x != w :: x in p'.workers && p'.workers[x] == p.workers[x])
    && w in p'.workers
    && p'.workers[w] == p.workers[w].(
         place := to, waitsSince := if Waits(to) then p.clock else p.workers[w].waitsSince)
    && (forall x | x in p'.workers && x !in p.workers :: p'.workers[x] == NewWorker && x in p'.booting && p.nextId <= x)
    && p.booting <= p'.booting && p.cluster <= p'.cluster && p'.stopping == p.stopping
    && (forall x | x in p'.booting :: x in p.booting || x !in p.workers)
  }

  /** One array after a worker has left the place `from` for the place `to`. */
  function MovedIn(s: seq<nat>, w: nat, place: Place, from: Place, to: Place): seq<nat> {
    var rest := if from == place then Without(s, w) else s;
    if to == place then [w] + rest else rest
  }

  lemma MovedLists(
    s: seq<nat>, ws: map<nat, Worker>, ws': map<nat, Worker>, w: nat, place: Place, but: set<nat>, to: Place)
    requires Lists(s, ws, place, but) && but <= {w} && w in ws
    requires ws'.Keys == ws.Keys && ws'[w].place == to && place != Nowhere
    requires forall x | x in ws && x != w :: ws'[x] == ws[x]
    ensures Lists(MovedIn(s, w, place, ws[w].place, to), ws', place, {})
    ensures but == {} ==>
      |MovedIn(s, w, place, ws[w].place, to)| ==
      |s| - (if ws[w].place == place then 1 else 0) + (if to == place then 1 else 0)
  {
    var from := ws[w].place;
    var rest := if from == place then Without(s, w) else s;
    WithoutMembers(s, w);
    assert NoDup(rest) && forall x :: x in rest <==> x in s && x != w;
    NoDupFront(rest, w);
  }

  lemma MovedFiles(p: Pool, w: nat, to: Place)
    requires w in p.workers && FiledBut(p, {w})
    ensures FiledBut(Moved(p, w, to), {})
    ensures |Moved(p, w, to).busy| ==
      |p.busy| - (if p.workers[w].place == Busy then 1 else 0) + if to == Busy then 1 else 0
  {
    var ws' := Moved(p, w, to).workers;
    MovedLists(p.idle, p.workers, ws', w, Idle, {w}, to);
    MovedLists(p.cached, p.workers, ws', w, Cached, {w}, to);
    MovedLists(p.busy, p.workers, ws', w, Busy, {}, to);
  }

  lemma NoDupFront(s: seq<nat>, w: nat)
    requires NoDup(s) && w !in s
    ensures NoDup([w] + s)
    ensures forall x :: x in [w] + s <==> x == w || x in s
  {
  }

  lemma {:induction false} DescendingWithout(s: seq<nat>, ws: map<nat, Worker>, w: nat)
    requires Descending(s, ws) && NoDup(s)
    ensures Descending(Without(s, w), ws)
  {
    if s != [] {
      NoDupTail(s);
      DescendingTail(s, ws);
      hide Descending, NoDup;
      if s[0] != w {
        DescendingWithout(s[1..], ws, w);
        WithoutMembers(s[1..], w);
        DescendingFront(Without(s[1..], w), ws, s[0]);
      }
    }
  }

  lemma DescendingTail(s: seq<nat>, ws: map<nat, Worker>)
    requires Descending(s, ws) && s != []
    ensures Descending(s[1..], ws) && s[0] in ws
    ensures forall x | x in s[1..] :: x in ws && ws[s[0]].waitsSince > ws[x].waitsSince
  {
    assert forall i | 0 <= i < |s[1..]| :: s[1..][i] == s[i + 1];
    assert s[0] in s;
  }

  lemma DescendingFront(s: seq<nat>, ws: map<nat, Worker>, w: nat)
    requires Descending(s, ws) && w in ws && forall x | x in s :: ws[w].waitsSince > ws[x].waitsSince
    ensures Descending([w] + s, ws)
  {
  }

  lemma DescendingFrame(s: seq<nat>, ws: map<nat, Worker>, ws': map<nat, Worker>)
    requires Descending(s, ws) && forall x | x in s :: x in ws' && ws'[x].waitsSince == ws[x].waitsSince
    ensures Descending(s, ws')
  {
  }

  /** One array of waiting workers after `w` has moved. */
  lemma MovedDescends(p: Pool, s: seq<nat>, w: nat, place: Place, to: Place, but: set<nat>)
    requires w in p.workers && Descending(s, p.workers) && Lists(s, p.workers, place, but) && Waits(place)
    requires forall x | x in s :: p.workers[x].waitsSince < p.clock
    ensures var r := MovedIn(s, w, place, p.workers[w].place, to);
      && Descending(r, Moved(p, w, to).workers)
      && forall x | x in r :: Moved(p, w, to).workers[x].waitsSince < Moved(p, w, to).clock
  {
    var ws' := Moved(p, w, to).workers;
    var rest := if p.workers[w].place == place then Without(s, w) else s;
    WithoutMembers(s, w);
    DescendingWithout(s, p.workers, w);
    assert w !in rest && forall x | x in rest :: x in s;
    hide Descending;
    DescendingFrame(rest, p.workers, ws');
    if to == place { DescendingFront(rest, ws', w); }
  }

  lemma MovedSorts(p: Pool, w: nat, to: Place)
    requires w in p.workers && FiledBut(p, {w}) && Sorted(p)
    ensures Sorted(Moved(p, w, to))
  {
    hide Lists, Descending;
    MovedDescends(p, p.idle, w, Idle, to, {w});
    MovedDescends(p, p.cached, w, Cached, to, {w});
  }

  lemma MovedCounts(p: Pool, w: nat, to: Place)
    requires w in p.workers && FiledBut(p, {w}) && Counts(p) && (p.workers[w].place == Busy ==> to != Busy)
    ensures Counts(Counted(Moved(p, w, to), p.workers[w].appId, p.workers[w].place, to))
  {
    var from := p.workers[w].place;
    var app := p.workers[w].appId;
    var p1 := Moved(p, w, to);
    var p2 := Counted(p1, app, from, to);
    forall a ensures Load(p2, a) == CountOf(p2.busy, p2.workers, a) {
      assert Load(p, a) == CountOf(p.busy, p.workers, a);
      if from == Busy {
        CountWithout(p.busy, p.workers, w, a);
        WithoutMembers(p.busy, w);
        CountFrame(Without(p.busy, w), p.workers, p2.workers, a);
      } else {
        CountFrame(p.busy, p.workers, p2.workers, a);
        if to == Busy {
          assert ([w] + p.busy)[1..] == p.busy;
        }
      }
    }
  }

  /** What relocateWorker needs: the books are right but for `w`, which may just have been popped. */
  ghost predicate Ready(p: Pool, w: nat, to: Place) {
    && w in p.workers && FiledBut(p, {w}) && Counts(p) && Sorted(p) && Known(p)
    && (p.workers[w].place == Busy ==> to != Busy)
    && (forall x | x in p.workers && x != w :: OneApp(p.workers[x]))
    && OneApp(p.workers[w].(place := to))
    && (forall x | x in p.booting && x != w :: Fresh(p.workers[x]))
    && (w in p.booting ==> to == Nowhere && Fresh(p.workers[w]))
  }

  /** relocateWorker puts the books right. */
  lemma RelocateKeeps(cfg: Config, p: Pool, w: nat, to: Place)
    requires Ready(p, w, to)
    ensures PoolOk(Relocate(cfg, p, w, to))
  {
    var p1 := Counted(Moved(p, w, to), p.workers[w].appId, p.workers[w].place, to);
    CountedOk(p, w, to);
    hide PoolOk, Extends, Known, Moved, Counted, Ready;
    KeepMinIdleExtends(cfg, p1);
    ExtendsKeeps(p1, KeepMinIdle(cfg, p1));
  }

  lemma ExtendsMoved(p: Pool, p1: Pool, p': Pool, w: nat, to: Place)
    requires w in p.workers && OnlyMoved(p, p1, w, to) && Extends(p1, p') && p1.workers.Keys == p.workers.Keys
    requires p.nextId <= p1.nextId
    ensures OnlyMoved(p, p', w, to)
  {
  }

  lemma CountedMoves(p: Pool, w: nat, to: Place)
    requires w in p.workers && Known(p)
    ensures var p1 := Counted(Moved(p, w, to), p.workers[w].appId, p.workers[w].place, to);
      OnlyMoved(p, p1, w, to) && p1.workers.Keys == p.workers.Keys && Known(p1) && p1.nextId == p.nextId
  {
  }

  lemma RelocateMoves(cfg: Config, p: Pool, w: nat, to: Place)
    requires w in p.workers && Known(p)
    ensures var p' := Relocate(cfg, p, w, to);
      && OnlyMoved(p, p', w, to)
      && p'.busy == Moved(p, w, to).busy && p'.cached == Moved(p, w, to).cached && p'.idle == Moved(p, w, to).idle
      && p'.appsLoad == Counted(p, p.workers[w].appId, p.workers[w].place, to).appsLoad
  {
    var p1 := Counted(Moved(p, w, to), p.workers[w].appId, p.workers[w].place, to);
    CountedMoves(p, w, to);
    KeepMinIdleExtends(cfg, p1);
    hide OnlyMoved, Moved, Known;
    ExtendsMoved(p, p1, KeepMinIdle(cfg, p1), w, to);
  }

  lemma CountedOk(p: Pool, w: nat, to: Place)
    requires Ready(p, w, to)
    ensures w in p.workers
    ensures var p1 := Counted(Moved(p, w, to), p.workers[w].appId, p.workers[w].place, to);
      PoolOk(p1) && Known(p1)
  {
    hide FiledBut, Counts, Sorted, OneApp, Fresh, Known;
    CountedKnown(p, w, to);
    MovedFiles(p, w, to);
    MovedSorts(p, w, to);
    MovedCounts(p, w, to);
    var p1 := Moved(p, w, to);
    var p2 := Counted(p1, p.workers[w].appId, p.workers[w].place, to);
    SameArrays(p1, p2);
    SameLife(p.workers[w].(place := to), p1.workers[w]);
    MovedBoots(p, w, to);
  }

  lemma CountedKnown(p: Pool, w: nat, to: Place)
    requires w in p.workers && Known(p)
    ensures Known(Counted(Moved(p, w, to), p.workers[w].appId, p.workers[w].place, to))
  {
  }

  /** The counters are no part of the other books. */
  lemma SameArrays(p: Pool, p': Pool)
    requires FiledBut(p, {}) && Sorted(p) && p' == p.(appsLoad := p'.appsLoad)
    ensures FiledBut(p', {}) && Sorted(p')
  {
  }

  lemma MovedBoots(p: Pool, w: nat, to: Place)
    requires w in p.workers && (w in p.booting ==> to == Nowhere && Fresh(p.workers[w]))
    ensures w in p.booting ==> Fresh(Moved(p, w, to).workers[w])
  {
  }

  // ----- each operation

  lemma PoolStart()
    ensures PoolOk(Pool([], [], [], map[], 0, map[], {}, {}, 0, 0, false))
  {
  }

  lemma ForkKeeps(p: Pool)
    requires PoolOk(p)
    ensures PoolOk(Fork(p)) && Extends(p, Fork(p)) && p.nextId in Fork(p).booting
  {
    assert ForkMany(p, 1) == Fork(p) by { assert ForkMany(Fork(p), 0) == Fork(p); }
    ForkManyExtends(p, 1);
    ExtendsKeeps(p, Fork(p));
  }

  /** Fields the books do not speak about have changed. */
  ghost predicate SameBooks(ws: map<nat, Worker>, ws': map<nat, Worker>) {
    && ws'.Keys == ws.Keys
    && forall x | x in ws ::
      && ws'[x].place == ws[x].place && ws'[x].appId == ws[x].appId && ws'[x].waitsSince == ws[x].waitsSince
      && ws'[x].exited == ws[x].exited
  }

  lemma BooksKeep(p: Pool, ws': map<nat, Worker>, but: set<nat>)
    requires SameBooks(p.workers, ws')
    ensures var p' := p.(workers := ws');
      && (FiledBut(p, but) ==> FiledBut(p', but))
      && (Sorted(p) ==> Sorted(p'))
      && (Known(p) ==> Known(p'))
  {
  }

  lemma BooksCount(p: Pool, ws': map<nat, Worker>)
    requires SameBooks(p.workers, ws') && Lists(p.busy, p.workers, Busy, {}) && Counts(p)
    ensures Counts(p.(workers := ws'))
  {
    var p' := p.(workers := ws');
    forall a ensures Load(p', a) == CountOf(p'.busy, p'.workers, a) {
      CountFrame(p.busy, p.workers, p'.workers, a);
    }
  }

  lemma FieldsKeep(p: Pool, ws': map<nat, Worker>)
    requires PoolOk(p) && SameBooks(p.workers, ws')
    requires forall x | x in ws' :: OneApp(ws'[x])
    requires forall x | x in p.booting :: x in ws' && Fresh(ws'[x])
    ensures PoolOk(p.(workers := ws'))
  {
    BooksKeep(p, ws', {});
    BooksCount(p, ws');
    hide OneApp, Fresh, Counts, Sorted, Lists, SameBooks;
  }

  lemma FieldKeeps(p: Pool, w: nat, o: Worker)
    requires PoolOk(p) && w in p.workers && OneApp(o) && (w in p.booting ==> Fresh(o))
    requires o.place == p.workers[w].place && o.appId == p.workers[w].appId
    requires o.waitsSince == p.workers[w].waitsSince && o.exited == p.workers[w].exited
    ensures PoolOk(p.(workers := p.workers[w := o]))
  {
    hide OneApp, Fresh, Counts, Sorted, Lists, FiledBut;
    FieldsKeep(p, p.workers[w := o]);
  }

  lemma StartedKeeps(cfg: Config, p: Pool, w: nat)
    requires PoolOk(p) && w in p.booting
    ensures PoolOk(Started(cfg, p, w))
  {
    hide PoolOk, Ready, Started, Moved, Counted;
    OffReady(p, w);
    var off := p.(booting := p.booting - {w});
    CountedOk(off, w, Idle);
    StartedIs(cfg, p, w);
    StartingKeeps(Moved(off, w, Idle), p.starting - 1);
  }

  /** A worker that starts was filed nowhere, so nothing is counted and nothing is forked. */
  lemma StartedIs(cfg: Config, p: Pool, w: nat)
    requires w in p.workers && p.workers[w].place == Nowhere
    ensures var off := p.(booting := p.booting - {w});
      && Started(cfg, p, w) == Moved(off, w, Idle).(starting := p.starting - 1)
      && Counted(Moved(off, w, Idle), p.workers[w].appId, Nowhere, Idle) == Moved(off, w, Idle)
  {
  }

  lemma OffReady(p: Pool, w: nat)
    requires PoolOk(p) && w in p.booting
    ensures w in p.workers && Ready(p.(booting := p.booting - {w}), w, Idle) && p.workers[w].place == Nowhere
  {
    hide Lists, Counts, Sorted;
    var off := p.(booting := p.booting - {w});
    WeakenFiled(p, w);
    SameBooksBut(p, off);
    FreshGoesIdle(p.workers[w]);
    hide OneApp, Fresh;
  }

  lemma FreshGoesIdle(o: Worker)
    requires Fresh(o) && OneApp(o)
    ensures OneApp(o.(place := Idle)) && o.place == Nowhere
  {
  }

  lemma SameBooksBut(p: Pool, p': Pool)
    requires Counts(p) && Sorted(p) && p' == p.(booting := p'.booting)
    ensures Counts(p') && Sorted(p')
  {
    forall a ensures Load(p', a) == CountOf(p'.busy, p'.workers, a) {
      assert Load(p, a) == CountOf(p.busy, p.workers, a);
    }
  }

  lemma StartingKeeps(p: Pool, starting: int)
    requires PoolOk(p)
    ensures PoolOk(p.(starting := starting))
  {
    var p' := p.(starting := starting);
    forall a ensures Load(p', a) == CountOf(p'.busy, p'.workers, a) {
      assert Load(p, a) == CountOf(p.busy, p.workers, a);
    }
  }

  lemma ReadyToLeave(p: Pool, w: nat)
    requires FiledBut(p, {w}) && Counts(p) && Sorted(p) && Known(p) && w in p.workers
    requires forall x | x in p.workers :: OneApp(p.workers[x])
    requires forall x | x in p.booting :: Fresh(p.workers[x])
    ensures Ready(p, w, Nowhere)
  {
    hide Counts, Sorted, Lists;
    Leaving(p.workers[w]);
  }

  lemma Leaving(o: Worker)
    requires OneApp(o)
    ensures OneApp(o.(place := Nowhere))
  {
    assert o.(place := Nowhere).ran == o.ran;
  }

  lemma SameLife(o: Worker, o': Worker)
    requires o'.appId == o.appId && o'.place == o.place && o'.task == o.task && o'.ran == o.ran
    requires o'.toBeRemoved == o.toBeRemoved && o'.afterMark == o.afterMark
    ensures OneApp(o) ==> OneApp(o')
    ensures Fresh(o) ==> Fresh(o')
  {
  }

  lemma KillKeeps(cfg: Config, p: Pool, w: nat)
    requires FiledBut(p, {w}) && Counts(p) && Sorted(p) && Known(p) && w in p.workers
    requires forall x | x in p.workers :: OneApp(p.workers[x])
    requires forall x | x in p.booting :: Fresh(p.workers[x])
    ensures PoolOk(Kill(cfg, p, w))
  {
    ReadyToLeave(p, w);
    RelocateKeeps(cfg, p, w, Nowhere);
    RelocateMoves(cfg, p, w, Nowhere);
    hide Counts, Sorted, Lists, FiledBut, Ready, Relocate;
    var p1 := Relocate(cfg, p, w, Nowhere);
    SameLife(p1.workers[w], p1.workers[w].(killed := true));
    hide OneApp, Fresh;
    FieldKeeps(p1, w, p1.workers[w].(killed := true));
  }

  /** The process has exited, and the cluster may have dropped the worker. */
  lemma ExitFlagKeeps(p: Pool, w: nat, cluster: set<nat>)
    requires PoolOk(p) && w in p.workers && (cluster == p.cluster || cluster == p.cluster - {w})
    ensures PoolOk(p.(workers := p.workers[w := p.workers[w].(exited := true)], cluster := cluster))
  {
    hide Lists, Counts, Sorted, OneApp, Fresh;
    var q := p.(workers := p.workers[w := p.workers[w].(exited := true)], cluster := cluster);
    ExitBooks(p, w, q);
    SameLife(p.workers[w], q.workers[w]);
  }

  lemma ExitBooks(p: Pool, w: nat, q: Pool)
    requires w in p.workers && FiledBut(p, {}) && Counts(p) && Sorted(p)
    requires q == p.(workers := p.workers[w := p.workers[w].(exited := true)], cluster := q.cluster)
    ensures FiledBut(q, {}) && Counts(q) && Sorted(q)
  {
    forall a ensures Load(q, a) == CountOf(q.busy, q.workers, a) {
      CountFrame(p.busy, p.workers, q.workers, a);
    }
  }

  lemma ExitedKeeps(cfg: Config, p: Pool, w: nat, disconnected: bool)
    requires PoolOk(p) && w in p.workers
    ensures PoolOk(Exited(cfg, p, w, disconnected))
  {
    hide Counts, Sorted, Lists, OneApp, Fresh, Relocate;
    var cluster := if disconnected then p.cluster - {w} else p.cluster;
    ExitFlagKeeps(p, w, cluster);
    var q := p.(workers := p.workers[w := p.workers[w].(exited := true)], cluster := cluster);
    if !p.workers[w].killed {
      WeakenFiled(q, w);
      ReadyToLeave(q, w);
      RelocateKeeps(cfg, q, w, Nowhere);
    }
  }

  lemma IdleAfterTask(o: Worker)
    requires OneApp(o) && o.task.Some? && o.task.value.cacheable && !o.toBeRemoved
    ensures OneApp(o.(task := None, place := Cached))
  {
    var o' := o.(task := None, place := Cached);
    forall t | t in o.ran ensures t.cacheable {
      var i :| 0 <= i < |o.ran| && o.ran[i] == t;
    }
    assert o'.ran == o.ran;
  }

  lemma IdlingKeeps(cfg: Config, p: Pool, w: nat)
    requires PoolOk(p) && w in p.workers && p.workers[w].task.Some?
    ensures PoolOk(IdlingFrom(cfg, p, w))
  {
    hide Counts, Sorted, Lists, OneApp, Fresh, Relocate, Kill;
    var o := p.workers[w];
    WeakenFiled(p, w);
    if o.task.value.cacheable && !o.toBeRemoved {
      var ws' := p.workers[w := o.(task := None)];
      BooksKeep(p, ws', {w});
      BooksCount(p, ws');
      IdleAfterTask(o);
      TaskNotBooting(p, w);
      assert Ready(p.(workers := ws'), w, Cached);
      RelocateKeeps(cfg, p.(workers := ws'), w, Cached);
    } else {
      KillKeeps(cfg, p, w);
    }
  }

  lemma TaskNotBooting(p: Pool, w: nat)
    requires PoolOk(p) && w in p.workers && p.workers[w].task.Some?
    ensures w !in p.booting
  {
    hide FiledBut, Counts, Sorted, OneApp;
  }

  // ----- handing a task over

  lemma {:induction false} FindCachedIs(cached: seq<nat>, workers: map<nat, Worker>, app: App)
    ensures var r := FindCached(cached, workers, app);
      if r.None? then forall w | w in cached && w in workers :: workers[w].appId != Some(app)
      else exists i | 0 <= i < |cached| ::
        && cached[i] == r.value && r.value in workers && workers[r.value].appId == Some(app)
        && forall j | 0 <= j < i && cached[j] in workers :: workers[cached[j]].appId != Some(app)
  {
    if cached != [] && !(cached[0] in workers && workers[cached[0]].appId == Some(app)) {
      FindCachedIs(cached[1..], workers, app);
      var r := FindCached(cached[1..], workers, app);
      if r.Some? {
        var i :| 0 <= i < |cached[1..]| && cached[1..][i] == r.value
          && forall j | 0 <= j < i && cached[1..][j] in workers :: workers[cached[1..][j]].appId != Some(app);
        forall j | 0 <= j < i + 1 && cached[j] in workers ensures workers[cached[j]].appId != Some(app) {
          if j > 0 { assert cached[1..][j - 1] == cached[j]; }
        }
        assert cached[i + 1] == r.value;
      }
    } else if cached != [] {
      assert cached[0] == FindCached(cached, workers, app).value;
    }
  }

  /** The worker `w` as it is while it waits, and as it is handed a task. */
  lemma AssignedLives(cfg: Config, o: Worker, task: Task)
    requires OneApp(o) && (o.place == Idle || (o.place == Cached && o.appId == Some(task.app)))
    requires o.place == Cached ==> CacheEnabled(cfg) && task.cacheable
    ensures var tag := if o.place == Idle && task.cacheable then o.(appId := Some(task.app)) else o;
      OneApp(Assigned(cfg, tag, task).(place := Busy))
  {
    var tag := if o.place == Idle && task.cacheable then o.(appId := Some(task.app)) else o;
    var a := Assigned(cfg, tag, task).(place := Busy);
    forall i | 0 <= i < |a.ran| - 1 ensures a.ran[i].cacheable {
      assert a.ran[i] == o.ran[i] && o.ran[i] in o.ran;
    }
  }

  /** Handing a task to a worker that was just popped from the idle pool, or is still cached. */
  lemma ProcessTaskKeeps(cfg: Config, p: Pool, w: nat, task: Task)
    requires w in p.workers && FiledBut(p, {w}) && Counts(p) && Sorted(p) && Known(p)
    requires forall x | x in p.workers && x != w :: OneApp(p.workers[x])
    requires forall x | x in p.booting :: Fresh(p.workers[x]) && x != w
    requires p.workers[w].place == Idle || p.workers[w].place == Cached
    requires OneApp(Assigned(cfg, p.workers[w], task).(place := Busy))
    ensures PoolOk(ProcessTask(cfg, p, w, task))
  {
    hide Counts, Sorted, OneApp, Fresh, Lists;
    var ws' := p.workers[w := Assigned(cfg, p.workers[w], task)];
    BooksKeep(p, ws', {w});
    BooksCount(p, ws');
    assert Ready(p.(workers := ws'), w, Busy);
    RelocateKeeps(cfg, p.(workers := ws'), w, Busy);
  }

  lemma NotBooting(p: Pool, w: nat)
    requires PoolOk(p) && w in p.workers && p.workers[w].place != Nowhere
    ensures w !in p.booting
  {
  }

  lemma TagSorts(p: Pool, w: nat, appId: Option<App>, idle: seq<nat>)
    requires w in p.workers && Sorted(p) && idle <= p.idle
    ensures Sorted(p.(idle := idle, workers := p.workers[w := p.workers[w].(appId := appId)]))
  {
    assert forall x | x in idle :: x in p.idle;
  }

  lemma TagFiles(p: Pool, w: nat, appId: Option<App>, idle: seq<nat>)
    requires w in p.workers && p.workers[w].place == Idle
    requires Lists(idle, p.workers, Idle, {w}) && Lists(p.cached, p.workers, Cached, {})
    requires Lists(p.busy, p.workers, Busy, {})
    ensures FiledBut(p.(idle := idle, workers := p.workers[w := p.workers[w].(appId := appId)]), {w})
  {
  }

  /** A tag is no part of the arrays, and `w` is not busy. */
  lemma TagKeeps(p: Pool, w: nat, appId: Option<App>, idle: seq<nat>)
    requires w in p.workers && p.workers[w].place == Idle && Counts(p) && Sorted(p) && Known(p)
    requires Lists(idle, p.workers, Idle, {w}) && Lists(p.cached, p.workers, Cached, {})
    requires Lists(p.busy, p.workers, Busy, {}) && idle <= p.idle
    ensures
      var q := p.(idle := idle, workers := p.workers[w := p.workers[w].(appId := appId)]);
      FiledBut(q, {w}) && Counts(q) && Sorted(q) && Known(q)
  {
    TagSorts(p, w, appId, idle);
    TagFiles(p, w, appId, idle);
    var q := p.(idle := idle, workers := p.workers[w := p.workers[w].(appId := appId)]);
    hide Sorted, FiledBut;
    forall a ensures Load(q, a) == CountOf(q.busy, q.workers, a) {
      CountFrame(p.busy, p.workers, q.workers, a);
    }
  }

  /** idleWorkers.pop(), and the tag a cacheable task leaves on the worker. */
  lemma PopKeeps(p: Pool, w: nat, appId: Option<App>)
    requires PoolOk(p) && p.idle != [] && w == p.idle[|p.idle| - 1]
    ensures w in p.workers && p.workers[w].place == Idle
    ensures
      var q := p.(idle := p.idle[..|p.idle| - 1], workers := p.workers[w := p.workers[w].(appId := appId)]);
      FiledBut(q, {w}) && Counts(q) && Sorted(q) && Known(q)
  {
    hide Lists, Counts, Sorted, OneApp, Fresh;
    PoppedLists(p.idle, p.workers, Idle);
    TagKeeps(p, w, appId, p.idle[..|p.idle| - 1]);
  }

  lemma HandOffCachedKeeps(cfg: Config, p: Pool, w: nat, task: Task)
    requires PoolOk(p) && w in p.cached && p.workers[w].appId == Some(task.app)
    requires CacheEnabled(cfg) && task.cacheable
    ensures PoolOk(ProcessTask(cfg, p, w, task))
  {
    AssignedLives(cfg, p.workers[w], task);
    NotBooting(p, w);
    WeakenFiled(p, w);
    hide OneApp, Fresh, Counts, Sorted, FiledBut, ProcessTask, Assigned;
    ProcessTaskKeeps(cfg, p, w, task);
  }

  lemma HandOffIdleKeeps(cfg: Config, p: Pool, w: nat, task: Task)
    requires PoolOk(p) && p.idle != [] && w == p.idle[|p.idle| - 1] && w in p.workers
    ensures PoolOk(ProcessTask(cfg, Popped(p, w, task.app, task.cacheable), w, task))
  {
    hide OneApp, Fresh, Counts, Sorted, FiledBut, ProcessTask, Assigned;
    var q := Popped(p, w, task.app, task.cacheable);
    PopKeeps(p, w, q.workers[w].appId);
    NotBooting(p, w);
    AssignedLives(cfg, p.workers[w], task);
    assert !task.cacheable ==> p.workers == p.workers[w := p.workers[w].(appId := p.workers[w].appId)];
    ProcessTaskKeeps(cfg, q, w, task);
  }

  lemma HandOffKeeps(cfg: Config, p: Pool, task: Task)
    requires PoolOk(p) && HandOff(cfg, p, task).Some?
    ensures PoolOk(HandOff(cfg, p, task).value.0)
  {
    var hit := Hit(cfg, p, task.app, task.cacheable);
    FindCachedIs(p.cached, p.workers, task.app);
    hide PoolOk, ProcessTask;
    if hit.Some? {
      assert hit.value in p.cached;
      HandOffCachedKeeps(cfg, p, hit.value, task);
    } else {
      HandOffIdleKeeps(cfg, p, p.idle[|p.idle| - 1], task);
    }
  }

  lemma WeakenFiled(p: Pool, w: nat)
    requires FiledBut(p, {})
    ensures FiledBut(p, {w})
  {
  }

  lemma MakeRoomKeeps(cfg: Config, p: Pool)
    requires PoolOk(p)
    ensures PoolOk(MakeRoom(cfg, p))
  {
    if CacheEnabled(cfg) && cfg.cachedLimit <= |p.cached| && p.cached != [] {
      hide OneApp, Fresh, Counts, Sorted, Lists, Kill;
      var w := p.cached[|p.cached| - 1];
      var q := p.(cached := p.cached[..|p.cached| - 1]);
      PoppedLists(p.cached, p.workers, Cached);
      PoppedSorts(p, q);
      PoppedOthers(p, q, w);
      KillKeeps(cfg, q, w);
    }
  }

  /** `pop()`: the array loses its last worker, who is still filed under it. */
  lemma PoppedLists(s: seq<nat>, ws: map<nat, Worker>, place: Place)
    requires Lists(s, ws, place, {}) && s != []
    ensures var w := s[|s| - 1]; w in ws && ws[w].place == place && Lists(s[..|s| - 1], ws, place, {w})
  {
    var w, rest := s[|s| - 1], s[..|s| - 1];
    assert w in s;
    forall x | x in s && x != w ensures x in rest {
      var i :| 0 <= i < |s| && s[i] == x;
      assert rest[i] == x;
    }
  }

  lemma PoppedSorts(p: Pool, q: Pool)
    requires Sorted(p) && p.cached != [] && q == p.(cached := p.cached[..|p.cached| - 1])
    ensures Sorted(q)
  {
    assert forall x | x in q.cached :: x in p.cached;
  }

  lemma PoppedOthers(p: Pool, q: Pool, w: nat)
    requires Lists(p.idle, p.workers, Idle, {}) && Counts(p)
    requires q == p.(cached := q.cached)
    ensures Lists(q.idle, q.workers, Idle, {w}) && Counts(q)
  {
    forall a ensures Load(q, a) == CountOf(q.busy, q.workers, a) {
      assert Load(p, a) == CountOf(p.busy, p.workers, a);
    }
  }

  // ----- redeployment and messages

  lemma MarkKeeps(p: Pool, app: Option<App>)
    requires PoolOk(p)
    ensures PoolOk(MarkAll(p, app))
  {
    hide OneApp, Fresh, Counts, Sorted, FiledBut;
    var ws' := MarkAll(p, app).workers;
    forall x | x in ws' ensures OneApp(ws'[x]) && (x in p.booting ==> Fresh(ws'[x])) {
      Marked(p.workers[x]);
    }
    FieldsKeep(p, ws');
  }

  lemma Marked(o: Worker)
    requires OneApp(o)
    ensures OneApp(o.(toBeRemoved := true)) && (Fresh(o) ==> Fresh(o.(toBeRemoved := true)))
  {
    assert o.(toBeRemoved := true).ran == o.ran;
  }

  lemma KillAnyKeeps(cfg: Config, p: Pool, w: nat)
    requires PoolOk(p) && w in p.workers
    ensures PoolOk(Kill(cfg, p, w))
  {
    WeakenFiled(p, w);
    hide OneApp, Fresh, Counts, Sorted, FiledBut, Kill;
    KillKeeps(cfg, p, w);
  }

  lemma {:induction false} KillCachedKeeps(cfg: Config, p: Pool, app: Option<App>, k: nat, len: nat)
    requires PoolOk(p) && k <= len
    ensures PoolOk(KillCached(cfg, p, app, k, len))
    decreases len - k
  {
    hide PoolOk, Kill;
    if k < len {
      if k < |p.cached| && p.cached[k] in p.workers && p.workers[p.cached[k]].appId == app {
        KillAnyKeeps(cfg, p, p.cached[k]);
        KillCachedKeeps(cfg, Kill(cfg, p, p.cached[k]), app, k + 1, len);
      } else {
        KillCachedKeeps(cfg, p, app, k + 1, len);
      }
    }
  }

  lemma KillAllKeeps(cfg: Config, p: Pool, app: Option<App>)
    requires PoolOk(p)
    ensures PoolOk(KillAllAppWorkers(cfg, p, app))
  {
    MarkKeeps(p, app);
    KillCachedKeeps(cfg, MarkAll(p, app), app, 0, |p.cached|);
  }

  lemma CriticalKeeps(p: Pool, w: nat)
    requires PoolOk(p) && w in p.workers
    ensures PoolOk(CriticalErrorFrom(p, w))
  {
    hide OneApp, Fresh, Counts, Sorted, FiledBut;
    Marked(p.workers[w]);
    FieldKeeps(p, w, p.workers[w].(toBeRemoved := true));
  }

  lemma ReportKeeps(p: Pool, w: nat)
    requires PoolOk(p) && w in p.workers
    ensures PoolOk(ReportFrom(p, w))
  {
    hide OneApp, Fresh, Counts, Sorted, FiledBut;
    var o' := p.workers[w].(reports := p.workers[w].reports + 1);
    SameLife(p.workers[w], o');
    FieldKeeps(p, w, o');
  }

  // ----- the rate limit

  /** What the counters decide, in terms of busy workers: an app whose limit is positive is stopped when
      it has that many, one whose limit is not as soon as it has been counted at all. */
  lemma RateLimitMeans(cfg: Config, p: Pool, app: App)
    requires PoolOk(p)
    ensures RateLimitReached(cfg, p, app) <==>
      && cfg.rateEnabled
      && if Limit(cfg, app) > 0 then |Having(p.busy, p.workers, Some(app))| >= Limit(cfg, app)
         else Some(app) in p.appsLoad
  {
    hide Having, Limit, OneApp, Fresh, Sorted, NoDup;
    LoadsAreRight(p);
  }
}
