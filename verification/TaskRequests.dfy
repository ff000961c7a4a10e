/** The request chains of lib/server-code/runners/cloud-master.js: what each of them is waiting for, and
    how many there are of each kind. */
module TaskRequests {
  import opened Options
  import opened WorkerPool

  datatype Queue = Main | LowPriority

  /** `Getting` waits in getTask with a getter client of its own, `PushingBack` for the queue to take a
      task back, `Awaiting` for the new worker `w` to start; `early` is resetRequestBefore. */
  datatype Chain =
    | Getting(q: Queue, client: nat)
    | PushingBack(q: Queue)
    | Awaiting(q: Queue, task: Task, early: bool, w: nat)
    | Over

  datatype Kind = Alive | Holding(q: Queue) | On(q: Queue) | Early | InGetTask | With(client: nat) | For(app: App)

  /** `Holding(q)`: the chain is the one taskRequests[q] stands for. */
  predicate Is(c: Chain, k: Kind) {
    match k
    case Alive => !c.Over?
    case Holding(q) => !c.Over? && c.q == q && !(c.Awaiting? && c.early)
    case On(q) => !c.Over? && c.q == q
    case Early => c.Awaiting? && c.early
    case InGetTask => c.Getting?
    case With(client) => c.Getting? && c.client == client
    case For(app) => c.Awaiting? && c.task.app == app
  }

  function Tally(s: seq<Chain>, k: Kind): nat {
    if s == [] then 0 else (if Is(s[0], k) then 1 else 0) + Tally(s[1..], k)
  }

  function One(c: Chain, k: Kind): nat {
    if Is(c, k) then 1 else 0
  }

  lemma {:induction false} TallyAppend(s: seq<Chain>, c: Chain, k: Kind)
    ensures Tally(s + [c], k) == Tally(s, k) + One(c, k)
  {
    if s == [] {
      assert (s + [c])[1..] == [];
    } else {
      TallyAppend(s[1..], c, k);
      assert (s + [c])[1..] == s[1..] + [c];
    }
  }

  lemma {:induction false} TallyUpdate(s: seq<Chain>, i: nat, c: Chain, k: Kind)
    requires i < |s|
    ensures Tally(s[i := c], k) == Tally(s, k) - One(s[i], k) + One(c, k)
  {
    if i == 0 {
      assert s[0 := c][1..] == s[1..];
    } else {
      TallyUpdate(s[1..], i - 1, c, k);
      assert s[i := c][1..] == s[1..][i - 1 := c];
    }
  }

  lemma {:induction false} TallyAt(s: seq<Chain>, i: nat, k: Kind)
    requires i < |s| && Is(s[i], k)
    ensures Tally(s, k) >= 1
  {
    if i > 0 { TallyAt(s[1..], i - 1, k); }
  }

  /** Every chain alive is the holder of its queue's slot or has given it up early. */
  lemma {:induction false} AliveSplits(s: seq<Chain>)
    ensures Tally(s, Alive) == Tally(s, Holding(Main)) + Tally(s, Holding(LowPriority)) + Tally(s, Early)
    ensures Tally(s, InGetTask) <= Tally(s, Holding(Main)) + Tally(s, Holding(LowPriority))
    ensures Tally(s, Holding(LowPriority)) <= Tally(s, On(LowPriority))
  {
    if s != [] {
      AliveSplits(s[1..]);
      assert !s[0].Over? ==> s[0].q == Main || s[0].q == LowPriority;
    }
  }
}
