/** A worker process, lib/server-code/runners/cloud-worker.js: the order in which it puts messages on
    its channel, and what can be on the channel while the broker has a task on record for it. */
module CloudWorkerProcess {
  import opened Options
  import opened WorkerPool

  datatype Message = Processed(of: Task) | CriticalErrorMessage | Idling | Heartbeat

  /** Where processTask stands. */
  datatype Stage =
    | Resting
    | Executing(t: Task)
    | SendingResult(t: Task)
    | SentResult(t: Task)
    | Finishing(t: Task)

  /** `inbox` and `outbox` are the two directions of the channel, oldest message first.  `succeeded` is
      bookkeeping: whether the last task that was executed reached its first send. */
  datatype Process = Process(
    inbox: seq<Task>, stage: Stage, critical: bool, outbox: seq<Message>, succeeded: bool)

  const NewProcess := Process([], Resting, false, [], false)

  /** `Executed` ends with the first send of the result; `Failed` is the catch branch; `Broke` is
      setCriticalError called by a failing require; `Beat` is the heartbeat timer. */
  datatype Move = Take | Executed(criticalResult: bool) | Failed | Sent | Told | Finished | Broke | Beat

  function Say(pr: Process, m: Message, stage: Stage): Process {
    pr.(outbox := pr.outbox + [m], stage := stage)
  }

  function Advance(pr: Process, move: Move): Process {
    match move
    case Take =>
      if pr.inbox != [] then pr.(inbox := pr.inbox[1..], stage := Executing(pr.inbox[0])) else pr
    case Executed(criticalResult) =>
      if pr.stage.Executing?
      then Say(pr, Processed(pr.stage.t), SendingResult(pr.stage.t)).(
             critical := pr.critical || criticalResult, succeeded := true)
      else pr
    case Failed =>
      if pr.stage.Executing?
      then pr.(critical := true, stage := SendingResult(pr.stage.t), succeeded := false) else pr
    case Sent =>
      if pr.stage.SendingResult? then Say(pr, Processed(pr.stage.t), SentResult(pr.stage.t)) else pr
    case Told =>
      if !pr.stage.SentResult? then pr
      else if pr.critical then Say(pr, CriticalErrorMessage, Finishing(pr.stage.t))
      else pr.(stage := Finishing(pr.stage.t))
    case Finished =>
      if pr.stage.Finishing? then Say(pr, Idling, Resting) else pr
    case Broke => pr.(critical := true)
    case Beat => Say(pr, Heartbeat, pr.stage)
  }

  /** A move that would start a task while another one is still going on. */
  predicate Overlaps(pr: Process, move: Move) {
    move.Take? && pr.inbox != [] && !pr.stage.Resting?
  }

  // ----- the channel

  function Results(s: seq<Message>): nat {
    if s == [] then 0 else (if s[0].Processed? then 1 else 0) + Results(s[1..])
  }

  predicate Silent(s: seq<Message>) {
    forall m | m in s :: m == Heartbeat
  }

  predicate Names(s: seq<Message>, t: Task) {
    forall m | m in s && m.Processed? :: m.of == t
  }

  /** 'idling' comes once, after everything but heartbeats. */
  predicate EndsIdling(s: seq<Message>) {
    exists i :: 0 <= i < |s| && s[i] == Idling && Idling !in s[..i] && Silent(s[i + 1..])
  }

  predicate Quiet(pr: Process) {
    pr.inbox == [] && pr.stage.Resting? && Silent(pr.outbox)
  }

  /** How often a task is reported in all: both sends of a success carry the result. */
  function Due(succeeded: bool): nat {
    if succeeded then 2 else 1
  }

  /** What the channel of a process may hold when the broker has task `t` on record for its worker and
      has seen `reports` results of it. */
  predicate Working(t: Task, reports: nat, pr: Process) {
    var due := Due(pr.succeeded);
    var sent := reports + Results(pr.outbox);
    if pr.stage.Resting? then
      || (pr.inbox == [t] && Silent(pr.outbox) && reports == 0)
      || (pr.inbox == [] && Names(pr.outbox, t) && EndsIdling(pr.outbox) && sent == due)
      || (pr.inbox == [] && Silent(pr.outbox) && reports == due)
    else
      && pr.inbox == [] && pr.stage.t == t && Names(pr.outbox, t) && Idling !in pr.outbox
      && match pr.stage
         case Executing(_) => sent == 0
         case SendingResult(_) => sent == due - 1
         case _ => sent == due
  }

  predicate Flow(o: Worker, pr: Process) {
    match o.task
    case None => Quiet(pr)
    case Some(t) => Working(t, o.reports, pr)
  }

  // ----- lemmas about sequences of messages

  lemma {:induction false} ResultsSay(s: seq<Message>, m: Message)
    ensures Results(s + [m]) == Results(s) + if m.Processed? then 1 else 0
  {
    if s != [] {
      ResultsSay(s[1..], m);
      assert (s + [m])[1..] == s[1..] + [m];
    } else {
      assert (s + [m])[1..] == [];
    }
  }

  lemma {:induction false} SilentResults(s: seq<Message>)
    requires Silent(s)
    ensures Results(s) == 0
  {
    if s != [] {
      assert s[0] in s;
      assert forall m | m in s[1..] :: m in s;
      SilentResults(s[1..]);
    }
  }

  lemma SaySilent(s: seq<Message>, m: Message)
    ensures Silent(s + [m]) <==> Silent(s) && m == Heartbeat
    ensures forall x :: x in s + [m] <==> x in s || x == m
  {
    assert m in s + [m];
    assert forall x | x in s :: x in s + [m];
  }

  lemma EndsIdlingSay(s: seq<Message>)
    requires Idling !in s
    ensures EndsIdling(s + [Idling])
  {
    var r := s + [Idling];
    assert r[|s|] == Idling && r[..|s|] == s && r[|s| + 1..] == [];
  }

  lemma EndsIdlingBeat(s: seq<Message>)
    requires EndsIdling(s)
    ensures EndsIdling(s + [Heartbeat])
  {
    var i :| 0 <= i < |s| && s[i] == Idling && Idling !in s[..i] && Silent(s[i + 1..]);
    SaySilent(s[i + 1..], Heartbeat);
    hide Silent;
    var r := s + [Heartbeat];
    assert r[i] == Idling;
    assert r[..i] == s[..i];
    assert r[i + 1..] == s[i + 1..] + [Heartbeat];
  }

  lemma EndsIdlingHead(s: seq<Message>)
    requires EndsIdling(s)
    ensures s != []
    ensures s[0] == Idling ==> Silent(s[1..])
    ensures s[0] != Idling ==> EndsIdling(s[1..])
  {
    var i :| 0 <= i < |s| && s[i] == Idling && Idling !in s[..i] && Silent(s[i + 1..]);
    if s[0] == Idling {
      assert i == 0;
    } else {
      var r := s[1..];
      assert r[i - 1] == Idling && r[..i - 1] == s[1..i] && r[i - 1 + 1..] == s[i + 1..];
      assert forall m | m in s[1..i] :: m in s[..i];
    }
  }

  // ----- the process keeps the channel in order

  lemma BeatFlows(o: Worker, pr: Process)
    requires Flow(o, pr)
    ensures Flow(o, Say(pr, Heartbeat, pr.stage))
  {
    ResultsSay(pr.outbox, Heartbeat);
    SaySilent(pr.outbox, Heartbeat);
    if EndsIdling(pr.outbox) { EndsIdlingBeat(pr.outbox); }
    hide EndsIdling, Results, Silent;
  }

  /** Whatever a process does next, its channel stays in order, and it never starts a task over another. */
  lemma AdvanceFlows(o: Worker, pr: Process, move: Move)
    requires Flow(o, pr)
    ensures Flow(o, Advance(pr, move)) && !Overlaps(pr, move)
  {
    var s := pr.outbox;
    match move
    case Beat => BeatFlows(o, pr);
    case Take =>
      if pr.inbox != [] { SilentResults(s); }
    case Executed(c) =>
      if pr.stage.Executing? { ResultsSay(s, Processed(pr.stage.t)); SaySilent(s, Processed(pr.stage.t)); }
    case Sent =>
      if pr.stage.SendingResult? { ResultsSay(s, Processed(pr.stage.t)); SaySilent(s, Processed(pr.stage.t)); }
    case Told =>
      ResultsSay(s, CriticalErrorMessage);
      SaySilent(s, CriticalErrorMessage);
    case Finished =>
      if pr.stage.Finishing? {
        ResultsSay(s, Idling);
        SaySilent(s, Idling);
        EndsIdlingSay(s);
      }
    case _ =>
  }

  /** A task sent to a process that is quiet. */
  lemma HandedFlows(o: Worker, pr: Process, t: Task)
    requires Quiet(pr) && o.task == Some(t) && o.reports == 0
    ensures Flow(o, pr.(inbox := pr.inbox + [t]))
  {
  }

  /** What the first message on the channel says about the broker's record: a result is of the task on
      record, and 'idling' means that task has been reported as often as is due. */
  lemma HeadIs(o: Worker, pr: Process)
    requires Flow(o, pr) && pr.outbox != []
    ensures pr.outbox[0].Processed? ==> o.task == Some(pr.outbox[0].of)
    ensures pr.outbox[0].Idling? ==> o.task.Some? && o.reports == Due(pr.succeeded)
  {
    var s := pr.outbox;
    assert s[0] in s;
    if s[0].Idling? && o.task.Some? {
      assert EndsIdling(s);
      EndsIdlingHead(s);
      SilentResults(s[1..]);
    }
  }

  /** `o'` is the record after the first message has been handled. */
  lemma DeliveredFlows(o: Worker, o': Worker, pr: Process)
    requires Flow(o, pr) && pr.outbox != []
    requires if pr.outbox[0].Idling? then o'.task == None || o'.task == o.task else o'.task == o.task
    requires o'.reports == o.reports + if pr.outbox[0].Processed? then 1 else 0
    ensures Flow(o', pr.(outbox := pr.outbox[1..]))
  {
    var s := pr.outbox;
    assert s[0] in s;
    assert forall m | m in s[1..] :: m in s;
    if EndsIdling(s) { EndsIdlingHead(s); }
    if s[0].Idling? {
      HeadIs(o, pr);
      assert Silent(s[1..]);
    }
  }

  // ----- processTask as one run

  /** The messages one task puts on the channel: its result once or twice, the critical error if there
      is one by then, and 'idling' last. */
  function Sequence(t: Task, succeeded: bool, critical: bool): seq<Message> {
    (if succeeded then [Processed(t), Processed(t)] else [Processed(t)])
    + (if critical then [CriticalErrorMessage] else []) + [Idling]
  }

  /** The module of a worker process: `criticalError` outlives the task that set it. */
  class CloudWorker {
    var criticalError: bool
    var channel: seq<Message>

    constructor ()
      ensures !criticalError && channel == []
    {
      criticalError, channel := false, [];
    }

    method Send(m: Message)
      modifies `channel
      ensures channel == old(channel) + [m]
    {
      channel := channel + [m];
    }

    /** `succeeded`: executeTask returned and its result could be sent. */
    method ProcessTask(t: Task, succeeded: bool, criticalResult: bool)
      modifies this
      ensures criticalError == (old(criticalError) || criticalResult || !succeeded)
      ensures channel == old(channel) + Sequence(t, succeeded, criticalError)
    {
      if criticalResult {
        criticalError := true;
      }
      if succeeded {
        Send(Processed(t));
      } else {
        criticalError := true;
      }
      Send(Processed(t));
      if criticalError {
        Send(CriticalErrorMessage);
      }
      Send(Idling);
    }
  }

  /** The steps taken one after the other are that run. */
  lemma StepsAreTheRun(pr: Process, t: Task, succeeded: bool, criticalResult: bool)
    requires pr.stage.Resting? && pr.inbox == [t]
    ensures
      var taken := Advance(pr, Take);
      var executed := Advance(taken, if succeeded then Executed(criticalResult) else Failed);
      var done := Advance(Advance(Advance(executed, Sent), Told), Finished);
      && done.critical == (pr.critical || !succeeded || criticalResult)
      && done.outbox == pr.outbox + Sequence(t, succeeded, done.critical)
      && done.stage.Resting? && done.inbox == []
  {
    assert pr.inbox[1..] == [];
  }
}
