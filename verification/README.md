# A verified model of the Backendless JavaScript CodeRunner

The CodeRunner takes tasks from queues in Redis, hands them to worker processes that run the business
logic of one application each, and publishes the results. Around that it carries object graphs as JSON,
deploys applications as archives, describes services in XML, rebuilds typed arguments and saves trees of
persistent items. This project models the parts of it where a step says little by itself: what matters
holds over a whole walk of a graph or over every run. Run `dafny verify dfyconfig.toml` to check it.

## How it is laid out

**The JSON codec** (`JsValues`, `JsonEncode`, `JsonDecode`, `JsonReading`, `JsonWalk`, `JsonPatch`,
`JsonParse`, `JsonRoundTrip`, `JsonTheorem`). Containers live in a heap and refer to each other by address, so graphs
may be cyclic and shared. A text is a JSON tree, and the host's printer and parser visit it as ECMA-262
says: `JSON.stringify` calls the replacer before the children (section 25.5.2), `JSON.parse` the reviver
after them (section 25.5.1). `JsonEncode.Encoder` and `JsonParse.Reviver` are the two implementations, with
`seen`, `incr`, `dates`, `datesHolders`, `refs` and `chains` as fields that change in place. `Encode` is
what the first prints, a depth-first walk of the heap; `Decode` is what a text denotes, a graph numbered in
preorder; `JsonReading` says the same container by container and member by member. `JsonTheorem` compares two graphs by access paths and knows nothing of numbers, chains or stamps.

**The runner** (`WorkerPool`, `PoolInvariants`, `PoolFrames`, `PoolLaws`, `WorkersBroker`,
`CloudWorkerProcess`, `TaskRequests`, `RunnerSystem`, `RunnerInvariants`, `RunnerTheorems`, `RunnerLaws`,
`ConcurrencyLimit`, `PoolLiveness`, `RedeploymentRun`, `CloudMaster`).
`WorkerPool` says what each operation makes of the three pool arrays, the load counters and the workers'
fields; the class `WorkersBroker` does it by splicing, popping and unshifting, and is proved to get there.
`RunnerSystem` puts the pools together with the master's request chains, the getter clients, the worker
processes and the two directions of each channel. A run is any sequence of events, in any order: timers,
crashes, redeployments, reconnections and late messages of a dead worker are events like the others, and
`Ready` may happen at any time. An exit is known to the cluster at once or, when the channel still drains,
in a later event. The theorems hold after every run. The fields `exited`, `ran`, `waitsSince`, `afterMark`
and `reports` of a worker, `succeeded` of a process, and `log`, `faults`, `peak` and `peaks` of a state
record the history the theorems speak about; nothing the source does looks at them. `exited` also says which
events can still happen: a process that has exited neither moves nor exits again.

**Closures and recursive transformations** (`FilePatterns`, `Publisher`, `TypeMappings`,
`ServiceDescriptor`, `PersistenceItem`, `Arguments`, `ArgumentLaws`, `ArgumentDepth`, `ArgsTransformer`). Walks that grow a
shared list, set or node array while they recurse are classes with those fields; each is proved against a
definition by paths or positions that has nothing of the recursion in it. Rebuilding arguments need not end,
so it is given the number of frames the host's stack has left and throws a RangeError when there are none;
`ArgumentDepth` says when no number is enough.

`Options` and `Sequences` hold what the three share.

Names keep to the source's. A definition by cases next to a method is the value the method is proved to
compute; what that value is worth is said by the lemmas about it. `PoolLaws`, `RunnerLaws`, `ArgumentLaws`
and `JsonReading` write out, without those definitions, what each operation, each event, each level of an
argument and each container of a text comes to, and the methods promise that as well.

## Where the code and what is said about it differ

The model follows the code.

- `busyWorkers` is bounded by `concurrentWorkersLimit` only when the limit is one, or two with the low
  priority queue off. `ConcurrencyLimit.WithinLimitExactly` is the exact condition, with the runs that break
  the bound in every other case.
- A pool may hold a dead worker: 'started' or 'idling' may still be on its way when a timer kills it or its
  process exits. `PoolLiveness.AliveExactly` says when this happens, as an equivalence over runs, and
  `PoolLiveness.DeadInThePool` has the runs.
- A successful task is reported twice, since both sends of the worker carry `processed`; a failed one is
  reported once (`RunnerTheorems.ReportsPerTask`).
- `killAllAppWorkers` leaves a cached worker of the app alive when it stands right behind another one that
  is killed (`PoolFrames.RedeployClears`; `RedeploymentRun.LeftInTheCache` has a run). Unless its process has
  exited such a worker is marked (`RunnerTheorems.RedeployedMarks`), and serves one task at most.
- A date directly inside an array, and a string equal to the timestamp of a date beside it, do not survive
  the round trip. `JsonTheorem.RoundTrip` has this as an equivalence, `JsonTheorem.DateInArrayIsLost` a graph.
- Typed arguments keep their data except where a primitive, a date or an array stands for a registered type
  (`Arguments.DataUnchanged`, an equivalence; `Arguments.NumberIsLost` has an argument).
- Rebuilding a string does not end when properties named `0` lead from its registered type back to a type
  met before: the first character of a character is that character again. `ArgumentDepth.EndsExactly` is the
  exact condition on an argument, `ArgumentDepth.SafeModels` that on a model, and
  `ArgumentDepth.SelfTypedString` an argument.

## Model

| member | source | states |
|---|---|---|
| JsValues.ParseIntStamp | lib/util/json.js:101-101 | Parsing a timestamp gives back the time it was written from, negative times and invalid dates included |
| JsonEncode.ResolveDatesIsRewritten | lib/util/json.js:23-33 | Assigning, creating the list and pushing, key by key, ends with every date replaced by its stamp and one list of the distinct stamps as the last key; doing it again changes nothing |
| JsonEncode.EncodeEnumerated | lib/util/json.js:21-42 | Printing the rewritten object prints its own members and then the date list last, without numbering that list as a container |
| JsonEncode.Encoder.RewriteDates | lib/util/json.js:23-33 | The in-place loop changes that one object only, to what the key-by-key rewriting makes of it |
| JsonEncode.Encoder.Replacer | lib/util/json.js:19-46 | A container met first gets the next number; one met before becomes a reference to the number it was given; the heap stays the original with exactly the numbered containers rewritten |
| JsonEncode.Encoder.Serialize | lib/util/json.js:15-47 | Terminates on every finite heap, cyclic ones too, and prints the depth-first encoding |
| JsonTheorem.OpenedIsReached | lib/util/json.js:15-47 | The containers printed in full are exactly those some access path reaches, each once, and what they point to is among them |
| JsonTheorem.EncodePropsBackward | lib/util/json.js:35-41 | Every reference printed carries a number that was already assigned before it |
| JsonWalk.DatesAtClose | lib/util/json.js:82-118 | For every tree, the one shared `dates` variable belongs to the object being closed exactly when no object opens dates after its own list; only then do its dates revive |
| JsonWalk.ChainsAreStacked | lib/util/json.js:155-182 | After the members of an object the stack is the old one with one chain for each member container on top, in order |
| JsonPatch.ChainIsPreorder | lib/util/json.js:169-172 | A merged chain lists the containers below its head in preorder, references left out |
| JsonPatch.ReferencesExact | lib/util/json.js:164-168 | `refs` holds an entry for a position exactly when a reference stands there |
| JsonPatch.FinalHolds | lib/util/json.js:184-193 | A heap patched at every container holds the graph the text denotes |
| JsonParse.Reviver.ClassTransform | lib/util/json.js:68-80 | A container whose `___class` is mapped, or else whose `___jsonclass` is, gets an instance of that class with the same properties at an address of its own; any other stays |
| JsonParse.Reviver.DatesTransform | lib/util/json.js:91-118 | Revives the dates of an object that has a date list, pushes it and clears `dates`; fails when another object took the list |
| JsonParse.Reviver.MergeChains | lib/util/json.js:155-182 | Popping while the top is a child merges all children, in order, behind the parent, and records the references among them |
| JsonParse.Reviver.Internalize | lib/util/json.js:199-211 | Below the root: succeeds exactly when date lists come in order, and leaves heap, dates, holders, references and chains as the walk of the tree says |
| JsonParse.Reviver.Close | lib/util/json.js:68-118 | The class and date revivers on one container give the object the text describes, and touch no other |
| JsonParse.Reviver.DeleteDates | lib/util/json.js:109-115 | Every holder loses its date list and nothing else |
| JsonParse.Reviver.ReplaceReferences | lib/util/json.js:184-193 | Fails exactly when a reference has no container; otherwise each position holds the container its number names |
| JsonParse.Reviver.FinishRoot | lib/util/json.js:109-193 | At the root exactly one chain is left, the preorder of the containers, and the heap holds the graph |
| JsonParse.Reviver.Parse | lib/util/json.js:58-212 | For every tree the format allows, made by `stringify` or not, forward references included: fails exactly when dates are out of order or a reference is out of range, and otherwise holds the graph the text denotes |
| JsonReading.ReadsContainer | lib/util/json.js:58-212 | Of the graph a text denotes: container number i has the kind of the i-th one written in full, the class its `___class` or else its `___jsonclass` names if that is mapped, and its keys but for the date list |
| JsonReading.ReadsMember | lib/util/json.js:58-212 | ... and under each key: a primitive as it is, a listed stamp as the date it reads as, for an `___objectref` number the container of that number, for a container written in full that one |
| JsonReading.RangeLaw | lib/util/json.js:184-193 | The reference numbers that name a container are the whole ones from 0 up to the count |
| JsonReading.ParseLaw | lib/util/json.js:101-101 | Of any text the digits it begins with are read, behind a sign if it has one, and without digits there is no number |
| JsonReading.DecimalLaw | lib/util/json.js:26-26 | Numbers are written digit by digit, in decimal |
| JsonReading.StampLaw | lib/util/json.js:26-26 | A stamp is such a number, behind a minus sign before 1970, and `NaN` for an invalid date |
| JsonRoundTrip.DatesPrinted | lib/util/json.js:25-32 | An object with dates is printed with one list of their stamps, each once and by index, an array never |
| JsonRoundTrip.DecodeEncode | lib/util/json.js:15-212 | What `stringify` prints denotes the caller's containers in the order they were opened, each with its data recovered |
| JsonRoundTrip.RecoverableIsExact | lib/util/json.js:23-33 | A container's data come back exactly when it is no array with a date in it and no string of it equals the stamp of one of its dates |
| JsonTheorem.RoundTrip | lib/util/json.js:15-212 | The parsed graph is isomorphic to the caller's, with the same keys, values and meeting paths, if and only if every reachable container is recoverable |
| JsonTheorem.PathLeadsToInstance | lib/util/json.js:155-209 | Every access path to a container leads to the one address that stands for it, where an instance of the class its `___class` or else its `___jsonclass` says is, if that is mapped; recoverable or not |
| JsonTheorem.PathsMeet | lib/util/json.js:155-209 | Two access paths lead to one object of the parsed graph if and only if they lead to one container of the caller's, recoverable or not |
| JsonTheorem.DateInArrayIsLost | lib/util/json.js:23-33 | An array that holds a date is not isomorphic to what comes back, whatever heap holds that |
| JsonTheorem.StringifyThenParse | lib/util/json.js:15-212 | The two implementations one after the other: parsing never fails, and the result is isomorphic under that condition |
| PoolInvariants.RelocateKeeps | lib/server-code/runners/cloud-workers-broker.js:362-410 | Moving a worker puts all the books right, even when it had just been popped |
| PoolInvariants.StartedKeeps | lib/server-code/runners/cloud-workers-broker.js:183-228 | A started worker enters the idle pool with the books right |
| PoolInvariants.HandOffKeeps | lib/server-code/runners/cloud-workers-broker.js:230-247 | Handing a task over keeps the books and every worker to one application |
| PoolInvariants.MakeRoomKeeps | lib/server-code/runners/cloud-workers-broker.js:349-355 | Evicting a cached worker keeps the books |
| PoolInvariants.KillAnyKeeps | lib/server-code/runners/cloud-workers-broker.js:433-447 | Killing any worker, in any pool or none, keeps the books |
| PoolInvariants.IdlingKeeps | lib/server-code/runners/cloud-workers-broker.js:522-529 | Releasing a worker to the cache or killing it keeps the books, the order of the cache included |
| PoolInvariants.KillAllKeeps | lib/server-code/runners/cloud-workers-broker.js:416-431 | A redeployment keeps the books although the array shrinks under the walk |
| PoolInvariants.ExitedKeeps | lib/server-code/runners/cloud-workers-broker.js:553-561 | So does the exit of a worker, killed before or not |
| PoolFrames.HandOffFrame | lib/server-code/runners/cloud-workers-broker.js:230-247 | Exactly one waiting worker without a task gets the task, as not cacheable when the cache is off, the busy pool grows by one, at most the task's app is charged, and no other worker's task changes |
| PoolFrames.IdlingFrame | lib/server-code/runners/cloud-workers-broker.js:522-529 | 'idling' cannot raise any load, and only an unmarked worker enters the cache, after a cacheable task |
| PoolFrames.ReuseIsMostRecent | lib/server-code/runners/cloud-workers-broker.js:328-347 | A cacheable task goes to the app's most recently released worker if there is one, any other to the worker that has been in the idle pool longest |
| PoolFrames.EvictionIsLeastRecent | lib/server-code/runners/cloud-workers-broker.js:349-355 | With a full cache the worker released longest ago of all is killed, and only it leaves |
| PoolFrames.KillAllLeaves | lib/server-code/runners/cloud-workers-broker.js:416-431 | What the walk over the shrinking array leaves: all but the app's workers, and the worker behind each killed one |
| PoolFrames.RedeployClears | lib/server-code/runners/cloud-workers-broker.js:416-431 | No worker of another app leaves the cache, and one of the app stays if and only if two of them were neighbours |
| PoolFrames.RedeployMarks | lib/server-code/runners/cloud-workers-broker.js:416-424 | A worker is marked afterwards if and only if it was before or is of the app and still listed by the cluster; so every one of the app is whose process has not exited |
| PoolLaws.MinIdleLaw | lib/server-code/runners/cloud-workers-broker.js:90-100 | As many workers are forked as are wanted idle and there is room for in the cluster, less those on their way, and nothing else changes |
| PoolLaws.RelocateLaw | lib/server-code/runners/cloud-workers-broker.js:362-410 | The worker leaves one array for the head of another, the load of its app is up by one if it became busy and down by one if it was, and spare workers are forked unless the broker stops |
| PoolLaws.HandOffLaw | lib/server-code/runners/cloud-workers-broker.js:230-360 | Which worker gets the task, what goes on its record, to which app it belongs from then on, and when there is none |
| PoolLaws.RoomLaw | lib/server-code/runners/cloud-workers-broker.js:349-355 | The last cached worker is popped and killed if and only if the cache is on and full |
| PoolLaws.IdlingLaw | lib/server-code/runners/cloud-workers-broker.js:522-547 | After a cacheable task an unmarked worker is cached without a task; any other is killed |
| PoolLaws.SweepLaw | lib/server-code/runners/cloud-workers-broker.js:416-431 | A redeployment marks the listed workers of the app, kills those that leave the cache, and changes nothing else |
| PoolLaws.ExitLaw | lib/server-code/runners/cloud-workers-broker.js:553-561 | An exit moves a worker out of its pool if it was not killed, and nothing otherwise |
| WorkersBroker.WorkersBroker.KeepMinIdleWorkersCount | lib/server-code/runners/cloud-workers-broker.js:90-100 | The loop forks that many workers and leaves the pools alone |
| WorkersBroker.WorkersBroker.MoveWorker | lib/server-code/runners/cloud-workers-broker.js:378-390 | Splicing and unshifting give the arrays of the specification |
| WorkersBroker.WorkersBroker.RelocateWorker | lib/server-code/runners/cloud-workers-broker.js:362-410 | ... and the counters and the forks that follow are those of the law |
| WorkersBroker.WorkersBroker.ProcessTaskOn | lib/server-code/runners/cloud-workers-broker.js:230-247 | The worker has the task on record, as it is with a cache and as not cacheable without one |
| WorkersBroker.WorkersBroker.FindWorkerForTask | lib/server-code/runners/cloud-workers-broker.js:328-360 | The search finds the first cached worker of the app, else pops the idle pool, else makes room |
| WorkersBroker.WorkersBroker.GetWorkerAndProcess | lib/server-code/runners/cloud-workers-broker.js:230-360 | Search and hand-over in one turn obey the law of handing over; when nobody is at hand room is made as the law says |
| WorkersBroker.WorkersBroker.KillAll | lib/server-code/runners/cloud-workers-broker.js:416-431 | The walk with its advancing index over the array that shrinks under it |
| WorkersBroker.WorkersBroker.OnWorkerStarted | lib/server-code/runners/cloud-workers-broker.js:217-227 | A booting worker enters the idle pool and the starting count drops by one |
| WorkersBroker.WorkersBroker.OnCriticalError | lib/server-code/runners/cloud-workers-broker.js:518-520 | The worker is marked, and no other field of any worker and nothing else of the broker changes |
| WorkersBroker.WorkersBroker.OnWorkerTaskProcessed | lib/server-code/runners/cloud-workers-broker.js:536-541 | Names the task on record and changes nothing else |
| WorkersBroker.WorkersBroker.OnIdling | lib/server-code/runners/cloud-workers-broker.js:522-547 | Releases or kills, as the task and the mark say |
| WorkersBroker.WorkersBroker.OnWorkerExit | lib/server-code/runners/cloud-workers-broker.js:553-561 | Takes an exited worker out of its pool unless it was killed, and keeps the books |
| WorkersBroker.WorkersBroker.IsAppRateLimitReached | lib/server-code/runners/cloud-workers-broker.js:300-322 | With limits enabled and the books right, an app with a positive limit, its own or the default, is stopped if and only if at least that many busy workers are of it; with another limit, once it has had a busy worker at all |
| RunnerLaws.AdvanceLaw | lib/server-code/runners/cloud-worker.js:96-139 | What each step of a process adds to its channel and leaves in its state; the critical error is sent after the results if there is one by then |
| CloudWorkerProcess.AdvanceFlows | lib/server-code/runners/cloud-worker.js:96-139 | Whatever a worker process does next, its channel agrees with the broker's record, and it never starts a task over another |
| CloudWorkerProcess.HeadIs | lib/server-code/runners/cloud-workers-broker.js:514-534 | The next message, if a result, is of the task on record; if 'idling', that task has been reported exactly twice when it succeeded and once when it failed |
| CloudWorkerProcess.DeliveredFlows | lib/server-code/runners/cloud-workers-broker.js:514-534 | Handling the next message keeps channel and record in agreement |
| CloudWorkerProcess.CloudWorker.ProcessTask | lib/server-code/runners/cloud-worker.js:96-139 | One task puts its results, the critical error if one is set by then, and 'idling' last on the channel; a critical error outlives its task |
| CloudWorkerProcess.StepsAreTheRun | lib/server-code/runners/cloud-worker.js:96-139 | The single steps of the state machine, taken in turn, are that run |
| RunnerInvariants.GetterAtHand | lib/server-code/services/messages-broker.js:155-170 | A getter client is at hand whenever a queue without a pending request asks |
| RunnerInvariants.AdmitKeeps | lib/server-code/runners/cloud-master.js:141-153 | Admitting a task, with the early reset or without it, keeps slots, clients and bounds |
| RunnerInvariants.AttemptKeeps | lib/server-code/runners/cloud-master.js:157-168 | Handing over, or waiting for a new worker, keeps everything: channels, log, slots, clients, bounds and books |
| RunnerInvariants.StepKeeps | lib/server-code/runners/cloud-master.js:80-177 | Every event of the system keeps the invariant |
| RunnerInvariants.RunOk | lib/server-code/runners/cloud-master.js:80-177 | Every reachable state is in order |
| RunnerLaws.EveryEventObeys | lib/server-code/runners/cloud-master.js:80-177 | In every run every event does to the whole state what is written out for it: tasks, failures, pushes, retries, starts, exits, timers, redeployments, moves of processes and messages |
| RunnerLaws.StartObeys | lib/server-code/runners/cloud-workers-broker.js:46-84 | A run begins with the spare workers on their way, nobody in a pool and one getter client for each queue in use |
| RunnerLaws.SlotsTell | lib/server-code/runners/cloud-master.js:80-103 | Which queues are asked: the main one when a worker is free, the low priority one when two are and the load is below the threshold; each new request has one chain |
| RunnerLaws.DisabledCacheIsEmpty | lib/server-code/runners/cloud-workers-broker.js:235-237 | With the cache disabled no run caches a worker, and no task on record or handed out before is cacheable |
| RunnerLaws.CriticalIsTold | lib/server-code/runners/cloud-worker.js:130-134 | In every run a process that has a critical error when its results are out says so next, and one that has none does not |
| RunnerLaws.CriticalMarks | lib/server-code/runners/cloud-workers-broker.js:518-520 | In every run a critical error marks its worker and changes nothing else but that the message is gone |
| RunnerLaws.CriticalErrorKills | lib/server-code/runners/cloud-workers-broker.js:518-529 | Whatever happens in between, when the worker is done with its task after that it is killed and in no pool |
| RunnerTheorems.BooksAreRight | lib/server-code/runners/cloud-workers-broker.js:362-410 | In every run the pools are free of duplicates and disjoint, `currentPlace` names the pool of a worker, and `appsLoad` counts the busy workers of each app |
| RunnerTheorems.CacheIsOrdered | lib/server-code/runners/cloud-workers-broker.js:543-547 | In every run the cached pool is in the order of last release |
| RunnerTheorems.OneAppForLife | lib/server-code/runners/cloud-workers-broker.js:328-347 | In every run a worker gets tasks of one app only; an idle one had none; a cached one had cacheable tasks of its own app only; one that got a task that is not cacheable is in no pool of waiting workers |
| RunnerTheorems.ResultsAreAttributed | lib/server-code/runners/cloud-workers-broker.js:536-541 | In every run each result goes out under the task that produced it, a task of the worker it came from, so the results of one worker are of one app |
| RunnerTheorems.ReleasedAfterReport | lib/server-code/runners/cloud-worker.js:111-134 | In every run, when 'idling' is next on a channel, the worker's task has gone out, and as often as its process says is due |
| RunnerTheorems.ReportsPerTask | lib/server-code/runners/cloud-worker.js:108-124 | In every run, when 'idling' is next on a channel, the worker's task has been reported exactly twice if the last execution in that process, read off the events, succeeded, and exactly once if it failed |
| RunnerTheorems.NoFaults | lib/server-code/runners/cloud-workers-broker.js:522-523 | In no run does 'idling' find a worker without a task, a getter come from an empty array, or a process start a task over another |
| RunnerTheorems.GettersSuffice | lib/server-code/services/messages-broker.js:89-98 | In every run the clients in the array and the calls in progress add up to `gettersCount`, no two calls share one, and one is at hand for each queue without a request |
| RunnerTheorems.PeakIsMostChains | lib/server-code/runners/cloud-master.js:115-177 | The recorded peak is the largest number of request chains alive after any part of the run |
| RunnerTheorems.AdmissionBound | lib/server-code/runners/cloud-master.js:80-103 | In every run busy workers plus request chains not handed over are at most the limit minus one plus the most chains there have been |
| RunnerTheorems.RateBound | lib/server-code/runners/cloud-workers-broker.js:300-322 | In every run an app's load plus its pending hand-overs are at most its rate limit (at least one) minus one plus the most pending hand-overs there were at an admission of the run |
| RunnerTheorems.PeakIsMostPending | lib/server-code/runners/cloud-master.js:141-153 | The recorded peak of an app is the maximum, over the admissions of its tasks in the run, of its tasks then waiting for a worker, the admitted one included |
| RunnerTheorems.MarkedForGood | lib/server-code/runners/cloud-workers-broker.js:416-431 | Between any two states of any run a marked worker stays marked, does not come back to the cache and gets at most one more task |
| RunnerTheorems.RedeployedMarks | lib/server-code/runners/cloud-workers-broker.js:416-424 | After a redeployment in any run every worker of the app whose process has not exited is marked, pooled or not; any other is if and only if it was or the cluster still lists it |
| RedeploymentRun.LeftInTheCache | lib/server-code/runners/cloud-workers-broker.js:416-431 | A run from the start, two tasks served at the same time and the app deployed again, after which a worker of the app is still in the cache |
| ConcurrencyLimit.OverByEarlyReset | lib/server-code/runners/cloud-master.js:149-153 | For every limit of three or more, whatever the other settings, a run that ends with one busy worker too many |
| ConcurrencyLimit.OverByTwoQueues | lib/server-code/runners/cloud-master.js:90-102 | With a limit of two and the low priority queue in use, a run that ends with three busy workers |
| ConcurrencyLimit.OneOver | lib/server-code/runners/cloud-master.js:149-153 | With a limit of two or less no run is more than one over |
| ConcurrencyLimit.WithinLimitExactly | lib/server-code/runners/cloud-master.js:80-177 | No run exceeds the limit if and only if the limit is at most one, or is two and the low priority queue is off |
| PoolInvariants.RateLimitMeans | lib/server-code/runners/cloud-workers-broker.js:300-322 | The same of the pools as values: the counter compared with the limit counts the app's busy workers |
| PoolLiveness.StepAlive | lib/server-code/runners/cloud-workers-broker.js:514-547 | Whatever the event, all pooled workers stay alive, neither killed nor exited, exactly when it is no message of a dead worker that files it |
| PoolLiveness.AliveExactly | lib/server-code/runners/cloud-workers-broker.js:433-447 | Throughout a run every pooled worker is alive if and only if no such message arrives in it |
| PoolLiveness.DeadInThePool | lib/server-code/runners/cloud-workers-broker.js:183-228 | For every configuration with a positive limit, and for each way to die, killed by a timer or by an exit of its own, a run in which a worker that dies while starting is filed |
| CloudMaster.MessagesBroker.constructor | lib/server-code/services/messages-broker.js:83-98 | The loop creates the clients 0 up to the count |
| CloudMaster.MessagesBroker.PopGetter | lib/server-code/services/messages-broker.js:155-156 | Takes the last client, or finds none |
| CloudMaster.CloudMaster.OnReadyForNextTasks | lib/server-code/runners/cloud-master.js:80-103 | A queue is being asked afterwards if and only if it was or the master runs and its condition held before: a worker free, or two and the load below the threshold; each queue not asked before has one chain more |
| CloudMaster.CloudMaster.OnTaskReceived | lib/server-code/runners/cloud-master.js:124-168 | The continuation of getTask: an outdated task frees the slot and asks again, one of a limited app is pushed back, any other is handed over, the slot freed at once with room for three |
| CloudMaster.CloudMaster.OnGetTaskFailed | lib/server-code/runners/cloud-master.js:171-175 | The catch branch |
| CloudMaster.CloudMaster.OnPushEnded | lib/server-code/runners/cloud-master.js:136-140 | After the task went back to its queue |
| CloudMaster.CloudMaster.OnNewWorkerStarted | lib/server-code/runners/cloud-workers-broker.js:357-359 | When the awaited worker has started, the search begins anew |
| CloudMaster.CloudMaster.FindWorkerAndProcess | lib/server-code/runners/cloud-master.js:151-168 | Hands over and frees the slot unless it was reset early, or waits for a new worker |
| FilePatterns.ProcessPatterns | lib/util/file.js:17-42 | Each file once, and a file is in the result if and only if some inclusion matches it and no later exclusion does |
| Publisher.DependencyWalk.AddDependency | lib/server-code/publisher.js:123-137 | Terminates on cyclic dependencies, lists reachable packages only and none twice, and closes what it adds under dependencies |
| Publisher.DependencyWalk.DependencyPatterns | lib/server-code/publisher.js:102-121 | One pattern for each package reachable through packages that are not excluded, and no other |
| Publisher.ArchivedIs | lib/server-code/publisher.js:37-42 | For the list of base patterns, dependencies and user exclusions the ordered selection is a plain condition on the file |
| Publisher.ArchiveFiles | lib/server-code/publisher.js:73-90 | The files archived are exactly those, with a root package.json or without one |
| Publisher.PackageFileArchived | lib/server-code/publisher.js:14-18 | A file of a package is archived if and only if the package is reachable and no user pattern excludes the file |
| Publisher.ReachableRules | lib/server-code/publisher.js:14-16 | Reachable are the packages the root or a reachable package names, never the runner itself; their patterns are directories under node_modules |
| TypeMappings.GetTypeMapping | lib/server-code/model/service-descriptor.js:29-58 | The type named is the outer one and the element type the one a level below, both with promises unwrapped |
| TypeMappings.OuterLaw | lib/server-code/model/service-descriptor.js:25-30 | A promise is looked through, whatever it is nested in, and what is left of nothing is void |
| TypeMappings.NamesLaw | lib/server-code/model/service-descriptor.js:5-58 | The Java, native and full names: those of the built-in types in any case, of an array with the name of its elements, of a defined type in the namespace |
| TypeMappings.UpperLaw | lib/server-code/model/service-descriptor.js:48-48 | The case is ignored letter by letter |
| TypeMappings.NeededIsDefined | lib/server-code/model/service-descriptor.js:133-138 | Only defined types with a name that is not empty are needed |
| TypeMappings.PublicNeeds | lib/server-code/model/service-descriptor.js:131-200 | What a method that is not private takes or returns is needed |
| TypeMappings.PrivateNeedsNothing | lib/server-code/model/service-descriptor.js:188-190 | Private methods alone need nothing |
| ServiceDescriptor.Builder.RegisterType | lib/server-code/model/service-descriptor.js:133-138 | Terminates on cyclic definitions; a defined type is registered afterwards, and what was emitted on the way mentions registered types only |
| ServiceDescriptor.Builder.NodeFields | lib/server-code/model/service-descriptor.js:159-177 | The fields of the definition in order, with all they mention registered |
| ServiceDescriptor.Builder.AddService | lib/server-code/model/service-descriptor.js:179-220 | Registers what the signatures of its methods that are not private mention |
| ServiceDescriptor.AllEmitted | lib/server-code/model/service-descriptor.js:131-220 | With nothing left open, a type is emitted if and only if a public signature leads to it |
| ServiceDescriptor.Builder.Build | lib/server-code/model/service-descriptor.js:127-220 | The types emitted are exactly the defined types public signatures lead to, each once, with their fields, and in order; the services are listed as given |
| ServiceDescriptor.EarlyOnlyOnCycle | lib/server-code/model/service-descriptor.js:159-177 | A type comes before one it mentions only when the two lie on a cycle |
| PersistenceItem.ChildPathHas | lib/server-code/api/persistence-item.js:121-127 | An entry is in the child's list exactly when it is in the owner's behind the key and a dot |
| PersistenceItem.FreshIsPrefixes | lib/server-code/api/persistence-item.js:121-127 | Pruning level by level lets a position through exactly when no non-empty prefix of its dotted path is in the list |
| PersistenceItem.IsArrayOfPersistable | lib/server-code/api/persistence-item.js:11-23 | The loop decides whether an array is not empty and holds items only |
| PersistenceItem.SomeRun | lib/server-code/api/persistence-item.js:129-173 | Every plan can be carried out |
| PersistenceItem.ItemHas | lib/server-code/api/persistence-item.js:118-174 | The plan for an item holds exactly the actions promised for the positions below it |
| PersistenceItem.SavedExactly | lib/server-code/api/persistence-item.js:118-174 | In every interleaving an item is saved if and only if no non-empty prefix of its path is stale and it is no bare reference, one with an object id and nothing else to store; a relation is cleared if and only if its path is deletable, it is null or empty and its owner was visited; every relation of a visited owner is set |
| PersistenceItem.SavedInOrder | lib/server-code/api/persistence-item.js:129-173 | In every interleaving an item is saved before anything happens below it, and a relation is set after everything below it |
| Arguments.RebuiltIsTyped | lib/server-code/model/service.js:93-114 | Wherever a definition names a registered type, through nested properties, arrays and strings taken apart, a value that is not falsy has become an instance of its class |
| ArgumentLaws.RebuiltLaw | lib/server-code/model/service.js:93-114 | One level, written out: falsy and undeclared values are left alone; an instance has the value's properties in their order, each declared one rebuilt, undefined included; for `Array` with an element type an array is mapped, and anything else with a length throws |
| Arguments.DataUnchanged | lib/server-code/model/service.js:93-114 | Class tags and undefined fields aside, the data stay as they were if and only if no truthy primitive, date or array stands where a registered type is declared |
| Arguments.NumberIsLost | lib/server-code/model/service.js:97-98 | A number where a registered type is declared is one such argument: an empty instance is left of it |
| ArgumentDepth.FailureIs | lib/server-code/model/service.js:93-114 | With room for the height of the argument and one round through the classes, what is thrown, or that nothing is, can be read off the argument and the definitions |
| ArgumentDepth.RoundIs | lib/server-code/model/service.js:98-105 | Following properties `0` for as many steps as there are classes decides whether they lead on for ever |
| ArgumentDepth.EndsExactly | lib/server-code/model/service.js:93-114 | Rebuilding ends on some stack if and only if it meets, before a TypeError, no character at a registered type whose properties `0` lead on for ever; more room than enough then changes nothing |
| ArgumentDepth.SafeModels | lib/server-code/model/service.js:93-114 | Of a model: some argument overflows every stack if and only if the properties `0` of some registered type lead on for ever |
| ArgumentDepth.SelfTypedString | lib/server-code/model/service.js:98-105 | The string `a` at a type whose property `0` is of that type overflows every stack |
| ArgsTransformer.Transformer.Transform | lib/server-code/model/service.js:93-114 | For every model and every finite argument: never writes to an object it was given, throws exactly what the rebuilt tree throws with the same room, and otherwise returns it |
| ArgsTransformer.Transformer.Fill | lib/server-code/model/service.js:98-105 | The copy filled property by property is the rebuilt object, whatever keys the value had, or the error of the first property to fail |
| ArgsTransformer.Transformer.MapItems | lib/server-code/model/service.js:106-110 | The array of the transformed items, in order, or the error of the first to fail |
| ArgsTransformer.Transformer.TransformArgs | lib/server-code/model/service.js:116-121 | Argument i is rebuilt under the definition of parameter i, and handed on as it is if there is none; otherwise the error of the first that fails |

## Left out

The codec:

- The JSON grammar itself: printing and reading a tree are the host's, and a text is the tree.
- User data with a key `''`, `___objectref` or `___dates___`; `toJSON`, getters, inherited enumerable
  properties, functions, undefined and NaN; a Date or an object with `toJSON` at the root.
- The order in which the host enumerates keys (section 10.1.11.1 of ECMA-262): a container's keys come in a
  given order.
- Class mappings: a constructor that sets fields of its own, a mapped function without a prototype, keys of
  `classMappings` found on the prototype chain or coerced from other types; a member named `hasOwnProperty`.
- Texts with `___objectref` ids that are strings or other values that are no numbers, and with `___dates___`
  lists of anything but strings.
- Timestamps with surrounding space or in hexadecimal, which `parseInt` reads too; how numbers are printed.
- `text.includes` is two flags, required to be set when the field occurs as a key; a field name inside a
  string only sets a flag without need.

The runner:

- Redis, HTTP, `cluster.fork`, signals and logging are events; status and statistics are not modelled.
- Timers are events that may kill any worker at any time. The conditions under which they fire are not used.
- A getter client goes back in the same step in which its task arrives; decompression and parsing of the
  task happen in between in the source.
- Search and hand-over are one step. Two continuations resumed in the same turn of the event loop that both
  find the same cached worker are not modelled, nor is a hand-over that throws after an early reset.
- An application whose id is the string `undefined`, which shares a load counter with tasks that are not
  cacheable; application ids that are names of members of `Object.prototype`.
- What a task carries besides its id, its app and whether it is cacheable; `pushTaskBack` under compression.
- `stop()` beyond the two flags that end the asking for tasks and the forking of spare workers.

Deployment and description:

- What `glob` matches: the matcher is any function from patterns to files, and a file belongs to a package
  when the matcher says so. Directories as archive entries, zip writing and `model.json`.
- A package.json that cannot be read counts as one that is missing, as the catch branch has it; for the root
  package.json the source throws instead.
- The method and argument elements inside a service element, the attributes of a method, the HTTP route
  errors and the XML text. Nested element types below the first level are mapped but, as in the source, not
  registered.
- Upper-casing of type names outside ASCII; definition names found on the prototype chain.

Saving and arguments:

- Failing promises: a run is one in which every request succeeds. What the data store answers is copied into
  the item without touching its relations. `saved` and `this` are one object, updated in place; the model
  has the tree as a value and keeps the requests only.
- Items shared between two places or cyclic: saving is on finite trees, as is rebuilding of arguments.
- Properties named like a member of the class; constructors that set fields; what a frame of the stack costs:
  every call of `transform` takes one.
- ArgsTransformer.Transformer.Fill: the copy enters the heap when it is complete; in the source it exists from
  the start, but nothing refers to it before.
- `buildConfig` and `invokeMethod`, which would only add one-branch claims.
