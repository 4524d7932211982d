# Verification of the FPGA function scheduler

This project models the control plane of the FPGA function scheduler and proves properties of it in Dafny 4.11.
`dafny verify dfyconfig.toml` checks everything.

There are three parts.

**The scheduler.** A load balancer, an autoscaler and a pod manager share one set of task workers.

* `ledger.dfy` is the machine of their critical sections: a run is any list of steps that were possible when they
  were taken, so a law about runs holds for every interleaving of the goroutines and for every order in which Go
  visits a map. Weights, workload, request counts, batch sizes and issued capacity are conserved in every run;
  `moving_average.dfy` adds the latency average and `fairness.dfy` the shares of workers when calls come one at a time.
* `autoscaler.dfy` states one tick as a relation between what it finds and what it leaves, and proves what a tick
  adds and what it may take away; `convergence.dfy` proves where ticks lead under a constant load, and
  `steady_runs.dfy` that such runs of every length exist. `whole_calls.dfy` ties both back to the machine: a dispatch
  and a tick, when nobody interferes, are runs of its steps.
* `reconcile.dfy` is the machine of pods and ports: AddWorker, the informer's handlers, the work queue and syncPod.
  Ports are conserved in every run; `quiescence.dfy` proves what the queue guarantees while it works and once it is idle.
* `worker_set.dfy`, `balancer.dfy`, `scalar.dfy`, `manager.dfy`, `requests.dfy` and `pods.dfy` are the code itself:
  classes and loops that update their fields in place, each proved against the functions and relations of the machines.

**The record format.** `record_log.dfy` has the recorder's printer and the parser's regular expressions, as a
backtracking matcher, and proves where these match and that what is printed parses back. `log_table.dfy` has the loop that builds the table
and proves it against what columns and rows mean.

**The device plugin.** `fake_devices.dfy` and `device_plugin.dfy` have the fractions of each FPGA and the way back from
a fraction to its board; `device_update.dfy` has the reconciliation of servers with a fresh scan; `allocation.dfy` and
`allocation_runs.dfy` have the choice of the pod to serve, and when a pod can be served twice.

`text.dfy`, `maps.dfy`, `sums.dfy`, `config.dfy` and `wrappers.dfy` hold what the others share.

What the proofs found out about the code:

* A batch can only saturate a worker whose MaxWeight is 1 (`Ledger.SaturationNeedsWeightOne`); with the configured 3
  the saturated branch of the tick is never taken (`Ledger.NeverSaturated`, `Autoscaler.LawfulCapacity`).
* Two dispatchers that both find no weight left can make one of them fail with workers online (`Ledger.DispatchRace`).
  That takes another's refill, or a worker coming online, between its scan and its flush (`Ledger.FlushFailure`);
  taken alone a call fails exactly when no worker is online (`Balancer.LoadBalancer.DistributeWorker`).
* A name stays in the issued capacity until a scan sees its worker online (`Ledger.IssuedIff`), so a worker removed
  before that stays there forever (`Ledger.StaleIssuedForever`); any run can go on to that (`Ledger.StaleIssued`).
* The delete handler enqueues before it notes the zombie. The worker and its port are lost exactly when the key has
  been synced away before the zombie is noted (`Quiescence.LostIff`, `Quiescence.LostRemoval`,
  `Quiescence.StuckForever`), so an idle set is clean exactly when no deletion is half done and none was noted that
  late (`Quiescence.CleanIff`).
* The autoscaler comes to fit a constant load exactly when there are enough ports for it (`Convergence.ConvergesIff`).
* The device ID parser is right exactly while the block count has one digit (`FakeDevices.SafeBlockCount`).
* The retry after a refused update compares the error with the bare text of one constant. The client library puts
  words in front of that text, so with its errors the retry is never taken (`Allocation.LibraryNeverBare`) and no pod
  is served twice by overlapping calls (`AllocationRuns.OnceWithLibrary`). Overlapping calls can serve a pod twice
  exactly if a refusal carries the bare text (`AllocationRuns.WordsDecide`): the retry does not look at the flag it has
  fetched, and that is the only way (`AllocationRuns.ServedTwiceIff`). With calls one at a time a pod is served again
  only after somebody has set its flag back (`AllocationRuns.AtMostOnce`, `AllocationRuns.ResetServesAgain`).
* A batch whose worker is removed while it is under way can never report (`Ledger.OrphanedIff`), and every run can go
  on to that (`Ledger.OrphanExists`).
* A tick is safe from taking the last online worker, whatever falls between its scan and its shrink, as long as that
  leaves two of the workers the scan saw (`WholeCalls.ShrinkApart`); that bound is sharp (`WholeCalls.LastOneTaken`).
* A batch size is read by the client exactly when the request has three fields (`Requests.ClientReadsBatch`).
* An average latency approached from below stops up to three nanoseconds short (`MovingAverage.FixedPoints`).

## Model

| member | source | states |
|---|---|---|
| Ledger.WeightLedger | task_scheduler/pkg/balancer/balancer.go:169-242 | in every interleaving, picks + Weight = MaxWeight * (1 + refills) and 0 <= Weight <= MaxWeight for every worker, with picks and refills counted on the run alone |
| Ledger.WorkloadLedger | task_scheduler/pkg/balancer/balancer.go:169-216 | in every run Workload is the number of batches dispatched to the worker and not reported back (failed sends stay), hence never negative |
| Ledger.NoWorkWhileOffline | task_scheduler/pkg/balancer/balancer.go:175-190 | no step raises the workload of a worker unless it is online with weight left just before the step |
| Ledger.RequestLedger | task_scheduler/pkg/scalar/scalar.go:76-78 | what all ticks drained plus the current Request is the sum of all dispatched batch sizes |
| Ledger.BatchLedger | task_scheduler/pkg/balancer/balancer.go:179-183 | in every run WorkCount <= AccBatch <= Batch * WorkCount, MaxBatch = Batch * MaxWeight, and the capacity is that of one worker |
| Ledger.CountLedger | task_scheduler/pkg/scalar/scalar.go:54-69 | in every run WorkCount and AccBatch of a worker are the number and the sum of the batches picked for it since the last scan that saw it online |
| Ledger.OnlineIff | task_scheduler/pkg/worker/worker.go:57-91 | in every run a worker is online if and only if it was turned online and neither turned offline nor removed since |
| Ledger.CapacityOfOneWorker | task_scheduler/pkg/worker/worker.go:47-52 | the capacity 4500/7 is MaxBatch over the batch latency in seconds |
| Ledger.NineTenths | task_scheduler/pkg/scalar/scalar.go:61-63 | the saturation test asks for nine tenths of the maximum batch |
| Ledger.SaturationNeedsWeightOne | task_scheduler/pkg/scalar/scalar.go:58-63 | some admissible batches meet the 0.90 test if and only if MaxWeight is 1 |
| Ledger.NeverSaturated | task_scheduler/pkg/scalar/scalar.go:58-63 | no worker meets the saturation test in any run |
| Ledger.IssuedLedger | task_scheduler/pkg/scalar/scalar.go:115-118 | in every run noting an issued worker never overwrites an entry, and each entry is worth one worker |
| Ledger.ScanSeparates | task_scheduler/pkg/scalar/scalar.go:54-79 | in every run an issued entry is an online worker only if that came online or was noted after the last scan; so right after a scan no capacity is counted twice |
| Ledger.IssuedIff | task_scheduler/pkg/scalar/scalar.go:70-73 | in every run a name is in the issued capacity if and only if it was noted and no scan since then saw its worker online |
| Ledger.StaleIssuedForever | task_scheduler/pkg/scalar/scalar.go:70-73 | once a worker is removed its entry is decided: in every continuation it is there if and only if it was there at the removal or the worker, returned by AddWorker before, is noted after it |
| Ledger.StaleIssued | task_scheduler/pkg/scalar/scalar.go:70-73 | every run can be continued by one that leaves a stale entry: register, note, remove before coming online |
| Ledger.FlushFailure | task_scheduler/pkg/balancer/balancer.go:175-203 | for a dispatch whose scan found nothing and whose flush, after any steps of others, finds nothing: every worker online by then was refilled by another flush or came online in between; if none was, it fails if and only if nothing is online |
| Ledger.FlushFailsIff | task_scheduler/pkg/balancer/balancer.go:218-242 | in every run a flush finds nothing if and only if every online worker has been picked fewer than MaxWeight * (1 + refills) times, counted on the run alone |
| Ledger.OrphanedIff | task_scheduler/pkg/balancer/balancer.go:208-216 | in every run a worker has batches that can never report, because it is gone, if and only if it was removed while one was under way |
| Ledger.OrphanExists | task_scheduler/pkg/balancer/balancer.go:208-216 | every run with a worker to pick can go on to such a batch |
| Ledger.DispatchRace | task_scheduler/pkg/balancer/balancer.go:199-203 | a run in which a dispatcher saw no weight and its flush then fails with a worker online |
| Fairness.FairShare | task_scheduler/pkg/balancer/balancer.go:169-242 | for calls one at a time over a fixed online set from full weights, pick counts of workers with equal MaxWeight never differ by more than MaxWeight, for every map order |
| Fairness.ExactShare | task_scheduler/pkg/balancer/balancer.go:169-242 | whenever all online weights are used up, workers with equal MaxWeight have been picked equally often |
| MovingAverage.AverageBounded | task_scheduler/pkg/balancer/balancer.go:214 | in every run the average lies between any bounds on the initial value and on every reported latency |
| MovingAverage.LatestReported | task_scheduler/pkg/balancer/balancer.go:208-216 | the latest latency of a worker is that of its last report, or the batch latency it began with |
| MovingAverage.FixedPoints | task_scheduler/pkg/balancer/balancer.go:214 | a constant latency L leaves the average alone if and only if it lies in L-3..L |
| MovingAverage.Settles | task_scheduler/pkg/balancer/balancer.go:214 | within |avg - L| reports the average rests: at L from above, at L-3 from below |
| MovingAverage.ConstantLatencySettles | task_scheduler/pkg/balancer/balancer.go:208-216 | the same inside any run, whatever else happens between the reports |
| Autoscaler.LawfulCapacity | task_scheduler/pkg/scalar/scalar.go:82-96 | the measured capacity is the sum over the online workers, that is their number times the capacity of one |
| Autoscaler.SaturatedThroughput | task_scheduler/pkg/scalar/scalar.go:82-96 | a saturated fleet serves the sum of its mean batches in its mean latency, which is counted in nanoseconds |
| Autoscaler.BatchOfWorker | task_scheduler/pkg/scalar/scalar.go:58-66 | a worker counts with its mean batch, and with its maximum if it had none |
| Autoscaler.EstimateInNumbers | task_scheduler/pkg/scalar/scalar.go:98-101 | the intensity is the number of requests drained, the trend is six times what it rose by since the last tick, and the estimate is their sum |
| Autoscaler.Extrapolates | task_scheduler/pkg/scalar/scalar.go:98-101 | the estimate extends the line through the last two intensities by the time a worker takes to come online |
| Autoscaler.RisingLoad | task_scheduler/pkg/scalar/scalar.go:98-137 | a rising load is expected to rise on and never shrinks the fleet |
| Autoscaler.CountedOnce | task_scheduler/pkg/scalar/scalar.go:103-117 | after a tick the issued capacity counts every online or still awaited worker exactly once |
| Autoscaler.AddsExactly | task_scheduler/pkg/scalar/scalar.go:111-128 | when a tick does not fail, k more workers cover the estimate if and only if k is at least the number it added: sufficient and minimal |
| Autoscaler.ShrinkSafety | task_scheduler/pkg/scalar/scalar.go:129-137 | no tick both adds and shrinks; one that shrinks had two workers online, leaves one, and the capacity still online exceeds the intensity, which is at least the estimate |
| Autoscaler.ShrinksIff | task_scheduler/pkg/scalar/scalar.go:129-137 | a tick shrinks if and only if the load does not rise and one worker fewer would still exceed it, whatever has been issued |
| Convergence.SteadyTick | task_scheduler/pkg/scalar/scalar.go:98-137 | under a constant load a tick adds iff there are too few workers, stops at the first number that is enough, and shrinks iff one fewer would still exceed the load |
| Convergence.SteadyStep | task_scheduler/pkg/scalar/scalar.go:98-137 | the next tick finds a steady fleet again; a fleet that fits is left alone, any other is strictly closer by the measure Rank |
| Convergence.NeverStuck | task_scheduler/pkg/scalar/scalar.go:111-128 | a tick of a steady fleet does not fail if the free ports and the workers together are enough for the load |
| Convergence.Converges | task_scheduler/pkg/scalar/scalar.go:98-137 | with enough ports a fully online fleet reaches some n with (n-1)c <= I <= nc within as many ticks as it has workers; from then on no tick fails, adds or shrinks, and the workers stay the same |
| Convergence.ConvergesIff | task_scheduler/pkg/scalar/scalar.go:98-137 | it comes to fit the load if and only if the ports it started with, free or held, are enough for the load |
| Convergence.ScaleUpIsFinal | task_scheduler/pkg/scalar/scalar.go:98-137 | with enough ports, after a scale-up the next tick neither scales nor shrinks, whichever of the new workers are online by then |
| SteadyRuns.TickExists | task_scheduler/pkg/scalar/scalar.go:98-137 | from every steady state with enough ports some tick leads on, adding no more workers than there are ports |
| SteadyRuns.RunExists | task_scheduler/pkg/scalar/scalar.go:37-42 | from every steady state with enough ports there are runs of every length under the constant load |
| SteadyRuns.FitIsReached | task_scheduler/pkg/scalar/scalar.go:98-137 | for every load its ports are enough for, a run from a single online worker fits after one tick |
| WholeCalls.DispatchIsRun | task_scheduler/pkg/balancer/balancer.go:169-206 | a dispatch taken alone is a pick, or a flush and a pick, or a flush that finds nothing: a run of the machine with the same outcome |
| WholeCalls.TickIsRun | task_scheduler/pkg/scalar/scalar.go:44-148 | a tick is a scan, a registration and a note for each worker it adds, and at most one worker going offline: a run of the machine with the same outcome |
| WholeCalls.TickKeepsLaws | task_scheduler/pkg/scalar/scalar.go:44-148 | after a tick in any run the batch bounds, the worth of each issued worker and the workloads are again what every run keeps |
| WholeCalls.ShrinkApart | task_scheduler/pkg/scalar/scalar.go:129-137 | with any steps of others between the scan and the shrink of a tick: each worker they take offline or remove costs one capacity, and a worker stays online if they leave two of those the scan saw |
| WholeCalls.LastOneTaken | task_scheduler/pkg/scalar/scalar.go:156-166 | the bound is sharp: in every run with two workers online, one loss before the shrink lets it take the last one |
| Reconcile.WorkerNameInjective | task_scheduler/pkg/worker/set.go:78-79 | different counters give different worker names |
| Reconcile.WorkerNameMeaning | task_scheduler/pkg/worker/set.go:77-80 | a worker's name is the prefix and the numeral of the counter, which parses back |
| Reconcile.FreshName | task_scheduler/pkg/worker/set.go:77-80 | the next name is none of those given out so far |
| Reconcile.PortConservation | task_scheduler/pkg/worker/set.go:63-146 | in every run, with the delete handler in one step or two, free ports, ports of calls in progress, of pods, of deleted pods not yet synced and leaked ports are disjoint and together the initial pool, and no port is free twice |
| Reconcile.LivePortsDistinct | task_scheduler/pkg/worker/set.go:63-146 | no two live pods share a port, and no live pod's port is free |
| Quiescence.Reconciling | task_scheduler/pkg/worker/manager.go:169-352 | in every run a worker whose recorded phase lags the store has its key queued, awaiting retry or being synced with the right phase; workers exist exactly for pods that exist or whose removal is due |
| Quiescence.IdleWorkers | task_scheduler/pkg/worker/manager.go:196-236 | once the queue is idle, recorded phases equal the store's, also with the delete handler in two steps |
| Quiescence.ZombiesQueued | task_scheduler/pkg/worker/manager.go:325-352 | with the delete handler as one step, every deleted pod still registered has its key queued or its removal at hand |
| Quiescence.IdleMeansSynced | task_scheduler/pkg/worker/manager.go:169-352 | with the delete handler as one step, an idle queue means the workers are exactly the live pods, with the store's phases, and every port is free, with a live pod, or leaked |
| Quiescence.Drains | task_scheduler/pkg/worker/manager.go:169-191 | in every run, once no AddWorker is between its steps, each step of the queue or its rate limiter strictly lowers 4 * retries + 3 * queued + (1 if busy) |
| Quiescence.QueueEmpties | task_scheduler/pkg/worker/manager.go:163-191 | from every such state at most that many steps of the queue empty it |
| Quiescence.SyncedAtLast | task_scheduler/pkg/worker/manager.go:163-236 | with the delete handler as one step these steps bring the workers in line: exactly the live pods, with the store's phases, and nothing happens to live pods |
| Quiescence.LostRemoval | task_scheduler/pkg/worker/manager.go:348-351 | for every pool and pod there is a run of the two-step handler that ends idle with a deleted pod's worker still registered |
| Quiescence.StuckForever | task_scheduler/pkg/worker/manager.go:205-214 | a zombie without a scheduled key keeps its worker and its port in every continuation |
| Quiescence.LostIff | task_scheduler/pkg/worker/manager.go:348-351 | once idle, a deleted pod's worker is left behind if and only if the handler's second action came when its key was no longer queued, awaiting retry or being synced |
| Quiescence.CleanIff | task_scheduler/pkg/worker/manager.go:348-351 | an idle set has only the workers of live pods if and only if no deletion is between its two actions and no second action came that late |
| WorkerSets.TaskWorker.constructor | task_scheduler/pkg/worker/worker.go:36-55 | a new worker has full weight, no work, the initial profile and the port, fraction and address of its pod; it is offline whatever its pod says, with a probe under way if the pod runs on a known node |
| WorkerSets.KnownNodes | task_scheduler/pkg/worker/worker.go:61-70 | exactly two node names are known, each with its own address; anywhere else a worker keeps the address it has |
| WorkerSets.TaskWorker.UpdatePod | task_scheduler/pkg/worker/worker.go:57-91 | records pod, port and fraction; a worker stays online only if its pod runs on a known node, and is never turned online here but by a probe started here |
| WorkerSets.TaskWorker.ProbeSucceeds | task_scheduler/pkg/worker/worker.go:73-81 | a probe that finds the port open turns the worker online, whatever its pod has become since |
| WorkerSets.WorkerSet.constructor | task_scheduler/pkg/worker/set.go:29-46 | an empty set whose pool is exactly the open ports of the range, each once |
| WorkerSets.WorkerSet.FlushPortPool | task_scheduler/pkg/worker/set.go:48-61 | the pool holds exactly the ports of the range occupied on neither node, without repetition |
| WorkerSets.WorkerSet.BuildPod | task_scheduler/pkg/worker/set.go:76-83 | the pod is the sample with the name, the port and the fraction set and nothing else; if the sample exposes the listen port, port and fraction are read back |
| WorkerSets.WorkerSet.AddWorker | task_scheduler/pkg/worker/set.go:63-95 | fails without effect on an empty pool; otherwise takes the last port and a fresh name, and registers a new worker for the sample pod with that name, port and fraction, unless the pod cannot be created, which costs the port |
| WorkerSets.WorkerSet.DeleteWorker | task_scheduler/pkg/worker/set.go:97-106 | a registered worker is offline and nothing else of any worker changes; for any other name nothing changes and the lock is still held |
| WorkerSets.WorkerSet.UpdateWorkerPod | task_scheduler/pkg/worker/set.go:124-134 | succeeds exactly for registered names, and then changes only that worker's pod, port, fraction, address, online flag and probes, as updatePod does |
| WorkerSets.WorkerSet.RemoveWorkerPod | task_scheduler/pkg/worker/set.go:136-146 | the worker of the pod's name is gone and the port the pod listens on is back at the end of the pool, unless it has none; nothing else changes |
| Manager.WorkerSetManager.AddPodHandle | task_scheduler/pkg/worker/manager.go:238-253 | the pod's key is queued |
| Manager.WorkerSetManager.UpdatePodHandle | task_scheduler/pkg/worker/manager.go:255-289 | the key is queued if and only if the phase changed |
| Manager.WorkerSetManager.DeletePodHandle | task_scheduler/pkg/worker/manager.go:325-352 | the key is queued and the pod is a zombie |
| Manager.WorkerSetManager.SyncPod | task_scheduler/pkg/worker/manager.go:196-236 | a pod that is found is taken over by the same worker: address of its node, port, fraction, and a probe if the worker is offline while the pod runs on a known node; success says that there is one. A pod that is not found takes its worker and port away if its removal was noted. Any other lister error is a success without effect. No other worker changes, and none is turned online here |
| Manager.WorkerSetManager.ProcessNextWorkItem | task_scheduler/pkg/worker/manager.go:169-191 | one key is taken and synced with the lister's answer, with the same effect on workers, records and ports; it goes to the rate limiter exactly when that fails |
| Manager.SyncIsSynced | task_scheduler/pkg/worker/manager.go:196-236 | with a lister that works, what a call does to pods, zombies and ports is what the sync of the machine does, with the same success |
| Manager.AddAtOnce | task_scheduler/pkg/worker/set.go:63-95 | the machine's three steps of AddWorker, with nobody in between, take the last port and register the next name, as the method does |
| Manager.SyncAtOnce | task_scheduler/pkg/worker/manager.go:196-236 | the machine's two sync steps, with nobody in between, are one such call |
| Balancer.LoadBalancer.DistributeWorker | task_scheduler/pkg/balancer/balancer.go:169-206 | for every map order: picks an online worker with weight, after at most one refill, hands on its name, address and port, and moves exactly that worker's counters and the request count; or fails and changes nothing, if and only if no worker is online |
| Balancer.LoadBalancer.FlushWorkerSetWeight | task_scheduler/pkg/balancer/balancer.go:218-242 | exactly the online workers without weight get theirs back; the count is their number |
| Balancer.LoadBalancer.FinishWorker | task_scheduler/pkg/balancer/balancer.go:208-216 | moves throughput and, of that worker alone, workload, latency and average |
| Balancer.AfterFlush | task_scheduler/pkg/balancer/balancer.go:198-205 | after a flush without pickable workers either some worker can be picked or nothing changed, so the call recurses at most once |
| Scalar.WorkerScalar.Scan | task_scheduler/pkg/scalar/scalar.go:45-79 | for every map order: totals over the online workers, their counters reset, their issued entries dropped, the request count drained |
| Scalar.WorkerScalar.Scale | task_scheduler/pkg/scalar/scalar.go:150-154 | asks for a worker of one fraction with the last port; it is had exactly if there is a port and the pod is accepted |
| Scalar.WorkerScalar.Grow | task_scheduler/pkg/scalar/scalar.go:111-128 | the scale loop ends after at most as many workers as there are free ports; it stops at the first sum that covers the estimate, fails only when the ports are used up or a pod is refused, and keeps every worker created recorded |
| Scalar.WorkerScalar.Shrink | task_scheduler/pkg/scalar/scalar.go:156-166 | some registered worker, online or not, is offline; the others, and what it has noted of its pod, are untouched |
| Scalar.WorkerScalar.DecideScaling | task_scheduler/pkg/scalar/scalar.go:44-148 | the code of a tick is one step of the Tick relation all theorems are about; it fails only when the ports are used up or a pod is refused, and then writes nothing to the log, otherwise its five lines; what the workers of before have noted of their pods stays |
| Scalar.TickParses | task_scheduler/pkg/scalar/scalar.go:139-144 | the lines of a tick, appended to any complete file, parse back to period, capacity, issued capacity and intensity under these names, and the end mark |
| Requests.AdjustRequest | task_scheduler/pkg/balancer/balancer.go:244-251 | the request's input becomes its rewritten text |
| Requests.RewrittenFields | task_scheduler/pkg/balancer/balancer.go:244-251 | splitting the rewritten text gives the original fields with only the last replaced, and its only white space is one blank behind each |
| Requests.RewriteOverrides | task_scheduler/pkg/balancer/balancer.go:244-251 | a second rewrite gives what it would have given on the original |
| Requests.ClientReadsBatch | fpga_app/vmult_slr_assign_client.go:60-81 | for a request of at least three fields the client reads the size of every batch of 1..Batch if and only if it has exactly three; all these sizes are within its maximum batch |
| Requests.CollectBatch | task_scheduler/pkg/balancer/balancer.go:67-102 | one round takes at most Batch turns, stops early only at a timeout, and keeps exactly the requests that parsed, in order |
| Requests.Serve | task_scheduler/pkg/balancer/balancer.go:66-109 | over a whole stream every parsed request is in exactly one batch, in order; the batches are the rounds that parsed anything, and a round ends exactly where Batch turns are full, at a timeout, or with the stream |
| Pods.SetPodListenPort | task_scheduler/pkg/utils/k8s.go:228-247 | of each client container the first listen port and the first listen variable are set, and nothing else |
| Pods.PortRoundTrip | task_scheduler/pkg/utils/k8s.go:228-261 | the port that was set is read back if and only if some client container exposes the listen port; otherwise 0 is |
| Pods.PortRead | task_scheduler/pkg/utils/k8s.go:249-261 | the port read is the host port of the first listen port of the first client container that has one, and 0 if none has |
| Pods.SetPodDeviceFraction | task_scheduler/pkg/utils/k8s.go:263-274 | only the first client container's limit is set |
| Pods.FractionRead | task_scheduler/pkg/utils/k8s.go:276-287 | the fraction read is the limit of the first client container that has one, and 0 if none has |
| Pods.WorkerPodRoundTrip | task_scheduler/pkg/utils/k8s.go:228-292 | a worker's pod reads back its port and its fraction, and is watched if and only if the fraction is positive |
| Text.NumeralRoundTrip | task_scheduler/pkg/utils/k8s.go:241 | a printed number parses back, within the word size |
| Text.SignedRoundTrip | device_plugin/podutils.go:33 | a printed number, signed or not, parses back within the word size |
| Text.NumeralMeaning | task_scheduler/pkg/worker/set.go:79 | the digits of a numeral are those of the powers of ten, and only 0 begins with a zero |
| Text.FieldsMeaning | task_scheduler/pkg/balancer/balancer.go:245 | fields are non-empty words without white space and hold every other character in order |
| Text.FieldsSplit | task_scheduler/pkg/balancer/balancer.go:245 | a text splits at each white space, and a word without any is one field: that determines the fields |
| RecordLog.Recorder.AddPrivate | task_scheduler/pkg/utils/recorder.go:18-21 | appends the line of a private entry |
| RecordLog.Recorder.AddPublic | task_scheduler/pkg/utils/recorder.go:23-26 | appends the line of a common entry |
| RecordLog.Recorder.End | task_scheduler/pkg/utils/recorder.go:28-30 | appends the end mark |
| RecordLog.PatternMeaning | task_scheduler/parser.py:36-38 | the pattern matches at a place if and only if a bracketed pair begins there, around a colon or an equals sign with at most one blank at each side of key and value; what it reports is such a pair |
| RecordLog.CleanPair | task_scheduler/parser.py:36-38 | of a pair of clean words it reports exactly these, however they are spaced |
| RecordLog.FindAllMeaning | task_scheduler/parser.py:53-60 | the search takes the leftmost match and goes on behind it |
| RecordLog.LineMeaning | task_scheduler/parser.py:49-66 | an end mark anywhere makes a line an end; any other line says its common pairs, then its private ones |
| RecordLog.SameLines | task_scheduler/parser.py:41-47 | whether lines end in a line feed, a carriage return or both, they are read as the same lines |
| RecordLog.LineRoundTrip | task_scheduler/parser.py:36-66 | a printed line matches back to exactly its entry, by the pattern search and the order of the three tests |
| RecordLog.RoundTrip | task_scheduler/parser.py:36-66 | for any sequence of calls with clean keys and values, the whole text parses back to exactly that sequence |
| RecordLog.AppendRoundTrip | task_scheduler/parser.py:36-66 | appended to any file of complete lines, the calls add exactly their entries to what parses |
| LogTable.Collect | task_scheduler/parser.py:47-68 | the reading loop collects exactly the entries of all lines, already in line order; the dictionaries hold the keys by first appearance and the private keys' counts |
| LogTable.SortByCount | task_scheduler/parser.py:67 | private keys by decreasing count, ties by first appearance, each once |
| LogTable.BuildRows | task_scheduler/parser.py:88-98 | the table-building loop yields exactly the declared rows |
| LogTable.RowOfEnd | task_scheduler/parser.py:89-94 | there is one row for each end mark, and the row of an end mark is about what stands before it |
| LogTable.LatestCommonMeaning | task_scheduler/parser.py:95-97 | a common column holds the latest common value of its key, or is empty if there is none |
| LogTable.LatestPrivateMeaning | task_scheduler/parser.py:93-99 | a private column holds the latest private value since the previous end mark, or is empty |
| LogTable.ParseKeys | task_scheduler/parser.py:35-99 | for any text, the columns are the common keys by first appearance, then the private keys by frequency, and the rows are the declared ones |
| FakeDevices.FakeIDInjective | device_plugin/fpga.go:134-136 | equal fake IDs come from equal real IDs and equal counters, for all strings and numbers |
| FakeDevices.ParserInverts | device_plugin/allocate.go:27-30 | the parser inverts the encoding if and only if the counter has as many digits as the block count |
| FakeDevices.SafeBlockCount | device_plugin/allocate.go:27-30 | it does so for every board and every fraction if and only if the block count is below 10 |
| FakeDevices.DeviceOf | device_plugin/fpga.go:209-230 | device 3 * i + c of a scan is fraction c of board i, numbered from 1 on, with the board's own data and the ID marked with c |
| FakeDevices.GetDevices | device_plugin/fpga.go:209-230 | every board contributes BlockPerFPGA devices, numbered on through the whole list |
| FakeDevices.GroupByType | device_plugin/server.go:73-85 | one group for each type that occurs, holding exactly its devices by ID |
| FakeDevices.GroupSize | device_plugin/fpga.go:209-230 | k distinct boards of a type make a group of k * BlockPerFPGA devices |
| FakeDevices.GroupKeys | device_plugin/server.go:73-85 | a group's IDs are exactly the fake IDs of the boards of its type |
| FakeDevices.GroupFractionsOf | device_plugin/server.go:73-85 | every device of a group is a fraction of a board of its type, under its own ID |
| DevicePlugin.FPGADevicePluginServer.GetDeviceByIndex | device_plugin/allocate.go:32-63 | the first call that finds devices numbers the boards behind them, later ones keep that numbering; the answer is the numbered board or none |
| DevicePlugin.FreshIndices | device_plugin/allocate.go:32-56 | for every map order, a scanned type with k boards gets the indices 0..k-1 one-to-one onto its boards |
| DeviceUpdate.Compare | device_plugin/server.go:97-113 | the three maps are exactly the types only in the new scan, changed in it, and missing from it |
| DeviceUpdate.FPGADevicePlugin.CheckDeviceUpdate | device_plugin/server.go:96-145 | the devices are the scan, there is one running server for each of its types, new ones are made with their devices and have no boards numbered, survivors are the same objects, dropped ones are stopped, and exactly the survivors whose devices changed get one message, the new devices |
| DeviceUpdate.FPGADevicePlugin.CheckAgain | device_plugin/server.go:96-145 | the same scan again changes nothing |
| Allocation.GetFPGALimitFromPodResource | device_plugin/podutils.go:111-120 | the sum of the containers' limits, in a machine word |
| Allocation.LimitsAdd | device_plugin/podutils.go:111-120 | the limits of the containers add up, and one without a limit adds nothing |
| Allocation.BoundIndex | device_plugin/podutils.go:26-50 | the index a pod is bound to is read back; without the annotation, or without a numeral in it, there is none |
| Allocation.TimeRead | device_plugin/podutils.go:53-64 | the assume time is read back, and is 0 without a numeral |
| Allocation.AssumedPods | device_plugin/podutils.go:67-108 | a pod awaits its board if and only if it has a limit, an assume time and the flag "false" |
| Allocation.ServedPod | device_plugin/podutils.go:13-24 | a pod marked as served has the flag "true" and the time of the marking, is no candidate, and nothing else about it changes: neither its other annotations, index and limit among them, nor anything outside them |
| Allocation.MakePodOrderedByAge | device_plugin/podmanager.go:181-202 | the same pods, by assume time |
| Allocation.GetCandidatePods | device_plugin/podmanager.go:146-178 | exactly the waiting, assumed and unassigned pods of the node, by assume time |
| Allocation.Choose | device_plugin/allocate.go:84-112 | a pod with least assume time among the candidates with the wanted limit, or none exactly when there is no such candidate |
| Allocation.Respond | device_plugin/allocate.go:131-166 | a container is given the board's device nodes once for each fraction it asked for |
| Allocation.ResponseMeaning | device_plugin/allocate.go:131-166 | for each fraction there is the user node, and before it the management node if the board has one, each under its own name, with all permissions and mounted for writing |
| Allocation.LibraryNeverBare | device_plugin/vendor/k8s.io/apimachinery/pkg/api/errors/errors.go:158-170 | no text the client library gives a conflict is the one the call compares with, whatever object and cause it names |
| Allocation.RequestsAdd | device_plugin/allocate.go:76-78 | the fractions wanted are those of all containers together |
| Allocation.MarkedMeaning | device_plugin/allocate.go:170-191 | only the pod itself changes: it is marked if its update is stored or its newest version's is, and otherwise it is what others have made of it |
| Allocation.Cluster.Allocate | device_plugin/allocate.go:66-198 | success serves the earliest match with the board of the index it is bound to and marks that pod alone; every error path with its own error, and exactly which of them touch the store; a refused update is tried again only if its text is the one compared with |
| AllocationRuns.AtMostOnce | device_plugin/allocate.go:66-198 | with calls one at a time, among any creations, deletions and edits by others, no pod is served twice unless somebody sets its assigned flag back |
| AllocationRuns.ResetServesAgain | device_plugin/podutils.go:87-95 | if somebody does set it back, it can be: for every world with a match there is a run of calls one at a time that serves it, sets its flag back and serves it again |
| AllocationRuns.RepeatIsBlind | device_plugin/allocate.go:169-191 | however calls overlap, unless somebody sets the flag back every service of a pod after its first is a retry that stored its update although the flag it had fetched was not "false" |
| AllocationRuns.ServedTwiceIff | device_plugin/allocate.go:174-186 | however calls overlap, if nobody else changes the flag a pod is served twice if and only if such a retry happened |
| AllocationRuns.TwoCallsServeOnePod | device_plugin/allocate.go:171-186 | from every world with a match there is a run of two overlapping calls that both serve it, in which the API server refuses an update in the bare words compared with |
| AllocationRuns.OnceUnlessBare | device_plugin/allocate.go:171-186 | however calls overlap, without a refusal in these words no pod is served twice unless somebody sets its flag back |
| AllocationRuns.WordsDecide | device_plugin/allocate.go:174 | overlapping calls can serve a matching pod twice, with nobody else touching its flag, if and only if these words are among the texts of the API server's refusals |
| AllocationRuns.OnceWithLibrary | device_plugin/vendor/k8s.io/apimachinery/pkg/api/errors/errors.go:158-170 | with refusals worded by the client library no pod is served twice, however calls overlap, unless somebody sets its flag back |
| AllocationRuns.CallIsRun | device_plugin/allocate.go:66-198 | what Cluster.Allocate leaves in the store, for every answer of the API server, is a run of these steps |

## Left out

- Network, JSON, listeners, dials and deadlines: accepted requests, timeouts and reported latencies are inputs. A failed send is a dispatched batch that never reports back.
- Wall-clock reads, probes of ports, answers of the API server and of the informer's lister are inputs of the methods and choices of the machines.
- Floating point: float64 values are real numbers. With no worker online the original compares against NaN, which the model replaces by an explicit guard with the same outcome. A saturated fleet with an average latency of 0 has infinite capacity in the original and 0 here.
- Overflow of Go's 64-bit int in counters and in the latency average.
- Scalar.WorkerScalar.DecideScaling: takes a tick as one step. The lock is free between the scan, the scale loop and the shrink, so other steps may fall in between there; the laws of Ledger and WholeCalls.ShrinkApart cover those interleavings, the other theorems about a tick do not. The debug log is left out, and how a number is printed is a parameter. It expects positive maximum batches, which BatchLedger proves for every run.
- Balancer.LoadBalancer.DistributeWorker: the code is taken alone; interleaved calls are runs of Ledger. It expects positive maximum weights, which WeightLedger proves for every run; without them the original would recurse forever.
- Balancer.LoadBalancer.FinishWorker: expects the worker to be registered still; the original dereferences nil otherwise. Ledger.OrphanedIff says in which runs that happens.
- WorkerSets.WorkerSet.DeleteWorker: the wait for the worker to drain is left out: the pod may vanish any time after the call. Nothing is proved about what waits for a lock that is still held.
- Manager.WorkerSetManager.SyncPod: the lister's answer is an input. The machine of Reconcile has no lister errors other than "not found": one would lose the key, as the contract shows.
- Requests.AdjustRequest: expects at least one field; the original indexes out of range otherwise.
- Requests.ClientReadsBatch: is about requests of at least three fields; the client indexes out of range otherwise. The client's kernels are not part of this model.
- DevicePlugin.FPGADevicePluginServer.GetDeviceByIndex: expects device IDs long enough for the parser to cut, as all generated ones are; the original slices out of range otherwise.
- DeviceUpdate.FPGADevicePlugin.CheckDeviceUpdate: the message a new server gets when it starts serving is left out, since it may arrive after a later one. The scan that the original deletes from while it compares is a copy here.
- Allocation.Cluster.Allocate: expects that the API server lists exactly the node's pending pods. It is one call with at most one edit in between; overlapping calls are runs of AllocationRuns. The text of a refusal is an input: which texts a real API server sends is not part of this model, only what follows from each, and that the client library's own texts never equal the one compared with.
- Allocation.MakePodOrderedByAge: the library's sort is an insertion sort here; nothing depends on how ties are ordered.
- AllocationRuns: uids are not used again, and the API server refuses an update of an old version. A call that gives up after a successful update, for want of an answer, is not modelled.
- Pods.SetPodListenPort, Pods.SetPodDeviceFraction: return a changed pod instead of writing into the one they are given. AddWorker gives them a copy, so nobody else sees the difference.
- Reconcile: taking a port and counting up the name are one step; the sample pod exposes the listen port, so that a pod reads back the port it was given (Pods.PortRoundTrip says when); a change of the informer's store and the handler called for it are one step, though the informer calls handlers later; pods are deleted only through DeleteWorker; the namespace is fixed, so that a key is the pod's name; there are no worker pods from an earlier run; one goroutine works on the queue. Informer resyncs, keys that cannot be split, and CleanUp are left out.
- Convergence: a worker holds one port, a worker that is gone has given it back, and the API server accepts every pod; a pod that is refused leaks its port.
- The probe goroutine sets Online without looking at the pod again. It is the method ProbeSucceeds and, in Ledger, a free choice; nothing is claimed to follow from being online.
- RecordLog: the recorder's file is a string, with no write errors; the parser's files are decoded to characters already.
- LogTable: printing, CSV output and the pretty table.
- FakeDevices: reading the file system; what it says about a board is an input. The two device nodes of a board are a value, not a shared object that a later scan step completes.
- The refresh of realDevices after an update does not exist in the original either; what a server's own goroutines do with its messages is left out.
- The AWS variant of the device plugin, command lines, YAML files, shell scripts and the round-robin SLR choice of the client, which would only add easy members.
