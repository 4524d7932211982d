// The balancer's and the autoscaler's bookkeeping on the shared worker set, as a machine whose
// steps are the critical sections of the two. A run is the list of its steps in the order in
// which they took the lock, so every law below holds for every interleaving and for every order
// in which a map happens to be visited.
module Ledger {
  import opened Config
  import opened Wrappers

  /** The counters of one task worker. Durations are in nanoseconds. */
  datatype Worker = Worker(
    online: bool,
    workload: int,
    workCount: int,
    accBatch: int,
    lateLatency: int,
    avegLatency: int,
    maxBatch: int,
    maxWeight: int,
    weight: int,
    capacity: real)

  type Fleet = map<string, Worker>

  /** Requests a second one worker serves. */
  const CAPACITY: real := 4500.0 / 7.0

  /** A full refill of batches in every batch latency. */
  lemma CapacityOfOneWorker()
    ensures CAPACITY == (BATCH * INIT_MAX_WEIGHT) as real / (BATCH_LATENCY as real / SECOND as real)
  {
  }

  /** A worker as AddWorker registers it: full weight, nothing dispatched, not yet online. */
  function NewWorker(): Worker {
    Worker(false, 0, 0, 0, BATCH_LATENCY, BATCH_LATENCY,
           BATCH * INIT_MAX_WEIGHT, INIT_MAX_WEIGHT, INIT_MAX_WEIGHT, CAPACITY)
  }

  /** Go's integer division, which truncates toward zero. */
  function TruncDiv(a: int, b: int): int
    requires b > 0
  {
    if a >= 0 then a / b else -(-a / b)
  }

  predicate Pickable(w: Worker) {
    w.online && w.weight > 0
  }

  predicate Refillable(w: Worker) {
    w.online && w.weight <= 0
  }

  function Picked(w: Worker, batch: int): Worker {
    w.(weight := w.weight - 1, workload := w.workload + 1, workCount := w.workCount + 1, accBatch := w.accBatch + batch)
  }

  function Finished(w: Worker, latency: int): Worker {
    w.(workload := w.workload - 1, lateLatency := latency, avegLatency := TruncDiv(w.avegLatency * 3 + latency, 4))
  }

  function Refilled(w: Worker): Worker {
    if Refillable(w) then w.(weight := w.maxWeight) else w
  }

  function Scanned(w: Worker): Worker {
    if w.online then w.(workCount := 0, accBatch := 0) else w
  }

  function Flushed(fleet: Fleet): Fleet {
    map n | n in fleet :: Refilled(fleet[n])
  }

  function Drained(fleet: Fleet): Fleet {
    map n | n in fleet :: Scanned(fleet[n])
  }

  function Online(fleet: Fleet): set<string> {
    set n | n in fleet && fleet[n].online
  }

  function ToRefill(fleet: Fleet): set<string> {
    set n | n in fleet && Refillable(fleet[n])
  }

  // ----- the machine -----

  /** One critical section. Names and batches a step does not determine are its parameters. */
  datatype Event =
    | Register(name: string)                             // AddWorker stores the new worker
    | Remove(name: string)                               // removeWorkerPod drops it
    | Flip(name: string, online: bool)                   // DeleteWorker, updatePod or the probe sets Online
    | Pick(name: string, batch: int)                     // distributeWorker finds a worker with weight
    | Flush(refilled: set<string>)                       // flushWorkerSetWeight
    | Finish(name: string, latency: int)                 // finishWorker
    | Scan(drained: int)                                 // the locked part of decideScaling
    | Issue(name: string)                                // decideScaling notes a worker it asked for

  datatype State = State(
    fleet: Fleet,
    used: set<string>,           // names given out so far
    returned: set<string>,       // names AddWorker returned and nobody noted yet
    inflight: multiset<string>,  // batches dispatched to a worker and not reported back
    request: int,
    issued: map<string, real>)

  const Init := State(map[], {}, {}, multiset{}, 0, map[])

  predicate Enabled(s: State, e: Event) {
    match e
    case Register(n) => n !in s.used
    case Remove(n) => n in s.fleet
    case Flip(n, _) => n in s.fleet
    case Pick(n, batch) => n in s.fleet && Pickable(s.fleet[n]) && 1 <= batch <= BATCH
    case Flush(refilled) => refilled == ToRefill(s.fleet)
    case Finish(n, _) => n in s.fleet && s.inflight[n] > 0
    case Scan(drained) => drained == s.request
    case Issue(n) => n in s.returned
  }

  function Apply(s: State, e: Event): State
    requires Enabled(s, e)
  {
    match e
    case Register(n) => s.(fleet := s.fleet[n := NewWorker()], used := s.used + {n}, returned := s.returned + {n})
    case Remove(n) => s.(fleet := s.fleet - {n})
    case Flip(n, online) => s.(fleet := s.fleet[n := s.fleet[n].(online := online)])
    case Pick(n, batch) =>
      s.(fleet := s.fleet[n := Picked(s.fleet[n], batch)], inflight := s.inflight + multiset{n},
         request := s.request + batch)
    case Flush(_) => s.(fleet := Flushed(s.fleet))
    case Finish(n, latency) =>
      s.(fleet := s.fleet[n := Finished(s.fleet[n], latency)], inflight := s.inflight - multiset{n})
    case Scan(_) => s.(fleet := Drained(s.fleet), request := 0, issued := s.issued - Online(s.fleet))
    case Issue(n) => s.(issued := s.issued[n := CAPACITY], returned := s.returned - {n})
  }

  /** The state after the steps es, or None if one of them was not possible when it was taken. */
  function Exec(es: seq<Event>): Option<State> {
    if es == [] then Some(Init)
    else
      match Exec(es[..|es| - 1])
      case None => None
      case Some(s) => if Enabled(s, es[|es| - 1]) then Some(Apply(s, es[|es| - 1])) else None
  }

  // ----- what a run has done, counted on its steps alone -----

  function Picks(es: seq<Event>, n: string): nat {
    if es == [] then 0
    else Picks(es[..|es| - 1], n) + if es[|es| - 1].Pick? && es[|es| - 1].name == n then 1 else 0
  }

  function Refills(es: seq<Event>, n: string): nat {
    if es == [] then 0
    else Refills(es[..|es| - 1], n) + if es[|es| - 1].Flush? && n in es[|es| - 1].refilled then 1 else 0
  }

  function Finishes(es: seq<Event>, n: string): nat {
    if es == [] then 0
    else Finishes(es[..|es| - 1], n) + if es[|es| - 1].Finish? && es[|es| - 1].name == n then 1 else 0
  }

  function DispatchedTotal(es: seq<Event>): int {
    if es == [] then 0
    else DispatchedTotal(es[..|es| - 1]) + if es[|es| - 1].Pick? then es[|es| - 1].batch else 0
  }

  function DrainedTotal(es: seq<Event>): int {
    if es == [] then 0
    else DrainedTotal(es[..|es| - 1]) + if es[|es| - 1].Scan? then es[|es| - 1].drained else 0
  }

  // ----- the laws -----

  ghost predicate WeightLaw(es: seq<Event>, s: State) {
    forall n: string :: WeightOk(es, s, n)
  }

  predicate WeightOk(es: seq<Event>, s: State, n: string) {
    && (n !in s.used ==> n !in s.fleet && Picks(es, n) == Refills(es, n) == 0)
    && (n in s.fleet ==>
          var w := s.fleet[n];
          && w.maxWeight == INIT_MAX_WEIGHT
          && Picks(es, n) + w.weight == INIT_MAX_WEIGHT * (1 + Refills(es, n))
          && 0 <= w.weight <= w.maxWeight)
  }

  lemma WeightStep(es: seq<Event>, s: State, e: Event, n: string)
    requires Enabled(s, e)
    requires WeightOk(es, s, n)
    ensures WeightOk(es + [e], Apply(s, e), n)
  {
    assert (es + [e])[..|es + [e]| - 1] == es;
  }

  /** In every interleaving each pick is paid from a refill, and the weight stays within its bounds. */
  lemma {:induction false} WeightLedger(es: seq<Event>, s: State)
    requires Exec(es) == Some(s)
    ensures WeightLaw(es, s)
  {
    if es != [] {
      var s0 := Exec(es[..|es| - 1]).value;
      WeightLedger(es[..|es| - 1], s0);
      assert es == es[..|es| - 1] + [es[|es| - 1]];
      forall n: string ensures WeightOk(es, s, n) {
        assert WeightOk(es[..|es| - 1], s0, n);
        WeightStep(es[..|es| - 1], s0, es[|es| - 1], n);
      }
    }
  }

  ghost predicate WorkloadLaw(es: seq<Event>, s: State) {
    forall n: string :: WorkloadOk(es, s, n)
  }

  predicate WorkloadOk(es: seq<Event>, s: State, n: string) {
    && (n !in s.used ==> n !in s.fleet && s.inflight[n] == 0)
    && Picks(es, n) == Finishes(es, n) + s.inflight[n]
    && (n in s.fleet ==> s.fleet[n].workload == s.inflight[n])
  }

  lemma WorkloadStep(es: seq<Event>, s: State, e: Event, n: string)
    requires Enabled(s, e)
    requires WorkloadOk(es, s, n)
    ensures WorkloadOk(es + [e], Apply(s, e), n)
  {
    assert (es + [e])[..|es + [e]| - 1] == es;
  }

  /** Workload is dispatched minus reported batches; a batch whose send failed is never reported. */
  lemma {:induction false} WorkloadLedger(es: seq<Event>, s: State)
    requires Exec(es) == Some(s)
    ensures WorkloadLaw(es, s)
  {
    if es != [] {
      var s0 := Exec(es[..|es| - 1]).value;
      WorkloadLedger(es[..|es| - 1], s0);
      assert es == es[..|es| - 1] + [es[|es| - 1]];
      forall n: string ensures WorkloadOk(es, s, n) {
        assert WorkloadOk(es[..|es| - 1], s0, n);
        WorkloadStep(es[..|es| - 1], s0, es[|es| - 1], n);
      }
    }
  }

  /** What each tick drained, plus what the next one will find, is every batch size dispatched so far. */
  lemma {:induction false} RequestLedger(es: seq<Event>, s: State)
    requires Exec(es) == Some(s)
    ensures DrainedTotal(es) + s.request == DispatchedTotal(es)
    ensures s.request >= 0
  {
    if es != [] {
      RequestLedger(es[..|es| - 1], Exec(es[..|es| - 1]).value);
    }
  }

  predicate WorkerLaw(w: Worker) {
    && w.maxWeight == INIT_MAX_WEIGHT
    && w.maxBatch == BATCH * w.maxWeight
    && w.capacity == CAPACITY
    && 0 <= w.weight <= w.maxWeight
    && 0 <= w.workCount <= w.accBatch <= BATCH * w.workCount
  }

  ghost predicate FleetLaw(fleet: Fleet) {
    forall n :: n in fleet ==> WorkerLaw(fleet[n])
  }

  lemma BatchStep(s: State, e: Event)
    requires Enabled(s, e)
    requires FleetLaw(s.fleet)
    ensures FleetLaw(Apply(s, e).fleet)
  {
  }

  lemma {:induction false} BatchLedger(es: seq<Event>, s: State)
    requires Exec(es) == Some(s)
    ensures FleetLaw(s.fleet)
  {
    if es != [] {
      var s0 := Exec(es[..|es| - 1]).value;
      BatchLedger(es[..|es| - 1], s0);
      BatchStep(s0, es[|es| - 1]);
    }
  }

  ghost predicate IssuedLaw(s: State) {
    && s.fleet.Keys <= s.used
    && s.issued.Keys <= s.used
    && s.returned <= s.used
    && s.issued.Keys !! s.returned
    && forall n :: n in s.issued ==> s.issued[n] == CAPACITY
  }

  /** An issued entry is never overwritten, and each is worth one worker. */
  lemma {:induction false} IssuedLedger(es: seq<Event>, s: State)
    requires Exec(es) == Some(s)
    ensures IssuedLaw(s)
    ensures forall e :: Enabled(s, e) && e.Issue? ==> e.name !in s.issued
  {
    if es != [] {
      IssuedLedger(es[..|es| - 1], Exec(es[..|es| - 1]).value);
    }
  }

  /** A worker that is offline gets no work: its workload grows only in a step taken while it is online. */
  lemma NoWorkWhileOffline(es: seq<Event>, s: State, e: Event, n: string)
    requires Exec(es) == Some(s)
    requires Enabled(s, e)
    requires n in s.fleet && n in Apply(s, e).fleet
    ensures Apply(s, e).fleet[n].workload >= 0
    ensures Apply(s, e).fleet[n].workload > s.fleet[n].workload ==> s.fleet[n].online && s.fleet[n].weight > 0
  {
    WorkloadLedger(es, s);
    assert WorkloadOk(es, s, n);
    WorkloadStep(es, s, e, n);
  }

  // ----- batches that cannot report -----

  /** The worker of a batch under way is gone: there is nothing left for its report to change. */
  predicate Orphaned(s: State, n: string) {
    s.inflight[n] > 0 && n !in s.fleet
  }

  /** Step i removes n while a batch of its is under way. */
  predicate OrphansAt(es: seq<Event>, n: string, i: int)
    requires 0 <= i < |es|
  {
    es[i] == Remove(n) && match Exec(es[..i]) case Some(s) => s.inflight[n] > 0 case None => false
  }

  ghost predicate RemovedBusy(es: seq<Event>, n: string) {
    exists i :: 0 <= i < |es| && OrphansAt(es, n, i)
  }

  lemma RemovedBusyStep(es: seq<Event>, n: string)
    requires es != []
    ensures RemovedBusy(es, n) <==> RemovedBusy(es[..|es| - 1], n) || OrphansAt(es, n, |es| - 1)
  {
    var before := es[..|es| - 1];
    forall i | 0 <= i < |before| ensures OrphansAt(before, n, i) == OrphansAt(es, n, i) {
      assert before[..i] == es[..i];
    }
    if i :| 0 <= i < |es| && OrphansAt(es, n, i) {
      assert i < |before| ==> OrphansAt(before, n, i);
    }
    if i :| 0 <= i < |before| && OrphansAt(before, n, i) {
      assert OrphansAt(es, n, i);
    }
  }

  lemma OrphanStep(es: seq<Event>, s: State, e: Event, n: string)
    requires Exec(es) == Some(s) && Enabled(s, e)
    requires WorkloadOk(es, s, n)
    ensures Orphaned(Apply(s, e), n) <==> Orphaned(s, n) || (e == Remove(n) && s.inflight[n] > 0)
    ensures Orphaned(s, n) ==> Apply(s, e).inflight[n] == s.inflight[n]
  {
  }

  /** In every run a worker has batches that can never report if and only if it was removed while one was under way. */
  lemma {:induction false} OrphanedIff(es: seq<Event>, s: State, n: string)
    requires Exec(es) == Some(s)
    ensures Orphaned(s, n) <==> RemovedBusy(es, n)
  {
    if es != [] {
      var before, e := es[..|es| - 1], es[|es| - 1];
      var r := Exec(before).value;
      OrphanedIff(before, r, n);
      RemovedBusyStep(es, n);
      WorkloadLedger(before, r);
      assert WorkloadOk(before, r, n);
      OrphanStep(before, r, e, n);
    }
  }

  /** Every run with a worker to pick can go on to such a batch. */
  lemma OrphanExists(es: seq<Event>, s: State, n: string) returns (t: State)
    requires Exec(es) == Some(s)
    requires n in s.fleet && Pickable(s.fleet[n])
    ensures Exec(es + [Pick(n, 1)] + [Remove(n)]) == Some(t)
    ensures Orphaned(t, n)
  {
    var u := Apply(s, Pick(n, 1));
    ExecSnoc(es, s, Pick(n, 1));
    ExecSnoc(es + [Pick(n, 1)], u, Remove(n));
    t := Apply(u, Remove(n));
  }

  // ----- what a worker's counters count -----

  /** How many steps of the run there were up to and including the last scan that saw n online. */
  function LastSeen(es: seq<Event>, n: string): (k: nat)
    ensures k <= |es|
  {
    if es == [] then 0 else if SeenAt(es, n, |es| - 1) then |es| else LastSeen(es[..|es| - 1], n)
  }

  function BatchTotal(es: seq<Event>, n: string): int {
    if es == [] then 0
    else
      var e := es[|es| - 1];
      BatchTotal(es[..|es| - 1], n) + if e.Pick? && e.name == n then e.batch else 0
  }

  predicate CountOk(es: seq<Event>, s: State, n: string) {
    var since := es[LastSeen(es, n)..];
    && (n !in s.used ==> n !in s.fleet && Picks(since, n) == 0 && BatchTotal(since, n) == 0)
    && (n in s.fleet ==> s.fleet[n].workCount == Picks(since, n) && s.fleet[n].accBatch == BatchTotal(since, n))
  }

  lemma SinceStep(es: seq<Event>, n: string)
    requires es != []
    ensures var before, e := es[..|es| - 1], es[|es| - 1];
            var since, was := es[LastSeen(es, n)..], before[LastSeen(before, n)..];
            if SeenAt(es, n, |es| - 1) then since == []
            else since == was + [e]
                 && Picks(since, n) == Picks(was, n) + (if e.Pick? && e.name == n then 1 else 0)
                 && BatchTotal(since, n) == BatchTotal(was, n) + (if e.Pick? && e.name == n then e.batch else 0)
  {
    var before, e := es[..|es| - 1], es[|es| - 1];
    if !SeenAt(es, n, |es| - 1) {
      var was := before[LastSeen(before, n)..];
      assert es[LastSeen(es, n)..] == was + [e];
      assert (was + [e])[..|was + [e]| - 1] == was;
    }
  }

  lemma CountStep(s: State, e: Event, n: string)
    requires Enabled(s, e)
    ensures var t := Apply(s, e);
            && (n !in t.used ==> n !in s.used)
            && (n in t.fleet && n !in s.fleet ==> n !in s.used && t.fleet[n].workCount == t.fleet[n].accBatch == 0)
            && (n in t.fleet && n in s.fleet && n in s.used ==>
                  if e.Scan? && n in Online(s.fleet) then t.fleet[n].workCount == t.fleet[n].accBatch == 0
                  else t.fleet[n].workCount == s.fleet[n].workCount + (if e.Pick? && e.name == n then 1 else 0)
                       && t.fleet[n].accBatch == s.fleet[n].accBatch + (if e.Pick? && e.name == n then e.batch else 0))
            && (n in t.fleet ==> n in s.fleet || e == Register(n))
            && (n !in s.fleet ==> !(e.Pick? && e.name == n))
  {
  }

  /** In every run a worker's WorkCount and AccBatch are the number and the sum of its batches since the last scan
      that saw it online. */
  lemma {:induction false} CountLedger(es: seq<Event>, s: State, n: string)
    requires Exec(es) == Some(s)
    ensures CountOk(es, s, n)
  {
    if es != [] {
      var before, e := es[..|es| - 1], es[|es| - 1];
      var r := Exec(before).value;
      CountLedger(before, r, n);
      SinceStep(es, n);
      CountStep(r, e, n);
    }
  }

  /** n was turned online at step i and neither turned offline nor removed since. */
  ghost predicate OnSince(es: seq<Event>, n: string, i: int)
    requires 0 <= i < |es|
  {
    es[i] == Flip(n, true) && forall j :: i < j < |es| ==> es[j] != Flip(n, false) && es[j] != Remove(n)
  }

  ghost predicate TurnedOn(es: seq<Event>, n: string) {
    exists i :: 0 <= i < |es| && OnSince(es, n, i)
  }

  lemma TurnedOnStep(es: seq<Event>, n: string)
    requires es != []
    ensures var before, e := es[..|es| - 1], es[|es| - 1];
            TurnedOn(es, n) <==> e == Flip(n, true) || (TurnedOn(before, n) && e != Flip(n, false) && e != Remove(n))
  {
    var before, e := es[..|es| - 1], es[|es| - 1];
    assert forall j :: 0 <= j < |before| ==> before[j] == es[j];
    if e == Flip(n, true) {
      assert OnSince(es, n, |es| - 1);
    } else if i :| 0 <= i < |es| && OnSince(es, n, i) {
      assert OnSince(before, n, i);
    } else if i :| 0 <= i < |before| && OnSince(before, n, i) {
      assert e != Flip(n, false) && e != Remove(n) ==> OnSince(es, n, i);
    }
  }

  /** In every run a worker is online exactly if it was turned online and not offline since; in particular a new one
      is offline, and no dispatch, flush, report or scan changes that. */
  lemma {:induction false} OnlineIff(es: seq<Event>, s: State, n: string)
    requires Exec(es) == Some(s)
    ensures n in Online(s.fleet) <==> TurnedOn(es, n)
  {
    if es != [] {
      var before, e := es[..|es| - 1], es[|es| - 1];
      var r := Exec(before).value;
      OnlineIff(before, r, n);
      TurnedOnStep(es, n);
      IssuedLedger(before, r);
      OnlineStep(r, e, n);
    }
  }

  lemma OnlineStep(s: State, e: Event, n: string)
    requires Enabled(s, e) && s.fleet.Keys <= s.used
    ensures n in Online(Apply(s, e).fleet) <==>
            e == Flip(n, true) || (n in Online(s.fleet) && e != Flip(n, false) && e != Remove(n))
  {
  }

  // ----- the saturation test -----

  predicate SaturationTest(averageBatch: int, maxBatch: int)
    requires maxBatch > 0
  {
    averageBatch as real / maxBatch as real >= 0.90
  }

  predicate Saturated(w: Worker)
    requires w.maxBatch > 0
  {
    w.online && w.workCount > 0 && SaturationTest(TruncDiv(w.accBatch, w.workCount), w.maxBatch)
  }

  lemma AverageBatch(workCount: int, accBatch: int)
    requires 0 < workCount <= accBatch <= BATCH * workCount
    ensures 1 <= TruncDiv(accBatch, workCount) <= BATCH
  {
  }

  /** The test asks for nine tenths of the maximum. */
  lemma NineTenths(averageBatch: int, maxBatch: int)
    requires maxBatch > 0
    ensures SaturationTest(averageBatch, maxBatch) <==> 10 * averageBatch >= 9 * maxBatch
  {
    var q := averageBatch as real / maxBatch as real;
    assert q * maxBatch as real == averageBatch as real;
  }

  /** Which weights let batches of size 1..BATCH saturate a worker: only a weight of 1. */
  lemma SaturationNeedsWeightOne(maxWeight: int)
    requires maxWeight >= 1
    ensures maxWeight == 1 <==>
            exists workCount: int, accBatch: int ::
              && 0 < workCount <= accBatch <= BATCH * workCount
              && SaturationTest(TruncDiv(accBatch, workCount), BATCH * maxWeight)
  {
    if maxWeight == 1 {
      assert 0 < 1 <= BATCH <= BATCH * 1 && SaturationTest(TruncDiv(BATCH, 1), BATCH * maxWeight);
    } else {
      forall workCount: int, accBatch: int | 0 < workCount <= accBatch <= BATCH * workCount
        ensures !SaturationTest(TruncDiv(accBatch, workCount), BATCH * maxWeight)
      {
        AverageBatch(workCount, accBatch);
        BelowThreshold(TruncDiv(accBatch, workCount), BATCH * maxWeight);
      }
    }
  }

  lemma BelowThreshold(averageBatch: int, maxBatch: int)
    requires 0 <= averageBatch <= BATCH && maxBatch >= 2 * BATCH
    ensures !SaturationTest(averageBatch, maxBatch)
  {
  }

  lemma LawfulNotSaturated(w: Worker)
    requires WorkerLaw(w)
    ensures !Saturated(w)
  {
  }

  /** In no run does any worker meet the saturation test. */
  lemma NeverSaturated(es: seq<Event>, s: State, n: string)
    requires Exec(es) == Some(s)
    requires n in s.fleet
    ensures s.fleet[n].maxBatch > 0 && !Saturated(s.fleet[n])
  {
    BatchLedger(es, s);
    LawfulNotSaturated(s.fleet[n]);
  }

  // ----- issued capacity -----

  /** Since the last scan n came online or was noted. */
  ghost predicate NewSinceScan(es: seq<Event>, n: string) {
    exists i :: 0 <= i < |es| && Renews(es[i], n) && ScanFree(es, i)
  }

  predicate Renews(e: Event, n: string) {
    e == Flip(n, true) || e == Issue(n)
  }

  ghost predicate ScanFree(es: seq<Event>, i: int) {
    forall j :: 0 <= i < j < |es| ==> !es[j].Scan?
  }

  lemma NewStep(es: seq<Event>, n: string)
    requires es != []
    requires Renews(es[|es| - 1], n) || (NewSinceScan(es[..|es| - 1], n) && !es[|es| - 1].Scan?)
    ensures NewSinceScan(es, n)
  {
    var before := es[..|es| - 1];
    if Renews(es[|es| - 1], n) {
      assert ScanFree(es, |es| - 1);
    } else {
      var i :| 0 <= i < |before| && Renews(before[i], n) && ScanFree(before, i);
      forall j | i < j < |es| ensures !es[j].Scan? {
        assert j < |before| ==> before[j] == es[j];
      }
      assert Renews(es[i], n) && ScanFree(es, i);
    }
  }

  lemma SeparateStep(s: State, e: Event, n: string)
    requires Enabled(s, e)
    ensures var t := Apply(s, e);
            n in t.issued && n in Online(t.fleet) ==>
              Renews(e, n) || (!e.Scan? && n in s.issued && n in Online(s.fleet))
  {
  }

  /** In every run, capacity is counted twice only for a worker that came online or was noted after the last scan; so
      right after a scan it never is. */
  lemma {:induction false} ScanSeparates(es: seq<Event>, s: State)
    requires Exec(es) == Some(s)
    ensures forall n :: n in s.issued && n in Online(s.fleet) ==> NewSinceScan(es, n)
    ensures es != [] && es[|es| - 1].Scan? ==> s.issued.Keys !! Online(s.fleet) && s.request == 0
  {
    if es != [] {
      var before, e := es[..|es| - 1], es[|es| - 1];
      var r := Exec(before).value;
      ScanSeparates(before, r);
      forall n | n in s.issued && n in Online(s.fleet) ensures NewSinceScan(es, n) {
        SeparateStep(r, e, n);
        NewStep(es, n);
      }
    }
  }

  /** The run has noted n and no scan since then saw it online. */
  ghost predicate Awaited(es: seq<Event>, n: string) {
    exists i :: 0 <= i < |es| && NotedAt(es, n, i)
  }

  ghost predicate NotedAt(es: seq<Event>, n: string, i: int)
    requires 0 <= i < |es|
  {
    es[i] == Issue(n) && forall j :: i < j < |es| ==> !SeenAt(es, n, j)
  }

  /** Step j is a scan that sees n online. */
  predicate SeenAt(es: seq<Event>, n: string, j: int)
    requires 0 <= j < |es|
  {
    es[j].Scan? && match Exec(es[..j]) case Some(s) => n in Online(s.fleet) case None => false
  }

  lemma NotedPrefix(es: seq<Event>, n: string, i: int)
    requires 0 <= i < |es| - 1
    ensures NotedAt(es, n, i) <==> NotedAt(es[..|es| - 1], n, i) && !SeenAt(es, n, |es| - 1)
  {
    var before := es[..|es| - 1];
    forall j | 0 <= j < |before| ensures SeenAt(before, n, j) == SeenAt(es, n, j) {
      assert before[..j] == es[..j];
    }
    if NotedAt(es, n, i) {
      forall j | i < j < |before| ensures !SeenAt(before, n, j) {
        assert !SeenAt(es, n, j);
      }
    } else if NotedAt(before, n, i) && !SeenAt(es, n, |es| - 1) {
      forall j | i < j < |es| ensures !SeenAt(es, n, j) {
        assert j < |before| ==> !SeenAt(before, n, j);
      }
    }
  }

  lemma AwaitedStep(es: seq<Event>, n: string)
    requires es != []
    ensures Awaited(es, n) <==>
            es[|es| - 1] == Issue(n) || (Awaited(es[..|es| - 1], n) && !SeenAt(es, n, |es| - 1))
  {
    var before := es[..|es| - 1];
    if es[|es| - 1] == Issue(n) {
      assert NotedAt(es, n, |es| - 1);
    } else if i :| 0 <= i < |es| && NotedAt(es, n, i) {
      NotedPrefix(es, n, i);
    } else if i :| 0 <= i < |before| && NotedAt(before, n, i) {
      NotedPrefix(es, n, i);
    }
  }

  /** In every run a worker is in the issued capacity exactly when it was noted and no scan has seen it online since. */
  lemma {:induction false} IssuedIff(es: seq<Event>, s: State, n: string)
    requires Exec(es) == Some(s)
    ensures n in s.issued <==> Awaited(es, n)
  {
    if es != [] {
      IssuedIff(es[..|es| - 1], Exec(es[..|es| - 1]).value, n);
      AwaitedStep(es, n);
    }
  }

  /** The entry of a removed worker is decided: in every continuation it is there exactly if it was there at the
      removal or the worker, returned before, is noted after it. No scan takes it away any more. */
  lemma {:induction false} StaleIssuedForever(es: seq<Event>, s: State, fs: seq<Event>, t: State, n: string)
    requires Exec(es) == Some(s) && Exec(es + fs) == Some(t)
    requires n in s.used && n !in s.fleet
    ensures n in t.used && n !in t.fleet
    ensures n in t.issued <==> n in s.issued || Issue(n) in fs
    decreases |fs|
  {
    if fs == [] {
      assert es + fs == es;
    } else {
      var gs, e := fs[..|fs| - 1], fs[|fs| - 1];
      assert (es + fs)[..|es + fs| - 1] == es + gs;
      assert fs == gs + [e];
      var u := Exec(es + gs).value;
      StaleIssuedForever(es, s, gs, u, n);
      StaleStep(u, e, n);
    }
  }

  lemma StaleStep(s: State, e: Event, n: string)
    requires Enabled(s, e)
    requires n in s.used && n !in s.fleet
    ensures var t := Apply(s, e);
            && n in t.used && n !in t.fleet
            && (n in t.issued <==> n in s.issued || e == Issue(n))
  {
  }

  /** Every run can go on to leave a stale entry: a worker is registered, noted, and removed before it is online. */
  lemma StaleIssued(es: seq<Event>, s: State, n: string) returns (t: State)
    requires Exec(es) == Some(s)
    requires n !in s.used
    ensures Exec(es + [Register(n)] + [Issue(n)] + [Remove(n)]) == Some(t)
    ensures n in t.used && n !in t.fleet && n in t.issued
  {
    var u := Apply(s, Register(n));
    ExecSnoc(es, s, Register(n));
    var v := Apply(u, Issue(n));
    ExecSnoc(es + [Register(n)], u, Issue(n));
    ExecSnoc(es + [Register(n)] + [Issue(n)], v, Remove(n));
    t := Apply(v, Remove(n));
  }

  // ----- when a flush reports failure -----

  /** Some step gave n weight or made it count: a flush refilled it, or it came online. */
  ghost predicate Regained(fs: seq<Event>, n: string) {
    exists i :: 0 <= i < |fs| && Restores(fs[i], n)
  }

  predicate Restores(e: Event, n: string) {
    e == Flip(n, true) || (e.Flush? && n in e.refilled)
  }

  lemma RegainedStep(fs: seq<Event>, n: string)
    requires fs != []
    ensures Regained(fs, n) <==> Regained(fs[..|fs| - 1], n) || Restores(fs[|fs| - 1], n)
  {
    var gs := fs[..|fs| - 1];
    assert forall i :: 0 <= i < |gs| ==> gs[i] == fs[i];
  }

  /** After a scan that found nothing to pick, a worker can only be picked if it regained weight since. */
  lemma {:induction false} OnlyRegained(es: seq<Event>, s: State, fs: seq<Event>, u: State, n: string)
    requires Exec(es) == Some(s) && Exec(es + fs) == Some(u)
    requires forall m :: m in s.fleet ==> !Pickable(s.fleet[m])
    ensures n in u.fleet && Pickable(u.fleet[n]) ==> Regained(fs, n)
    decreases |fs|
  {
    if fs == [] {
      assert es + fs == es;
    } else {
      var gs, e := fs[..|fs| - 1], fs[|fs| - 1];
      assert (es + fs)[..|es + fs| - 1] == es + gs;
      OnlyRegained(es, s, gs, Exec(es + gs).value, n);
      RegainedStep(fs, n);
      PickableStep(Exec(es + gs).value, e, n);
    }
  }

  lemma PickableStep(s: State, e: Event, n: string)
    requires Enabled(s, e)
    ensures var t := Apply(s, e);
            n in t.fleet && Pickable(t.fleet[n]) ==> Restores(e, n) || (n in s.fleet && Pickable(s.fleet[n]))
  {
  }

  /** n has been picked less often than its refills, and its first weight, have paid for. */
  predicate PaidFor(es: seq<Event>, n: string) {
    Picks(es, n) < INIT_MAX_WEIGHT * (1 + Refills(es, n))
  }

  /** In every run a flush finds nothing exactly when every online worker has been paid for more than it was picked. */
  lemma FlushFailsIff(es: seq<Event>, u: State)
    requires Exec(es) == Some(u)
    ensures ToRefill(u.fleet) == {} <==> forall n :: n in Online(u.fleet) ==> PaidFor(es, n)
  {
    WeightLedger(es, u);
    forall n | n in u.fleet ensures u.fleet[n].weight > 0 <==> PaidFor(es, n) {
      assert WeightOk(es, u, n);
    }
    if n :| n in ToRefill(u.fleet) {
      assert n in Online(u.fleet) && !PaidFor(es, n);
    } else {
      forall n | n in Online(u.fleet) ensures PaidFor(es, n) {
        assert n !in ToRefill(u.fleet);
      }
    }
  }

  /** A dispatch whose scan at s found nothing and whose flush at u, after any steps of others, finds nothing either:
      every worker online by then was refilled or came online in between. If none was, the dispatch fails exactly
      when nothing is online. */
  lemma FlushFailure(es: seq<Event>, s: State, fs: seq<Event>, u: State)
    requires Exec(es) == Some(s) && Exec(es + fs) == Some(u)
    requires forall n :: n in s.fleet ==> !Pickable(s.fleet[n])
    ensures ToRefill(u.fleet) == {} ==> forall n :: n in Online(u.fleet) ==> Regained(fs, n)
    ensures (forall n: string :: !Regained(fs, n)) ==> (ToRefill(u.fleet) == {} <==> Online(u.fleet) == {})
    ensures ToRefill(u.fleet) == {} <==> forall n :: n in Online(u.fleet) ==> PaidFor(es + fs, n)
  {
    FlushFailsIff(es + fs, u);
    forall n | n in Online(u.fleet) ensures n in ToRefill(u.fleet) || Regained(fs, n) {
      OnlyRegained(es, s, fs, u, n);
    }
  }

  lemma ExecSnoc(es: seq<Event>, s: State, e: Event)
    requires Exec(es) == Some(s)
    requires Enabled(s, e)
    ensures Exec(es + [e]) == Some(Apply(s, e))
  {
  }

  /** A run that leaves one online worker without weight. */
  lemma Exhausted() returns (es: seq<Event>, s: State)
    ensures Exec(es) == Some(s)
    ensures s.fleet.Keys == {"worker-1"}
    ensures s.fleet["worker-1"].online && s.fleet["worker-1"].weight == 0
    ensures s.fleet["worker-1"].maxWeight == INIT_MAX_WEIGHT
  {
    var n := "worker-1";
    es, s := [], Init;
    ExecSnoc(es, s, Register(n));
    es, s := es + [Register(n)], Apply(s, Register(n));
    ExecSnoc(es, s, Flip(n, true));
    es, s := es + [Flip(n, true)], Apply(s, Flip(n, true));
    var k := 0;
    while k < INIT_MAX_WEIGHT
      invariant 0 <= k <= INIT_MAX_WEIGHT
      invariant Exec(es) == Some(s) && s.fleet.Keys == {n}
      invariant s.fleet[n].online && s.fleet[n].weight == INIT_MAX_WEIGHT - k
      invariant s.fleet[n].maxWeight == INIT_MAX_WEIGHT
    {
      ExecSnoc(es, s, Pick(n, 1));
      es, s := es + [Pick(n, 1)], Apply(s, Pick(n, 1));
      k := k + 1;
    }
  }

  /** Two dispatchers that both saw no weight: the second flush reports failure with a worker online. */
  lemma DispatchRace() returns (es: seq<Event>, seen: State, second: State)
    ensures Exec(es) == Some(seen)
    ensures forall n :: n in seen.fleet ==> !Pickable(seen.fleet[n])
    ensures Exec(es + [Flush(ToRefill(seen.fleet))]) == Some(second)
    ensures Online(second.fleet) != {} && ToRefill(second.fleet) == {}
  {
    es, seen := Exhausted();
    var first := Flush(ToRefill(seen.fleet));
    ExecSnoc(es, seen, first);
    second := Apply(seen, first);
    assert "worker-1" in Online(second.fleet);
  }
}
