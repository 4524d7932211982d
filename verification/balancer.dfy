// The load balancer's weighted round robin over the shared worker set.
module Balancer {
  import opened Fairness
  import opened Ledger
  import opened Wrappers
  import opened WorkerSets

  datatype Target = Target(name: string, ip: string, port: string)

  /** A flush that still has todo to visit. */
  ghost function FlushedBut(fleet: Fleet, todo: set<string>): Fleet {
    map n | n in fleet :: if n in todo then fleet[n] else Refilled(fleet[n])
  }

  /** How many workers such a flush has refilled. */
  ghost function RefillsBut(fleet: Fleet, todo: set<string>): nat {
    |ToRefill(fleet) - todo|
  }

  lemma FlushStart(fleet: Fleet)
    ensures FlushedBut(fleet, fleet.Keys) == fleet
    ensures RefillsBut(fleet, fleet.Keys) == 0
  {
  }

  lemma FlushOne(fleet: Fleet, todo: set<string>, n: string)
    requires n in todo && todo <= fleet.Keys
    ensures FlushedBut(fleet, todo)[n] == fleet[n]
    ensures FlushedBut(fleet, todo - {n}) == FlushedBut(fleet, todo)[n := Refilled(fleet[n])]
    ensures !Refillable(fleet[n]) ==> FlushedBut(fleet, todo - {n}) == FlushedBut(fleet, todo)
    ensures RefillsBut(fleet, todo - {n}) == RefillsBut(fleet, todo) + if Refillable(fleet[n]) then 1 else 0
  {
    if Refillable(fleet[n]) {
      assert ToRefill(fleet) - (todo - {n}) == (ToRefill(fleet) - todo) + {n};
    } else {
      assert ToRefill(fleet) - (todo - {n}) == ToRefill(fleet) - todo;
    }
  }

  lemma FlushEnd(fleet: Fleet)
    ensures FlushedBut(fleet, {}) == Flushed(fleet)
    ensures RefillsBut(fleet, {}) == |ToRefill(fleet)|
  {
  }

  /** A refill gives every worker some weight. */
  ghost predicate Weighted(fleet: Fleet) {
    forall n :: n in fleet ==> fleet[n].maxWeight > 0
  }

  /** After a flush either some worker can be picked, or there was nothing to refill and nothing changed. */
  lemma AfterFlush(fleet: Fleet)
    requires Weighted(fleet)
    requires forall n :: n in fleet ==> !Pickable(fleet[n])
    ensures ToRefill(fleet) == Online(fleet)
    ensures ToRefill(fleet) == {} ==> Flushed(fleet) == fleet
    ensures ToRefill(fleet) != {} ==> exists n :: n in Flushed(fleet) && Pickable(Flushed(fleet)[n])
    ensures Weighted(Flushed(fleet)) && Online(Flushed(fleet)) == Online(fleet)
  {
    if ToRefill(fleet) != {} {
      var n :| n in ToRefill(fleet);
      assert Pickable(Flushed(fleet)[n]);
    }
    assert ToRefill(fleet) == {} ==> forall n :: n in fleet ==> n !in ToRefill(fleet);
  }

  class LoadBalancer {
    const workerSet: WorkerSet
    var lastFlushCount: nat
    var flushChanged: bool

    constructor (workerSet: WorkerSet)
      ensures this.workerSet == workerSet
      ensures lastFlushCount == 0 && !flushChanged
    {
      this.workerSet := workerSet;
      lastFlushCount, flushChanged := 0, false;
    }

    /** The locked scan of distributeWorker, in whatever order the map yields its workers. */
    method TakeWorker(batchsize: int) returns (r: Option<Target>)
      requires workerSet.Valid()
      modifies workerSet`request, workerSet.workers.Values
      ensures workerSet.Valid()
      ensures r == None ==>
                && workerSet.Fleet() == old(workerSet.Fleet())
                && workerSet.request == old(workerSet.request)
                && forall n :: n in old(workerSet.Fleet()) ==> !Pickable(old(workerSet.Fleet())[n])
      ensures r.Some? ==>
                && TookFrom(old(workerSet.Fleet()), workerSet.Fleet(), batchsize, Some(r.value.name))
                && workerSet.request == old(workerSet.request) + batchsize
                && r.value.ip == workerSet.workers[r.value.name].ip
                && r.value.port == workerSet.workers[r.value.name].port
      ensures workerSet.Recorded() == old(workerSet.Recorded())
    {
      var workers := workerSet.workers;
      var todo := workers.Keys;
      while todo != {}
        invariant todo <= workers.Keys
        invariant unchanged(workerSet) && unchanged(workers.Values)
        invariant forall n :: n in workers && n !in todo ==> !Pickable(workers[n].View())
      {
        var n :| n in todo;
        todo := todo - {n};
        var w := workers[n];
        if !w.online {
          continue;
        }
        if w.weight > 0 {
          TakeFrom(w, n, batchsize);
          return Some(Target(w.name, w.ip, w.port));
        }
      }
      r := None;
    }

    method TakeFrom(w: TaskWorker, n: string, batchsize: int)
      requires workerSet.Valid()
      requires n in workerSet.workers && workerSet.workers[n] == w
      modifies workerSet`request, w
      ensures workerSet.Fleet() == old(workerSet.Fleet())[n := Picked(old(workerSet.Fleet())[n], batchsize)]
      ensures workerSet.Recorded() == old(workerSet.Recorded())
      ensures workerSet.request == old(workerSet.request) + batchsize
      ensures w.ip == old(w.ip) && w.port == old(w.port)
    {
      ghost var fleet, recorded := workerSet.Fleet(), workerSet.Recorded();
      w.Take(batchsize);
      OneChanged(workerSet.workers, n, fleet, recorded);
      workerSet.CountRequests(batchsize);
    }

    method Visit(n: string) returns (count: nat)
      requires workerSet.Valid()
      requires n in workerSet.workers
      modifies workerSet.workers[n]
      ensures workerSet.Fleet() == old(workerSet.Fleet())[n := Refilled(old(workerSet.Fleet())[n])]
      ensures workerSet.Recorded() == old(workerSet.Recorded())
      ensures count == if Refillable(old(workerSet.Fleet())[n]) then 1 else 0
    {
      ghost var fleet, recorded := workerSet.Fleet(), workerSet.Recorded();
      var w := workerSet.workers[n];
      count := 0;
      if w.online && w.weight <= 0 {
        w.Refill();
        count := 1;
      }
      OneChanged(workerSet.workers, n, fleet, recorded);
    }

    /** One turn of the flush: fleet is what the flush found, todo what it still has to visit. */
    method VisitNext(ghost fleet: Fleet, todo: set<string>, flushCount: nat) returns (rest: set<string>, count: nat)
      requires workerSet.Valid()
      requires todo != {} && todo <= workerSet.workers.Keys == fleet.Keys
      requires workerSet.Fleet() == FlushedBut(fleet, todo)
      requires flushCount == RefillsBut(fleet, todo)
      modifies workerSet.workers.Values
      ensures rest < todo && |rest| < |todo|
      ensures workerSet.Fleet() == FlushedBut(fleet, rest)
      ensures workerSet.Recorded() == old(workerSet.Recorded())
      ensures count == RefillsBut(fleet, rest)
    {
      var n :| n in todo;
      FlushOne(fleet, todo, n);
      assert workerSet.Fleet()[n] == fleet[n];
      assert workerSet.workers[n] in workerSet.workers.Values;
      var refilled := Visit(n);
      rest := todo - {n};
      count := flushCount + refilled;
    }

    method RefillAll() returns (flushCount: nat)
      requires workerSet.Valid()
      modifies workerSet.workers.Values
      ensures workerSet.Fleet() == Flushed(old(workerSet.Fleet()))
      ensures workerSet.Recorded() == old(workerSet.Recorded())
      ensures flushCount == |ToRefill(old(workerSet.Fleet()))|
    {
      ghost var fleet := workerSet.Fleet();
      var todo := workerSet.workers.Keys;
      flushCount := 0;
      assert todo == fleet.Keys;
      FlushStart(fleet);
      while todo != {}
        decreases |todo|
        invariant todo <= workerSet.workers.Keys
        invariant workerSet.workers.Keys == fleet.Keys
        invariant workerSet.Fleet() == FlushedBut(fleet, todo)
        invariant workerSet.Recorded() == old(workerSet.Recorded())
        invariant flushCount == RefillsBut(fleet, todo)
      {
        todo, flushCount := VisitNext(fleet, todo, flushCount);
      }
      FlushEnd(fleet);
    }

    method FlushWorkerSetWeight() returns (flushCount: nat)
      requires workerSet.Valid()
      modifies this, workerSet.workers.Values
      ensures workerSet.Fleet() == Flushed(old(workerSet.Fleet()))
      ensures workerSet.Recorded() == old(workerSet.Recorded())
      ensures flushCount == |ToRefill(old(workerSet.Fleet()))|
      ensures lastFlushCount == flushCount && flushChanged == (flushCount != old(lastFlushCount))
    {
      flushCount := RefillAll();
      label refilled:
      flushChanged := flushCount != lastFlushCount;
      lastFlushCount := flushCount;
      assert unchanged@refilled(workerSet) && unchanged@refilled(workerSet.workers.Values);
    }

    /** Taken alone, a call picks an online worker, refilling weights at most once, or fails because none is online. */
    method DistributeWorker(batchsize: int) returns (r: Option<Target>)
      requires workerSet.Valid()
      requires Weighted(workerSet.Fleet())
      modifies this, workerSet`request, workerSet.workers.Values
      ensures workerSet.Valid()
      ensures Dispatched(old(workerSet.Fleet()), workerSet.Fleet(), batchsize,
                if r.Some? then Some(r.value.name) else None)
      ensures r == None <==> Online(old(workerSet.Fleet())) == {}
      ensures r.Some? ==>
                && r.value.name in workerSet.workers
                && r.value.ip == workerSet.workers[r.value.name].ip
                && r.value.port == workerSet.workers[r.value.name].port
      ensures workerSet.request == old(workerSet.request) + if r.Some? then batchsize else 0
      ensures workerSet.Recorded() == old(workerSet.Recorded())
      decreases if exists n :: n in workerSet.Fleet() && Pickable(workerSet.Fleet()[n]) then 0 else 1
    {
      ghost var fleet := workerSet.Fleet();
      r := TakeWorker(batchsize);
      if r.Some? {
        FailsOnlyWhenNothingIsOnline(fleet, workerSet.Fleet(), batchsize, Some(r.value.name));
        return;
      }
      var flushCount := FlushWorkerSetWeight();
      AfterFlush(fleet);
      if flushCount <= 0 {
        return None;
      }
      r := DistributeWorker(batchsize);
    }

    /** The worker must still be registered when its batch reports back. */
    method FinishWorker(workerName: string, batchsize: int, latency: int)
      requires workerSet.Valid()
      requires workerName in workerSet.workers
      modifies workerSet`throughput, workerSet.workers[workerName]
      ensures workerSet.throughput == old(workerSet.throughput) + batchsize
      ensures workerSet.Fleet() ==
              old(workerSet.Fleet())[workerName := Finished(old(workerSet.Fleet())[workerName], latency)]
      ensures workerSet.Recorded() == old(workerSet.Recorded())
    {
      workerSet.CountThroughput(batchsize);
      ghost var fleet, recorded := workerSet.Fleet(), workerSet.Recorded();
      workerSet.workers[workerName].Report(latency);
      OneChanged(workerSet.workers, workerName, fleet, recorded);
    }
  }
}
