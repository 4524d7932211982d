// The autoscaler's tick on the shared worker set.
module Scalar {
  import opened Autoscaler
  import opened Config
  import opened Ledger
  import opened Pods
  import opened RecordLog
  import opened Sums
  import opened Wrappers
  import opened WorkerSets
  import Reconcile

  // ----- the locked scan -----

  /** What the scan adds up over the online workers. */
  datatype Tally = Tally(online: nat, latency: int, batch: int, capacity: real, saturated: bool)

  function Counted(t: Tally, w: Worker): Tally
    requires w.maxBatch > 0
  {
    if !w.online then t
    else Tally(
      t.online + 1,
      t.latency + w.avegLatency,
      t.batch + (if w.workCount > 0 then TruncDiv(w.accBatch, w.workCount) else w.maxBatch),
      t.capacity + w.capacity,
      t.saturated || Saturated(w))
  }

  /** A scan that still has todo to visit. */
  ghost function DrainedBut(fleet: Fleet, todo: set<string>): Fleet {
    map n | n in fleet :: if n in todo then fleet[n] else Scanned(fleet[n])
  }

  /** The tally of the workers visited so far. */
  ghost predicate Tallied(fleet: Fleet, todo: set<string>, t: Tally) {
    && t.online == |Online(fleet) - todo|
    && t.latency == IntSum(Latencies(fleet) - todo)
    && t.batch == IntSum(Batches(fleet) - todo)
    && t.capacity == Sum(Capacities(fleet) - todo)
    && (t.saturated <==> SaturatedBut(fleet, todo))
  }

  ghost predicate SaturatedBut(fleet: Fleet, todo: set<string>) {
    exists n :: n in fleet && n !in todo && fleet[n].maxBatch > 0 && Saturated(fleet[n])
  }

  /** The issued capacity such a scan has left. */
  ghost function KeptBut(fleet: Fleet, issued: map<string, real>, todo: set<string>): map<string, real> {
    issued - (Online(fleet) - todo)
  }

  ghost predicate Batched(fleet: Fleet) {
    forall n :: n in fleet ==> fleet[n].maxBatch > 0
  }

  lemma ScanStart(fleet: Fleet, issued: map<string, real>)
    ensures KeptBut(fleet, issued, fleet.Keys) == issued
    ensures DrainedBut(fleet, fleet.Keys) == fleet
    ensures Tallied(fleet, fleet.Keys, Tally(0, 0, 0, 0.0, false))
  {
    assert Online(fleet) - fleet.Keys == {};
    assert issued - {} == issued;
    assert Latencies(fleet) - fleet.Keys == map[];
    assert Batches(fleet) - fleet.Keys == map[];
    assert Capacities(fleet) - fleet.Keys == map[];
  }

  lemma CountOne(fleet: Fleet, todo: set<string>, n: string)
    requires n in todo && todo <= fleet.Keys
    ensures |Online(fleet) - (todo - {n})| == |Online(fleet) - todo| + if fleet[n].online then 1 else 0
  {
    if fleet[n].online {
      assert Online(fleet) - (todo - {n}) == (Online(fleet) - todo) + {n};
    } else {
      assert Online(fleet) - (todo - {n}) == Online(fleet) - todo;
    }
  }

  lemma IntOne(m: map<string, int>, todo: set<string>, n: string)
    requires n in todo
    ensures IntSum(m - (todo - {n})) == IntSum(m - todo) + if n in m then m[n] else 0
  {
    if n in m {
      assert m - (todo - {n}) == (m - todo)[n := m[n]];
      IntSumAdd(m - todo, n, m[n]);
    } else {
      assert m - (todo - {n}) == m - todo;
    }
  }

  lemma RealOne(m: map<string, real>, todo: set<string>, n: string)
    requires n in todo
    ensures Sum(m - (todo - {n})) == Sum(m - todo) + if n in m then m[n] else 0.0
  {
    if n in m {
      assert m - (todo - {n}) == (m - todo)[n := m[n]];
      SumAdd(m - todo, n, m[n]);
    } else {
      assert m - (todo - {n}) == m - todo;
    }
  }

  lemma SaturatedOne(fleet: Fleet, todo: set<string>, n: string)
    requires n in todo && todo <= fleet.Keys
    requires fleet[n].maxBatch > 0
    ensures SaturatedBut(fleet, todo - {n}) <==> SaturatedBut(fleet, todo) || Saturated(fleet[n])
  {
  }

  lemma ScanOne(fleet: Fleet, todo: set<string>, n: string, t: Tally)
    requires n in todo && todo <= fleet.Keys
    requires fleet[n].maxBatch > 0
    requires Tallied(fleet, todo, t)
    ensures Tallied(fleet, todo - {n}, Counted(t, fleet[n]))
  {
    CountOne(fleet, todo, n);
    IntOne(Latencies(fleet), todo, n);
    IntOne(Batches(fleet), todo, n);
    RealOne(Capacities(fleet), todo, n);
    SaturatedOne(fleet, todo, n);
  }

  lemma DrainOne(fleet: Fleet, todo: set<string>, n: string)
    requires n in todo && todo <= fleet.Keys
    ensures DrainedBut(fleet, todo)[n] == fleet[n]
    ensures DrainedBut(fleet, todo - {n}) ==
            if fleet[n].online then DrainedBut(fleet, todo)[n := Scanned(fleet[n])] else DrainedBut(fleet, todo)
  {
  }

  lemma KeepOne(fleet: Fleet, issued: map<string, real>, todo: set<string>, n: string)
    requires n in todo && todo <= fleet.Keys
    ensures KeptBut(fleet, issued, todo - {n}) ==
            if fleet[n].online then KeptBut(fleet, issued, todo) - {n} else KeptBut(fleet, issued, todo)
  {
  }

  lemma ScanEnd(fleet: Fleet, issued: map<string, real>)
    ensures DrainedBut(fleet, {}) == Drained(fleet)
    ensures KeptBut(fleet, issued, {}) == issued - Online(fleet)
  {
  }

  lemma TallyEnd(fleet: Fleet, t: Tally)
    requires Tallied(fleet, {}, t)
    ensures t.online == |Online(fleet)|
    ensures t.latency == IntSum(Latencies(fleet)) && t.batch == IntSum(Batches(fleet))
    ensures t.capacity == Sum(Capacities(fleet))
    ensures t.saturated <==> AnySaturated(fleet)
  {
    assert Online(fleet) - {} == Online(fleet);
    assert Latencies(fleet) - {} == Latencies(fleet);
    assert Batches(fleet) - {} == Batches(fleet);
    assert Capacities(fleet) - {} == Capacities(fleet);
  }

  // ----- the scale loop -----

  /** The fleet and the issued capacity after the workers added were asked for and obtained. */
  ghost predicate Grown(fleet: Fleet, kept: map<string, real>, added: set<string>,
      now: Fleet, issued: map<string, real>) {
    && added !! fleet.Keys
    && added !! kept.Keys
    && now == fleet + NewWorkers(added)
    && issued == kept + Credits(added)
  }

  lemma GrowStart(fleet: Fleet, kept: map<string, real>)
    ensures Grown(fleet, kept, {}, fleet, kept)
  {
  }

  lemma GrowOne(fleet: Fleet, kept: map<string, real>, added: set<string>,
      now: Fleet, issued: map<string, real>, n: string)
    requires Grown(fleet, kept, added, now, issued)
    requires n !in now && n !in issued
    ensures Grown(fleet, kept, added + {n}, now[n := NewWorker()], issued[n := CAPACITY])
    ensures Sum(issued[n := CAPACITY]) == Sum(issued) + CAPACITY
  {
    assert now[n := NewWorker()] == fleet + NewWorkers(added + {n});
    assert issued[n := CAPACITY] == kept + Credits(added + {n});
    SumAdd(issued, n, CAPACITY);
  }

  lemma AddedSize(added: set<string>, n: string)
    requires n !in added
    ensures |added + {n}| == |added| + 1
  {
  }

  lemma NoneAdded(fleet: Fleet, kept: map<string, real>, added: set<string>, now: Fleet, issued: map<string, real>)
    requires Grown(fleet, kept, added, now, issued)
    requires |added| == 0
    ensures added == {} && now == fleet && issued == kept
  {
  }

  lemma OneRecorded(added: set<string>, now: map<string, Record>, n: string, r: Record)
    requires n !in now
    ensures now[n := r] - (added + {n}) == now - added
  {
  }

  // ----- the tick as a whole -----

  /** The estimate of the next intensity from the present one and its trend. */
  function Estimated(capacity: real, request: int, lastIntensity: real): Report {
    var interval := Seconds(TICK_INTERVAL);
    var thisIntensity := request as real / interval;
    var diffIntensitySpeed := (thisIntensity - lastIntensity) / interval;
    var diffIntensity := diffIntensitySpeed * Seconds(ISSUE_LATENCY);
    Report(capacity, thisIntensity, diffIntensity, thisIntensity + diffIntensity, {}, false, None)
  }

  lemma MeasuresEstimated(s: Sched, e: Report, added: set<string>, failed: bool, shrunk: Option<string>)
    requires e == Estimated(CapacityOf(s.fleet), s.request, s.last)
    ensures Measures(s, e.(added := added, failed := failed, shrunk := shrunk))
  {
  }

  lemma SpareHasWorker(fleet: Fleet, capacity: real, intensity: real)
    requires Spare(capacity, |Online(fleet)|, intensity)
    ensures fleet.Keys != {}
  {
  }

  lemma TickWithoutShrink(s: Sched, r: Report, t: Sched, total: real)
    requires Measures(s, r) && r.shrunk == None
    requires Grown(Drained(s.fleet), s.issued - Online(s.fleet), r.added, t.fleet, t.issued)
    requires t.request == 0 && t.last == r.intensity
    requires total == r.capacity + Sum(t.issued)
    requires r.failed <==> total < r.next
    requires r.added != {} ==> total - CAPACITY < r.next
    requires !(!r.failed && r.added == {} && r.diff <= 0.0 && Spare(r.capacity, |Online(s.fleet)|, r.intensity))
    ensures Tick(s, r, t)
  {
  }

  lemma TickWithShrink(s: Sched, r: Report, t: Sched, n: string)
    requires Measures(s, r) && r.shrunk == Some(n) && n in s.fleet
    requires t.fleet == Drained(s.fleet)[n := Drained(s.fleet)[n].(online := false)]
    requires t.issued == s.issued - Online(s.fleet)
    requires t.request == 0 && t.last == r.intensity
    requires !r.failed && r.capacity + Sum(t.issued) >= r.next
    requires r.added == {} && r.diff <= 0.0 && Spare(r.capacity, |Online(s.fleet)|, r.intensity)
    ensures Tick(s, r, t)
  {
  }

  lemma CapacityFrom(fleet: Fleet, t: Tally, capacity: real)
    requires t.online == |Online(fleet)|
    requires t.latency == IntSum(Latencies(fleet)) && t.batch == IntSum(Batches(fleet))
    requires t.capacity == Sum(Capacities(fleet))
    requires t.saturated <==> AnySaturated(fleet)
    requires capacity == if t.online == 0 then 0.0
                         else if !t.saturated then t.capacity
                         else SaturatedCapacity(t.batch, t.latency, t.online)
    ensures capacity == CapacityOf(fleet)
  {
  }

  /** The issued capacity before a tick adds to it. */
  ghost function IssuedBefore(s: Sched, capacity: real): real {
    capacity + Sum(s.issued - Online(s.fleet))
  }

  /** What a tick that did not fail tells the log. */
  function TickEntries(period: real, issuedCapacity: real, r: Report, format: real -> string): seq<Entry> {
    [Common("second", format(period)),
     Common("capacity", format(r.capacity)),
     Common("issuedCapacity", format(issuedCapacity)),
     Common("intensity", format(r.intensity)),
     Entry.End]
  }

  /** The lines of a tick, appended to any complete file, parse back to what the tick told. */
  lemma TickParses(file: string, period: real, issuedCapacity: real, r: Report, format: real -> string)
    requires Complete(file)
    requires forall x :: Clean(format(x))
    ensures Parse(file + PrintAll(TickEntries(period, issuedCapacity, r, format))) ==
            Parse(file) + [Common("second", format(period)),
                           Common("capacity", format(r.capacity)),
                           Common("issuedCapacity", format(issuedCapacity)),
                           Common("intensity", format(r.intensity)),
                           Entry.End]
  {
    CleanNames();
    AppendRoundTrip(file, TickEntries(period, issuedCapacity, r, format));
  }

  lemma CleanNames()
    ensures Clean("second") && Clean("capacity") && Clean("issuedCapacity") && Clean("intensity")
  {
  }

  class WorkerScalar {
    const workerSet: WorkerSet
    const recorder: Recorder
    var lastIntensity: real
    var issuedCapacitys: map<string, real>
    var recordPeriod: real

    ghost predicate Valid()
      reads this, workerSet
    {
      && workerSet.Valid()
      && workerSet.Named()
      && Unused(issuedCapacitys.Keys, workerSet.workerCounter)
    }

    ghost function View(): Sched
      reads this, workerSet, workerSet.workers.Values
    {
      Sched(workerSet.Fleet(), workerSet.request, issuedCapacitys, lastIntensity)
    }

    constructor (workerSet: WorkerSet, recorder: Recorder)
      ensures this.workerSet == workerSet && this.recorder == recorder
      ensures lastIntensity == 0.0 && issuedCapacitys == map[] && recordPeriod == 0.0
    {
      this.workerSet, this.recorder := workerSet, recorder;
      lastIntensity, issuedCapacitys, recordPeriod := 0.0, map[], 0.0;
    }

    /** An online worker's counters start again, and it is no longer awaited. */
    method Reset(n: string)
      requires workerSet.Valid()
      requires n in workerSet.workers && workerSet.workers[n].online
      modifies this`issuedCapacitys, workerSet.workers[n]
      ensures workerSet.Fleet() == old(workerSet.Fleet())[n := Scanned(old(workerSet.Fleet())[n])]
      ensures workerSet.Recorded() == old(workerSet.Recorded())
      ensures issuedCapacitys == old(issuedCapacitys) - {n}
    {
      ghost var fleet, recorded := workerSet.Fleet(), workerSet.Recorded();
      workerSet.workers[n].ResetCounters();
      OneChanged(workerSet.workers, n, fleet, recorded);
      Forget(n);
    }

    method Forget(n: string)
      modifies this`issuedCapacitys
      ensures issuedCapacitys == old(issuedCapacitys) - {n}
      ensures workerSet.Fleet() == old(workerSet.Fleet()) && workerSet.Recorded() == old(workerSet.Recorded())
    {
      issuedCapacitys := issuedCapacitys - {n};
    }

    /** One turn of the scan: fleet and issued are what it found, todo what it still has to visit. */
    method VisitNext(ghost fleet: Fleet, ghost issued: map<string, real>, todo: set<string>, t: Tally)
        returns (rest: set<string>, t': Tally)
      requires workerSet.Valid()
      requires Batched(fleet)
      requires todo != {} && todo <= workerSet.workers.Keys == fleet.Keys
      requires workerSet.Fleet() == DrainedBut(fleet, todo)
      requires issuedCapacitys == KeptBut(fleet, issued, todo)
      requires Tallied(fleet, todo, t)
      modifies this`issuedCapacitys, workerSet.workers.Values
      ensures rest < todo
      ensures workerSet.Fleet() == DrainedBut(fleet, rest)
      ensures workerSet.Recorded() == old(workerSet.Recorded())
      ensures issuedCapacitys == KeptBut(fleet, issued, rest)
      ensures Tallied(fleet, rest, t')
    {
      var n :| n in todo;
      var w := workerSet.workers[n];
      DrainOne(fleet, todo, n);
      KeepOne(fleet, issued, todo, n);
      assert w.View() == fleet[n];
      ScanOne(fleet, todo, n, t);
      rest := todo - {n};
      t' := Counted(t, w.View());
      assert w in workerSet.workers.Values;
      if w.online {
        Reset(n);
      }
    }

    /** The locked part of a tick, in whatever order the map yields its workers. */
    method Scan() returns (t: Tally, request: int)
      requires Valid()
      requires Batched(workerSet.Fleet())
      modifies this`issuedCapacitys, workerSet`request, workerSet`throughput, workerSet.workers.Values
      ensures Valid()
      ensures workerSet.Fleet() == Drained(old(workerSet.Fleet()))
      ensures workerSet.Recorded() == old(workerSet.Recorded())
      ensures issuedCapacitys == old(issuedCapacitys) - Online(old(workerSet.Fleet()))
      ensures request == old(workerSet.request) && workerSet.request == 0 && workerSet.throughput == 0
      ensures Tallied(old(workerSet.Fleet()), {}, t)
    {
      t := ScanAll();
      request := workerSet.DrainRequests();
    }

    method ScanAll() returns (t: Tally)
      requires workerSet.Valid()
      requires Batched(workerSet.Fleet())
      modifies this`issuedCapacitys, workerSet.workers.Values
      ensures workerSet.Fleet() == Drained(old(workerSet.Fleet()))
      ensures workerSet.Recorded() == old(workerSet.Recorded())
      ensures issuedCapacitys == old(issuedCapacitys) - Online(old(workerSet.Fleet()))
      ensures Tallied(old(workerSet.Fleet()), {}, t)
    {
      ghost var fleet, issued := workerSet.Fleet(), issuedCapacitys;
      assert workerSet.workers.Keys == fleet.Keys;
      ScanStart(fleet, issued);
      t := ScanLoop(fleet, issued);
      ScanEnd(fleet, issued);
    }

    method ScanLoop(ghost fleet: Fleet, ghost issued: map<string, real>) returns (t: Tally)
      requires workerSet.Valid()
      requires Batched(fleet)
      requires workerSet.workers.Keys == fleet.Keys
      requires workerSet.Fleet() == DrainedBut(fleet, fleet.Keys)
      requires issuedCapacitys == KeptBut(fleet, issued, fleet.Keys)
      requires Tallied(fleet, fleet.Keys, Tally(0, 0, 0, 0.0, false))
      modifies this`issuedCapacitys, workerSet.workers.Values
      ensures workerSet.Fleet() == DrainedBut(fleet, {})
      ensures workerSet.Recorded() == old(workerSet.Recorded())
      ensures issuedCapacitys == KeptBut(fleet, issued, {})
      ensures Tallied(fleet, {}, t)
    {
      var todo := workerSet.workers.Keys;
      t := Tally(0, 0, 0, 0.0, false);
      while todo != {}
        decreases todo
        invariant todo <= fleet.Keys
        invariant workerSet.Fleet() == DrainedBut(fleet, todo)
        invariant workerSet.Recorded() == old(workerSet.Recorded())
        invariant issuedCapacitys == KeptBut(fleet, issued, todo)
        invariant Tallied(fleet, todo, t)
      {
        todo, t := VisitNext(fleet, issued, todo, t);
      }
    }

    // ----- scaling up and down -----

    /** Asks for one worker; applied answers for the API server. */
    method Scale(applied: bool) returns (r: Option<(string, real)>)
      requires Valid()
      modifies workerSet`workers, workerSet`ports, workerSet`workerCounter
      ensures Valid()
      ensures r.Some? <==> old(workerSet.ports) != [] && applied
      ensures workerSet.ports ==
              if old(workerSet.ports) == [] then [] else old(workerSet.ports)[..|old(workerSet.ports)| - 1]
      ensures r == None ==>
                && workerSet.Fleet() == old(workerSet.Fleet())
                && workerSet.Recorded() == old(workerSet.Recorded())
                && workerSet.workers == old(workerSet.workers)
      ensures r.Some? ==>
                && r.value.0 !in old(workerSet.Fleet())
                && r.value.0 !in issuedCapacitys
                && Unused(issuedCapacitys.Keys + {r.value.0}, workerSet.workerCounter)
                && r.value.1 == CAPACITY
                && workerSet.Fleet() == old(workerSet.Fleet())[r.value.0 := NewWorker()]
                && r.value.0 in workerSet.workers
                && workerSet.Recorded() == old(workerSet.Recorded())[r.value.0 := workerSet.Recorded()[r.value.0]]
                && Built(workerSet.samplePod, r.value.0, old(workerSet.ports)[|old(workerSet.ports)| - 1], 1,
                         workerSet.workers[r.value.0].pod)
    {
      UseName(issuedCapacitys.Keys, workerSet.workerCounter);
      r := workerSet.AddWorker(1, applied);
      assert r.Some? ==> workerSet.Recorded()[r.value.0] == workerSet.workers[r.value.0].Noted();
    }

    /** Takes some registered worker offline. */
    method Shrink() returns (n: string)
      requires Valid()
      requires workerSet.workers != map[]
      modifies workerSet.workers.Values
      ensures n in old(workerSet.Fleet())
      ensures workerSet.Recorded() == old(workerSet.Recorded())
      ensures workerSet.Fleet() == old(workerSet.Fleet())[n := old(workerSet.Fleet())[n].(online := false)]
    {
      n :| n in workerSet.workers.Keys;
      assert workerSet.workers[n] in workerSet.workers.Values;
      var _ := workerSet.DeleteWorker(n);
    }

    method SumIssued(capacity: real) returns (total: real)
      ensures total == capacity + Sum(issuedCapacitys)
    {
      total := capacity;
      var todo := issuedCapacitys.Keys;
      assert issuedCapacitys - todo == map[];
      while todo != {}
        invariant todo <= issuedCapacitys.Keys
        invariant total == capacity + Sum(issuedCapacitys - todo)
      {
        var n :| n in todo;
        RealOne(issuedCapacitys, todo, n);
        total := total + issuedCapacitys[n];
        todo := todo - {n};
      }
      assert issuedCapacitys - todo == issuedCapacitys;
    }

    method Note(n: string, capacity: real)
      modifies this`issuedCapacitys
      ensures issuedCapacitys == old(issuedCapacitys)[n := capacity]
      ensures workerSet.Fleet() == old(workerSet.Fleet()) && workerSet.Recorded() == old(workerSet.Recorded())
    {
      issuedCapacitys := issuedCapacitys[n := capacity];
    }

    /** One turn of the scale loop: a worker that was obtained is noted at once. */
    method ScaleOnce(applied: bool) returns (r: Option<(string, real)>)
      requires Valid()
      modifies this`issuedCapacitys, workerSet`workers, workerSet`ports, workerSet`workerCounter
      ensures Valid()
      ensures r.Some? <==> old(workerSet.ports) != [] && applied
      ensures r.Some? ==> |workerSet.ports| == |old(workerSet.ports)| - 1
      ensures r == None ==>
                && workerSet.Fleet() == old(workerSet.Fleet())
                && workerSet.Recorded() == old(workerSet.Recorded())
                && workerSet.workers == old(workerSet.workers)
                && issuedCapacitys == old(issuedCapacitys)
      ensures r.Some? ==>
                && r.value.0 !in old(workerSet.Fleet())
                && r.value.0 !in old(issuedCapacitys)
                && r.value.1 == CAPACITY
                && workerSet.Fleet() == old(workerSet.Fleet())[r.value.0 := NewWorker()]
                && issuedCapacitys == old(issuedCapacitys)[r.value.0 := CAPACITY]
                && r.value.0 in workerSet.workers
                && workerSet.Recorded() == old(workerSet.Recorded())[r.value.0 := workerSet.Recorded()[r.value.0]]
    {
      r := Scale(applied);
      if r.Some? {
        Note(r.value.0, r.value.1);
      }
    }

    /** The same turn, on the way from fleet and kept by the workers added so far. */
    method GrowNext(ghost fleet: Fleet, ghost kept: map<string, real>, ghost records: map<string, Record>,
                    added: set<string>, applied: bool) returns (r: Option<(string, real)>)
      requires Valid()
      requires workerSet.Recorded() - added == records
      requires Grown(fleet, kept, added, workerSet.Fleet(), issuedCapacitys)
      modifies this`issuedCapacitys, workerSet`workers, workerSet`ports, workerSet`workerCounter
      ensures Valid()
      ensures r.Some? <==> old(workerSet.ports) != [] && applied
      ensures r.Some? ==> |workerSet.ports| == |old(workerSet.ports)| - 1
      ensures r == None ==>
                && workerSet.workers == old(workerSet.workers)
                && workerSet.Recorded() - added == records
                && issuedCapacitys == old(issuedCapacitys)
                && Grown(fleet, kept, added, workerSet.Fleet(), issuedCapacitys)
      ensures r.Some? ==>
                && r.value.1 == CAPACITY
                && |added + {r.value.0}| == |added| + 1
                && Grown(fleet, kept, added + {r.value.0}, workerSet.Fleet(), issuedCapacitys)
                && Sum(issuedCapacitys) == Sum(old(issuedCapacitys)) + CAPACITY
                && workerSet.Recorded() - (added + {r.value.0}) == records
    {
      ghost var now, issued, recorded := workerSet.Fleet(), issuedCapacitys, workerSet.Recorded();
      r := ScaleOnce(applied);
      if r.Some? {
        GrowOne(fleet, kept, added, now, issued, r.value.0);
        OneRecorded(added, recorded, r.value.0, workerSet.Recorded()[r.value.0]);
        AddedSize(added, r.value.0);
      }
    }

    /** Asks for workers until the issued capacity covers the estimate or one cannot be had. Each worker
        takes a port, so the loop ends; applied tells which pods the API server accepts. It fails only when
        the ports are used up or the last pod is refused. */
    method Grow(issuedCapacity: real, next: real, applied: nat -> bool)
        returns (added: set<string>, scaleCount: nat, failed: bool, total: real)
      requires Valid()
      modifies this`issuedCapacitys, workerSet`workers, workerSet`ports, workerSet`workerCounter
      ensures Valid()
      ensures Grown(old(workerSet.Fleet()), old(issuedCapacitys), added, workerSet.Fleet(), issuedCapacitys)
      ensures total - issuedCapacity == Sum(issuedCapacitys) - Sum(old(issuedCapacitys))
      ensures failed <==> total < next
      ensures added != {} ==> total - CAPACITY < next
      ensures scaleCount == |added|
      ensures scaleCount <= |old(workerSet.ports)|
      ensures failed ==> scaleCount == |old(workerSet.ports)| || !applied(scaleCount)
      ensures scaleCount == 0 ==> workerSet.workers == old(workerSet.workers)
      ensures workerSet.Recorded() - added == old(workerSet.Recorded())
    {
      ghost var fleet, kept := workerSet.Fleet(), issuedCapacitys;
      ghost var records := workerSet.Recorded();
      added, scaleCount, failed, total := {}, 0, false, issuedCapacity;
      GrowStart(fleet, kept);
      assert records - {} == records;
      while !failed && total < next
        invariant Valid()
        invariant failed ==> total < next
        invariant Grown(fleet, kept, added, workerSet.Fleet(), issuedCapacitys)
        invariant total - issuedCapacity == Sum(issuedCapacitys) - Sum(kept)
        invariant added != {} ==> total - CAPACITY < next
        invariant scaleCount == |added|
        invariant scaleCount <= |old(workerSet.ports)|
        invariant if failed then scaleCount == |old(workerSet.ports)| || !applied(scaleCount)
                  else scaleCount + |workerSet.ports| == |old(workerSet.ports)|
        invariant scaleCount == 0 ==> workerSet.workers == old(workerSet.workers)
        invariant workerSet.Recorded() - added == records
        decreases !failed, |old(workerSet.ports)| - scaleCount
      {
        var r := GrowNext(fleet, kept, records, added, applied(scaleCount));
        if r.Some? {
          added := added + {r.value.0};
          total := total + r.value.1;
          scaleCount := scaleCount + 1;
        } else {
          failed := true;
        }
      }
    }

    /** The locked scan and the arithmetic on what it found. */
    method Measure() returns (onlineCount: nat, r: Report)
      requires Valid()
      requires Batched(workerSet.Fleet())
      modifies this`issuedCapacitys, workerSet`request, workerSet`throughput, workerSet.workers.Values
      ensures Valid()
      ensures workerSet.Fleet() == Drained(old(workerSet.Fleet()))
      ensures issuedCapacitys == old(issuedCapacitys) - Online(old(workerSet.Fleet()))
      ensures workerSet.request == 0
      ensures workerSet.Recorded() == old(workerSet.Recorded())
      ensures onlineCount == |Online(old(workerSet.Fleet()))|
      ensures r == Estimated(CapacityOf(old(workerSet.Fleet())), old(workerSet.request), lastIntensity)
    {
      ghost var fleet := workerSet.Fleet();
      var t, request := Scan();
      TallyEnd(fleet, t);
      var capacity := 0.0;
      if t.online > 0 {
        if !t.saturated {
          capacity := t.capacity;
        } else {
          capacity := SaturatedCapacity(t.batch, t.latency, t.online);
        }
      }
      CapacityFrom(fleet, t, capacity);
      onlineCount := t.online;
      r := Estimated(capacity, request, lastIntensity);
    }

    /** Everything up to the scale loop. */
    method Plan() returns (onlineCount: nat, r: Report, issuedCapacity: real)
      requires Valid()
      requires Batched(workerSet.Fleet())
      modifies this`issuedCapacitys, this`lastIntensity, workerSet`request, workerSet`throughput,
        workerSet.workers.Values
      ensures Valid()
      ensures workerSet.Fleet() == Drained(old(workerSet.Fleet()))
      ensures issuedCapacitys == old(issuedCapacitys) - Online(old(workerSet.Fleet()))
      ensures workerSet.request == 0
      ensures workerSet.Recorded() == old(workerSet.Recorded())
      ensures onlineCount == |Online(old(workerSet.Fleet()))|
      ensures r == Estimated(CapacityOf(old(workerSet.Fleet())), old(workerSet.request), old(lastIntensity))
      ensures lastIntensity == r.intensity
      ensures issuedCapacity == r.capacity + Sum(issuedCapacitys)
    {
      onlineCount, r := Measure();
      label measured:
      issuedCapacity := SumIssued(r.capacity);
      lastIntensity := r.intensity;
      assert unchanged@measured(workerSet) && unchanged@measured(workerSet.workers.Values);
    }

    /** Some worker goes offline, in a tick that added none. */
    method ShrinkBy1(ghost s: Sched, estimate: Report) returns (r: Report)
      requires Valid()
      requires workerSet.Fleet() == Drained(s.fleet)
      requires issuedCapacitys == s.issued - Online(s.fleet)
      requires workerSet.request == 0 && lastIntensity == estimate.intensity
      requires estimate == Estimated(CapacityOf(s.fleet), s.request, s.last)
      requires estimate.diff <= 0.0 && Spare(estimate.capacity, |Online(s.fleet)|, estimate.intensity)
      requires estimate.capacity + Sum(issuedCapacitys) >= estimate.next
      modifies workerSet.workers.Values
      ensures Valid()
      ensures Tick(s, r, View()) && r.added == {} && !r.failed && r.capacity == estimate.capacity
      ensures workerSet.Recorded() == old(workerSet.Recorded())
    {
      SpareHasWorker(s.fleet, estimate.capacity, estimate.intensity);
      assert workerSet.workers != map[] by {
        assert workerSet.Fleet().Keys == s.fleet.Keys;
      }
      var n := Shrink();
      r := estimate.(added := {}, failed := false, shrunk := Some(n));
      MeasuresEstimated(s, estimate, {}, false, Some(n));
      assert n in s.fleet;
      TickWithShrink(s, r, View(), n);
    }

    /** The tick up to the decision to shrink. */
    method PlanAndGrow(applied: nat -> bool)
        returns (onlineCount: nat, estimate: Report, issuedCapacity: real,
                 added: set<string>, failed: bool, total: real)
      requires Valid()
      requires Batched(workerSet.Fleet())
      modifies this`issuedCapacitys, this`lastIntensity, workerSet`request, workerSet`throughput,
        workerSet`workers, workerSet`ports, workerSet`workerCounter, workerSet.workers.Values
      ensures Valid()
      ensures workerSet.request == 0 && lastIntensity == estimate.intensity
      ensures onlineCount == |Online(old(workerSet.Fleet()))|
      ensures estimate == Estimated(CapacityOf(old(workerSet.Fleet())), old(workerSet.request), old(lastIntensity))
      ensures Grown(Drained(old(workerSet.Fleet())), old(issuedCapacitys) - Online(old(workerSet.Fleet())),
                added, workerSet.Fleet(), issuedCapacitys)
      ensures issuedCapacity == estimate.capacity + Sum(old(issuedCapacitys) - Online(old(workerSet.Fleet())))
      ensures total == estimate.capacity + Sum(issuedCapacitys)
      ensures failed <==> total < estimate.next
      ensures added != {} ==> total - CAPACITY < estimate.next
      ensures added == {} ==> workerSet.workers == old(workerSet.workers)
      ensures workerSet.Recorded() - added == old(workerSet.Recorded())
      ensures |added| <= |old(workerSet.ports)|
      ensures failed ==> |added| == |old(workerSet.ports)| || !applied(|added|)
    {
      var scaleCount;
      onlineCount, estimate, issuedCapacity := Plan();
      added, scaleCount, failed, total := Grow(issuedCapacity, estimate.next, applied);
    }

    /** The decision to shrink, which ends the tick that began in s. */
    method Conclude(ghost s: Sched, onlineCount: nat, estimate: Report, added: set<string>, failed: bool,
                    ghost total: real)
        returns (r: Report)
      requires Valid()
      requires workerSet.request == 0 && lastIntensity == estimate.intensity
      requires onlineCount == |Online(s.fleet)|
      requires estimate == Estimated(CapacityOf(s.fleet), s.request, s.last)
      requires Grown(Drained(s.fleet), s.issued - Online(s.fleet), added, workerSet.Fleet(), issuedCapacitys)
      requires total == estimate.capacity + Sum(issuedCapacitys)
      requires failed <==> total < estimate.next
      requires added != {} ==> total - CAPACITY < estimate.next
      modifies if added == {} then workerSet.workers.Values else {}
      ensures Valid()
      ensures Tick(s, r, View())
      ensures r.added == added && r.failed == failed && r.capacity == estimate.capacity
      ensures workerSet.Recorded() == old(workerSet.Recorded())
    {
      if !failed && added == {} && estimate.diff <= 0.0 && Spare(estimate.capacity, onlineCount, estimate.intensity) {
        NoneAdded(Drained(s.fleet), s.issued - Online(s.fleet), added, workerSet.Fleet(), issuedCapacitys);
        r := ShrinkBy1(s, estimate);
      } else {
        r := estimate.(added := added, failed := failed, shrunk := None);
        MeasuresEstimated(s, estimate, added, failed, None);
        TickWithoutShrink(s, r, View(), total);
      }
    }

    /** The lines of a tick; format prints a number with two digits after the point. */
    method RecordTick(issuedCapacity: real, r: Report, format: real -> string)
      requires Valid()
      modifies this`recordPeriod, recorder
      ensures Valid() && View() == old(View()) && workerSet.Recorded() == old(workerSet.Recorded())
      ensures recordPeriod == old(recordPeriod) + Seconds(TICK_INTERVAL)
      ensures recorder.file == old(recorder.file) + PrintAll(TickEntries(recordPeriod, issuedCapacity, r, format))
    {
      recordPeriod := recordPeriod + Seconds(TICK_INTERVAL);
      WriteTick(recordPeriod, issuedCapacity, r, format);
    }

    method WriteTick(period: real, issuedCapacity: real, r: Report, format: real -> string)
      modifies recorder
      ensures recorder.file == old(recorder.file) + PrintAll(TickEntries(period, issuedCapacity, r, format))
    {
      ghost var es: seq<Entry> := [];
      es := WritePublic(old(recorder.file), es, "second", format(period));
      es := WritePublic(old(recorder.file), es, "capacity", format(r.capacity));
      es := WritePublic(old(recorder.file), es, "issuedCapacity", format(issuedCapacity));
      es := WritePublic(old(recorder.file), es, "intensity", format(r.intensity));
      recorder.End();
      PrintNext(old(recorder.file), es, Entry.End);
      assert es + [Entry.End] == TickEntries(period, issuedCapacity, r, format);
    }

    /** One more line, where es is what has been written to the file so far. */
    method WritePublic(ghost file: string, ghost es: seq<Entry>, key: string, value: string)
        returns (ghost es': seq<Entry>)
      requires recorder.file == file + PrintAll(es)
      modifies recorder
      ensures es' == es + [Common(key, value)]
      ensures recorder.file == file + PrintAll(es')
    {
      recorder.AddPublic(key, value);
      PrintNext(file, es, Common(key, value));
      es' := es + [Common(key, value)];
    }

    /** A tick without its log. */
    method Decide(applied: nat -> bool) returns (r: Report, issuedCapacity: real)
      requires Valid()
      requires Batched(workerSet.Fleet())
      modifies this`issuedCapacitys, this`lastIntensity, workerSet`request, workerSet`throughput,
        workerSet`workers, workerSet`ports, workerSet`workerCounter, workerSet.workers.Values
      ensures Valid()
      ensures Tick(old(View()), r, View())
      ensures issuedCapacity == IssuedBefore(old(View()), r.capacity)
      ensures |r.added| <= |old(workerSet.ports)|
      ensures r.failed ==> |r.added| == |old(workerSet.ports)| || !applied(|r.added|)
      ensures workerSet.Recorded() - r.added == old(workerSet.Recorded())
    {
      ghost var s := View();
      var onlineCount, estimate, added, failed, total;
      onlineCount, estimate, issuedCapacity, added, failed, total := PlanAndGrow(applied);
      r := Conclude(s, onlineCount, estimate, added, failed, total);
    }

    /** One tick, taken as a whole; applied tells which pods the API server accepts. It adds no more workers than
        there are free ports, and fails only when these are used up or the last pod is refused. It writes to the
        log unless it fails. What the other workers have noted stays. */
    method DecideScaling(applied: nat -> bool, format: real -> string) returns (r: Report)
      requires Valid()
      requires Batched(workerSet.Fleet())
      modifies this, recorder, workerSet`request, workerSet`throughput, workerSet`workers, workerSet`ports,
        workerSet`workerCounter, workerSet.workers.Values
      ensures Valid()
      ensures Tick(old(View()), r, View())
      ensures recorder.file == old(recorder.file) +
                if r.failed then ""
                else PrintAll(TickEntries(recordPeriod, IssuedBefore(old(View()), r.capacity), r, format))
      ensures recordPeriod == old(recordPeriod) + if r.failed then 0.0 else Seconds(TICK_INTERVAL)
      ensures |r.added| <= |old(workerSet.ports)|
      ensures r.failed ==> |r.added| == |old(workerSet.ports)| || !applied(|r.added|)
      ensures workerSet.Recorded() - r.added == old(workerSet.Recorded())
      ensures (forall k :: applied(k)) ==> Answered(r, |old(workerSet.ports)|)
    {
      var issuedCapacity;
      r, issuedCapacity := Decide(applied);
      if !r.failed {
        RecordTick(issuedCapacity, r, format);
      }
    }
  }
}
