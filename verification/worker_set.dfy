// The worker set shared by the balancer, the autoscaler and the manager.
module WorkerSets {
  import opened Config
  import opened Ledger
  import opened Pods
  import opened Wrappers
  import Reconcile
  import Text

  class TaskWorker {
    const name: string
    var pod: Pod
    var ip: string
    var port: string
    var deviceFrac: int
    var online: bool
    var probes: nat  // probe goroutines under way

    var workload: int
    var workCount: int
    var lateLatency: int
    var avegLatency: int
    var maxBatch: int
    var accBatch: int
    var batchLatency: int

    var maxWeight: int
    var weight: int
    var capacity: real

    function View(): Worker
      reads this
    {
      Worker(online, workload, workCount, accBatch, lateLatency, avegLatency, maxBatch, maxWeight, weight, capacity)
    }

    /** What the worker knows of its pod, and how often it is being probed. */
    function Noted(): Record
      reads this
    {
      Record(pod, ip, port, deviceFrac, probes, batchLatency)
    }

    constructor (name: string, pod: Pod)
      ensures this.name == name && this.pod == pod && batchLatency == BATCH_LATENCY
      ensures View() == NewWorker()
      ensures port == Text.ItoaInt(GetPodListenPort(pod)) && deviceFrac == GetPodDeviceFraction(pod)
      ensures ip == Address(pod, "")
      ensures probes == if Placed(pod) && pod.phase == "Running" then 1 else 0
    {
      this.name := name;
      this.pod := pod;
      ip, port, deviceFrac := "", "", 0;
      online, probes := false, 0;
      workload, workCount, accBatch := 0, 0, 0;
      maxWeight, weight := INIT_MAX_WEIGHT, INIT_MAX_WEIGHT;
      batchLatency := BATCH_LATENCY;
      maxBatch := BATCH * INIT_MAX_WEIGHT;
      lateLatency, avegLatency := BATCH_LATENCY, BATCH_LATENCY;
      capacity := (BATCH * INIT_MAX_WEIGHT) as real / (BATCH_LATENCY as real / SECOND as real);
      new;
      CapacityOfOneWorker();
      UpdatePod(pod);
    }

    /** Records the pod. It never turns the worker online by itself: a running pod on a known node stays
        online or gets a probe, any other is offline at once. */
    method UpdatePod(pod: Pod)
      modifies this
      ensures this.pod == pod
      ensures port == Text.ItoaInt(GetPodListenPort(pod)) && deviceFrac == GetPodDeviceFraction(pod)
      ensures View() == old(View()).(online := old(online) && Placed(pod) && pod.phase == "Running")
      ensures ip == Address(pod, old(ip))
      ensures probes == old(probes) + if Placed(pod) && pod.phase == "Running" && !old(online) then 1 else 0
      ensures Noted() == RecordAfter(old(Noted()), pod, old(online))
    {
      this.pod := pod;
      port := Text.ItoaInt(GetPodListenPort(pod));
      deviceFrac := GetPodDeviceFraction(pod);
      if pod.nodeName == NODE1 {
        ip := IP1;
      } else if pod.nodeName == NODE2 {
        ip := IP2;
      } else {
        online := false;
        return;
      }
      if pod.phase == "Running" {
        if !online {
          probes := probes + 1;
        } else {
          online := true;
        }
      } else {
        online := false;
      }
    }

    method Take(batchsize: int)
      modifies this
      ensures View() == Picked(old(View()), batchsize)
      ensures Noted() == old(Noted())
    {
      weight := weight - 1;
      workload := workload + 1;
      workCount := workCount + 1;
      accBatch := accBatch + batchsize;
    }

    method Refill()
      requires Refillable(View())
      modifies this
      ensures View() == Refilled(old(View()))
      ensures Noted() == old(Noted())
    {
      weight := maxWeight;
    }

    method Report(latency: int)
      modifies this
      ensures View() == Finished(old(View()), latency)
      ensures Noted() == old(Noted())
    {
      workload := workload - 1;
      lateLatency := latency;
      avegLatency := TruncDiv(avegLatency * 3 + latency, 4);
    }

    method ResetCounters()
      requires online
      modifies this
      ensures View() == Scanned(old(View()))
      ensures Noted() == old(Noted())
    {
      workCount := 0;
      accBatch := 0;
    }

    /** A probe found the port open. It does not look at the pod again. */
    method ProbeSucceeds()
      requires probes > 0
      modifies this
      ensures View() == old(View()).(online := true)
      ensures Noted() == old(Noted()).(probes := old(probes) - 1)
    {
      online := true;
      probes := probes - 1;
    }
  }

  datatype Record = Record(pod: Pod, ip: string, port: string, deviceFrac: int, probes: nat, batchLatency: int)

  /** The record of a worker, online or not, that takes over a pod. */
  function RecordAfter(r: Record, pod: Pod, online: bool): Record {
    Record(
      pod,
      Address(pod, r.ip),
      Text.ItoaInt(GetPodListenPort(pod)),
      GetPodDeviceFraction(pod),
      r.probes + (if Placed(pod) && pod.phase == "Running" && !online then 1 else 0),
      r.batchLatency)
  }

  /** The record of a new worker. */
  function FirstRecord(pod: Pod): Record {
    RecordAfter(Record(pod, "", "", 0, 0, BATCH_LATENCY), pod, false)
  }

  predicate Placed(pod: Pod) {
    pod.nodeName == NODE1 || pod.nodeName == NODE2
  }

  /** The address of the pod's node; a worker on an unknown node keeps the one it has. */
  function Address(pod: Pod, ip: string): string {
    if pod.nodeName == NODE1 then IP1 else if pod.nodeName == NODE2 then IP2 else ip
  }

  /** Which nodes are known, and where they are. */
  lemma KnownNodes(pod: Pod, ip: string)
    ensures Placed(pod) <==> pod.nodeName in {"u200-1", "u200-2"}
    ensures pod.nodeName == "u200-1" ==> Address(pod, ip) == "192.168.202.94"
    ensures pod.nodeName == "u200-2" ==> Address(pod, ip) == "192.168.202.95"
    ensures !Placed(pod) ==> Address(pod, ip) == ip
  {
    assert "u200-1"[5] != "u200-2"[5];
  }

  /** keys holds no name that is still to come. */
  ghost predicate Unused(keys: set<string>, counter: nat) {
    forall i: nat :: i > counter ==> Reconcile.WorkerName(i) !in keys
  }

  lemma UseName(keys: set<string>, counter: nat)
    requires Unused(keys, counter)
    ensures Reconcile.WorkerName(counter + 1) !in keys
    ensures Unused(keys + {Reconcile.WorkerName(counter + 1)}, counter + 1)
  {
    forall i: nat | i > counter + 1
      ensures Reconcile.WorkerName(i) !in keys + {Reconcile.WorkerName(counter + 1)}
    {
      if Reconcile.WorkerName(i) == Reconcile.WorkerName(counter + 1) {
        Reconcile.WorkerNameInjective(i, counter + 1);
      }
    }
  }

  ghost function FleetOf(workers: map<string, TaskWorker>): Fleet
    reads workers.Values
  {
    map n | n in workers :: workers[n].View()
  }

  /** What each worker has noted. */
  ghost function RecordedOf(workers: map<string, TaskWorker>): map<string, Record>
    reads workers.Values
  {
    map n | n in workers :: workers[n].Noted()
  }

  lemma AddOne(workers: map<string, TaskWorker>, n: string, w: TaskWorker)
    ensures FleetOf(workers[n := w]) == FleetOf(workers)[n := w.View()]
    ensures RecordedOf(workers[n := w]) == RecordedOf(workers)[n := w.Noted()]
  {
  }

  lemma DropOne(workers: map<string, TaskWorker>, n: string)
    ensures FleetOf(workers - {n}) == FleetOf(workers) - {n}
    ensures RecordedOf(workers - {n}) == RecordedOf(workers) - {n}
  {
  }

  /** Where all workers but n are as fleet and recorded say, only n differs from them. */
  lemma OneChanged(workers: map<string, TaskWorker>, n: string, fleet: Fleet, recorded: map<string, Record>)
    requires n in workers && fleet.Keys == workers.Keys && recorded.Keys == workers.Keys
    requires forall m :: m in workers && m != n ==> workers[m].View() == fleet[m] && workers[m].Noted() == recorded[m]
    ensures FleetOf(workers) == fleet[n := workers[n].View()]
    ensures RecordedOf(workers) == recorded[n := workers[n].Noted()]
  {
  }

  class WorkerSet {
    var workers: map<string, TaskWorker>
    var throughput: int
    var request: int
    var workerCounter: nat
    var samplePod: Pod
    var ports: seq<int>

    ghost predicate Valid()
      reads this`workers
    {
      && (forall m, n :: m in workers && n in workers && m != n ==> workers[m] != workers[n])
      && (forall n :: n in workers ==> workers[n].name == n)
    }

    /** No worker has a name the counter is still to give out. */
    ghost predicate Named()
      reads this`workers, this`workerCounter
    {
      Unused(workers.Keys, workerCounter)
    }

    ghost function Fleet(): Fleet
      reads this`workers, workers.Values
    {
      FleetOf(workers)
    }

    ghost function Recorded(): map<string, Record>
      reads this`workers, workers.Values
    {
      RecordedOf(workers)
    }

    constructor (samplePod: Pod, occupied1: int -> bool, occupied2: int -> bool)
      ensures Valid() && Named() && workers == map[] && request == 0 && throughput == 0 && workerCounter == 0
      ensures this.samplePod == samplePod
      ensures Reconcile.Distinct(ports)
      ensures forall p :: p in ports <==> LISTEN_PORT_BEGIN <= p <= LISTEN_PORT_END && !occupied1(p) && !occupied2(p)
    {
      workers, throughput, request, workerCounter := map[], 0, 0, 0;
      this.samplePod := samplePod;
      ports := [];
      new;
      FlushPortPool(occupied1, occupied2);
    }

    /** Adds the ports of the range that are open on neither node. */
    method FlushPortPool(occupied1: int -> bool, occupied2: int -> bool)
      requires ports == []
      modifies this`ports
      ensures Reconcile.Distinct(ports)
      ensures forall p :: p in ports <==> LISTEN_PORT_BEGIN <= p <= LISTEN_PORT_END && !occupied1(p) && !occupied2(p)
    {
      for i := LISTEN_PORT_BEGIN to LISTEN_PORT_END + 1
        invariant Reconcile.Distinct(ports)
        invariant forall p :: p in ports <==> LISTEN_PORT_BEGIN <= p < i && !occupied1(p) && !occupied2(p)
      {
        if !(occupied1(i) || occupied2(i)) {
          ports := ports + [i];
        }
      }
    }

    /** The autoscaler takes the request count and starts both counts again. */
    method DrainRequests() returns (count: int)
      modifies this`request, this`throughput
      ensures count == old(request) && request == 0 && throughput == 0
      ensures Fleet() == old(Fleet()) && Recorded() == old(Recorded())
    {
      count := request;
      request := 0;
      throughput := 0;
    }

    method CountRequests(batchsize: int)
      modifies this`request
      ensures request == old(request) + batchsize
      ensures Fleet() == old(Fleet()) && Recorded() == old(Recorded())
    {
      request := request + batchsize;
    }

    method CountThroughput(batchsize: int)
      modifies this`throughput
      ensures throughput == old(throughput) + batchsize
      ensures Fleet() == old(Fleet()) && Recorded() == old(Recorded())
    {
      throughput := throughput + batchsize;
    }

    // AddWorker, one critical section at a time.

    method TakePort() returns (port: int)
      requires ports != []
      modifies this`ports
      ensures port == old(ports)[|old(ports)| - 1] && ports == old(ports)[..|old(ports)| - 1]
      ensures Fleet() == old(Fleet()) && Recorded() == old(Recorded())
    {
      port := ports[|ports| - 1];
      ports := ports[..|ports| - 1];
    }

    method TakeName() returns (workerName: string)
      requires Named()
      modifies this`workerCounter
      ensures workerCounter == old(workerCounter) + 1
      ensures workerName == Reconcile.WorkerName(workerCounter) && workerName !in workers
      ensures Unused(workers.Keys + {workerName}, workerCounter)
      ensures Fleet() == old(Fleet()) && Recorded() == old(Recorded())
    {
      UseName(workers.Keys, workerCounter);
      workerCounter := workerCounter + 1;
      workerName := Reconcile.WorkerName(workerCounter);
    }

    method BuildPod(workerName: string, port: int, deviceFrac: int) returns (pod: Pod)
      ensures pod.name == workerName
      ensures Built(samplePod, workerName, port, deviceFrac, pod)
      ensures Fleet() == old(Fleet()) && Recorded() == old(Recorded())
      ensures Exposes(samplePod) && 0 < port < 0x8000_0000 ==>
                && GetPodListenPort(pod) == port
                && GetPodDeviceFraction(pod) == deviceFrac
                && (IsConcernedPod(pod) <==> deviceFrac > 0)
    {
      var named := samplePod.(name := workerName);
      var ported := SetPodListenPort(named, port);
      pod := SetPodDeviceFraction(ported, deviceFrac);
      if Exposes(samplePod) && 0 < port < 0x8000_0000 {
        assert Exposes(named);
        WorkerPodRoundTrip(named, ported, pod, port, deviceFrac);
      }
    }

    method Register(workerName: string, pod: Pod) returns (capacity: real)
      requires Valid() && workerName !in workers
      modifies this`workers
      ensures Valid() && workerName in workers && fresh(workers[workerName]) && workers[workerName].pod == pod
      ensures workers == old(workers)[workerName := workers[workerName]]
      ensures Fleet() == old(Fleet())[workerName := NewWorker()]
      ensures Recorded() == old(Recorded())[workerName := workers[workerName].Noted()]
      ensures workers[workerName].Noted() == FirstRecord(pod)
      ensures capacity == CAPACITY
    {
      var w := new TaskWorker(workerName, pod);
      capacity := w.capacity;
      Store(w);
    }

    method Store(w: TaskWorker)
      requires Valid() && w.name !in workers
      requires forall n :: n in workers ==> workers[n] != w
      modifies this`workers
      ensures Valid()
      ensures workers == old(workers)[w.name := w]
      ensures Fleet() == old(Fleet())[w.name := w.View()]
      ensures Recorded() == old(Recorded())[w.name := w.Noted()]
    {
      AddOne(workers, w.name, w);
      workers := workers[w.name := w];
    }

    /** applied is the API server's answer. A pod that cannot be created keeps its port and its name. */
    method AddWorker(deviceFrac: int, applied: bool) returns (r: Option<(string, real)>)
      requires Valid() && Named()
      modifies this`workers, this`ports, this`workerCounter
      ensures Valid() && Named()
      ensures old(ports) == [] ==> r == None && unchanged(this)
      ensures old(ports) != [] ==>
                && ports == old(ports)[..|old(ports)| - 1]
                && workerCounter == old(workerCounter) + 1
                && r == if applied then Some((Reconcile.WorkerName(workerCounter), CAPACITY)) else None
      ensures r == None ==> workers == old(workers)
      ensures r.Some? ==>
                var n := r.value.0;
                && n !in old(workers)
                && n in workers
                && fresh(workers[n])
                && workers == old(workers)[n := workers[n]]
                && Fleet() == old(Fleet())[n := NewWorker()]
                && Recorded() == old(Recorded())[n := FirstRecord(workers[n].pod)]
                && workers[n].pod.name == n
                && Built(samplePod, n, old(ports)[|old(ports)| - 1], deviceFrac, workers[n].pod)
                && (Exposes(samplePod) && 0 < old(ports)[|old(ports)| - 1] < 0x8000_0000 ==>
                      && GetPodListenPort(workers[n].pod) == old(ports)[|old(ports)| - 1]
                      && GetPodDeviceFraction(workers[n].pod) == deviceFrac
                      && (IsConcernedPod(workers[n].pod) <==> deviceFrac > 0))
    {
      if ports == [] {
        return None;
      }
      var port := TakePort();
      var workerName := TakeName();
      var pod := BuildPod(workerName, port, deviceFrac);
      if !applied {
        return None;
      }
      var capacity := Register(workerName, pod);
      r := Some((workerName, capacity));
    }

    /** A registered worker goes offline; its pod is deleted once it has drained. For any other name the call
        returns with the lock still held. */
    method DeleteWorker(workerName: string) returns (unlocked: bool)
      requires Valid()
      modifies if workerName in workers then {workers[workerName]} else {}
      ensures unlocked <==> workerName in workers
      ensures Fleet() == if unlocked then old(Fleet())[workerName := old(Fleet())[workerName].(online := false)]
                         else old(Fleet())
      ensures Recorded() == old(Recorded())
    {
      if workerName !in workers {
        return false;
      }
      TakeOffline(workerName);
      unlocked := true;
    }

    method TakeOffline(workerName: string)
      requires Valid()
      requires workerName in workers
      modifies workers[workerName]
      ensures Fleet() == old(Fleet())[workerName := old(Fleet())[workerName].(online := false)]
      ensures Recorded() == old(Recorded())
    {
      ghost var fleet, recorded := Fleet(), Recorded();
      workers[workerName].online := false;
      OneChanged(workers, workerName, fleet, recorded);
    }

    method UpdateWorkerPod(pod: Pod) returns (ok: bool)
      requires Valid()
      modifies if pod.name in workers then {workers[pod.name]} else {}
      ensures ok <==> pod.name in workers
      ensures !ok ==> Recorded() == old(Recorded()) && Fleet() == old(Fleet())
      ensures ok ==>
                var w := old(Fleet())[pod.name];
                && Recorded() == old(Recorded())[pod.name := RecordAfter(old(Recorded())[pod.name], pod, w.online)]
                && Fleet() == old(Fleet())[pod.name := w.(online := w.online && Placed(pod) && pod.phase == "Running")]
      ensures ok ==>
                var w := workers[pod.name];
                && w.port == Text.ItoaInt(GetPodListenPort(pod)) && w.deviceFrac == GetPodDeviceFraction(pod)
                && w.ip == Address(pod, old(w.ip))
                && w.probes == old(w.probes) + if Placed(pod) && pod.phase == "Running" && !old(w.online) then 1 else 0
    {
      if pod.name in workers {
        Refresh(pod);
        ok := true;
      } else {
        ok := false;
      }
    }

    method Refresh(pod: Pod)
      requires Valid()
      requires pod.name in workers
      modifies workers[pod.name]
      ensures Recorded() ==
              old(Recorded())[pod.name := RecordAfter(old(Recorded())[pod.name], pod, old(Fleet())[pod.name].online)]
      ensures var w := old(Fleet())[pod.name];
              Fleet() == old(Fleet())[pod.name := w.(online := w.online && Placed(pod) && pod.phase == "Running")]
      ensures var w := workers[pod.name];
              && w.port == Text.ItoaInt(GetPodListenPort(pod)) && w.deviceFrac == GetPodDeviceFraction(pod)
              && w.ip == Address(pod, old(w.ip))
              && w.probes == old(w.probes) + if Placed(pod) && pod.phase == "Running" && !old(w.online) then 1 else 0
    {
      ghost var fleet, recorded := Fleet(), Recorded();
      workers[pod.name].UpdatePod(pod);
      OneChanged(workers, pod.name, fleet, recorded);
    }

    method RemoveWorkerPod(pod: Pod)
      requires Valid()
      modifies this`workers, this`ports
      ensures Valid()
      ensures workers == old(workers) - {pod.name}
      ensures Fleet() == old(Fleet()) - {pod.name}
      ensures Recorded() == old(Recorded()) - {pod.name}
      ensures ports == Reconcile.Returned(old(ports), pod)
      ensures ports == if GetPodListenPort(pod) != 0 then old(ports) + [GetPodListenPort(pod)] else old(ports)
    {
      Drop(pod.name);
      var port := GetPodListenPort(pod);
      if port != 0 {
        ReturnPort(port);
      }
    }

    method ReturnPort(port: int)
      modifies this`ports
      ensures ports == old(ports) + [port]
      ensures Fleet() == old(Fleet()) && Recorded() == old(Recorded())
    {
      ports := ports + [port];
    }

    method Drop(workerName: string)
      requires Valid()
      modifies this`workers
      ensures Valid()
      ensures workers == old(workers) - {workerName}
      ensures Fleet() == old(Fleet()) - {workerName}
      ensures Recorded() == old(Recorded()) - {workerName}
    {
      DropOne(workers, workerName);
      workers := workers - {workerName};
    }
  }
}
