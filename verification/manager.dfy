// The informer's handlers and the worker of the pod queue.
module Manager {
  import opened Ledger
  import opened Pods
  import opened Wrappers
  import opened WorkerSets
  import Reconcile
  import Text

  class WorkerSetManager {
    const workerSet: WorkerSet
    var podQueue: set<string>
    var retries: set<string> // keys waiting out the rate limit
    var zombiePods: map<string, Pod>

    constructor (workerSet: WorkerSet)
      ensures this.workerSet == workerSet
      ensures podQueue == {} && retries == {} && zombiePods == map[]
    {
      this.workerSet := workerSet;
      podQueue, retries, zombiePods := {}, {}, map[];
    }

    ghost predicate Valid()
      reads this, workerSet
    {
      workerSet.Valid() && forall k :: k in zombiePods ==> zombiePods[k].name == k
    }

    method AddPodHandle(pod: Pod)
      modifies this`podQueue
      ensures podQueue == old(podQueue) + {pod.name}
    {
      podQueue := podQueue + {pod.name};
    }

    /** Only a change of phase is of interest. */
    method UpdatePodHandle(oldPod: Pod, newPod: Pod)
      modifies this`podQueue
      ensures podQueue == if oldPod.phase == newPod.phase then old(podQueue) else old(podQueue) + {newPod.name}
    {
      if oldPod.phase == newPod.phase {
        return;
      }
      podQueue := podQueue + {newPod.name};
    }

    /** The first of deletePodHandle's two actions; the queue may move on before the second. */
    method QueueDeleted(pod: Pod)
      modifies this`podQueue
      ensures podQueue == old(podQueue) + {pod.name}
    {
      podQueue := podQueue + {pod.name};
    }

    method NoteZombie(pod: Pod)
      modifies this`zombiePods
      ensures zombiePods == old(zombiePods)[pod.name := pod]
    {
      zombiePods := zombiePods[pod.name := pod];
    }

    method DeletePodHandle(pod: Pod)
      modifies this`podQueue, this`zombiePods
      ensures podQueue == old(podQueue) + {pod.name}
      ensures zombiePods == old(zombiePods)[pod.name := pod]
    {
      QueueDeleted(pod);
      NoteZombie(pod);
    }

    /** What the lister answers for the key decides; the result says whether the pod counts as synced. An error other
        than "not found" is passed over in silence. A worker that is synced takes over all of its pod, as updatePod
        does: if it is offline and its pod runs on a known node, it is being probed. */
    method SyncPod(key: string, answer: Answer) returns (ok: bool)
      requires Valid()
      requires answer.Found? ==> answer.pod.name == key
      modifies this`zombiePods, workerSet`workers, workerSet`ports, workerSet.workers.Values
      ensures Valid()
      ensures ok <==> answer.Found? ==> key in old(workerSet.workers)
      ensures workerSet.workers == WorkersAfter(old(workerSet.workers), old(zombiePods), key, answer)
      ensures workerSet.Fleet() == FleetAfter(old(workerSet.Fleet()), old(zombiePods), key, answer)
      ensures workerSet.Recorded() ==
              RecordsAfter(old(workerSet.Recorded()), old(workerSet.Fleet()), old(zombiePods), key, answer)
      ensures zombiePods == ZombiesAfter(old(zombiePods), key, answer)
      ensures workerSet.ports == PortsAfter(old(workerSet.ports), old(zombiePods), key, answer)
      ensures answer.Found? && ok ==> TakesOver(workerSet.workers[key], answer.pod)
    {
      match answer {
        case Found(pod) =>
          ok := workerSet.UpdateWorkerPod(pod);
        case NotFound =>
          BuryZombie(key);
          ok := true;
        case Broken =>
          ok := true;
      }
    }

    /** The pod is gone: so is its worker, if the handler has noted it. */
    method BuryZombie(key: string)
      requires Valid()
      modifies this`zombiePods, workerSet`workers, workerSet`ports
      ensures Valid()
      ensures workerSet.workers == WorkersAfter(old(workerSet.workers), old(zombiePods), key, NotFound)
      ensures workerSet.Fleet() == FleetAfter(old(workerSet.Fleet()), old(zombiePods), key, NotFound)
      ensures workerSet.Recorded() ==
              RecordsAfter(old(workerSet.Recorded()), old(workerSet.Fleet()), old(zombiePods), key, NotFound)
      ensures zombiePods == ZombiesAfter(old(zombiePods), key, NotFound)
      ensures workerSet.ports == PortsAfter(old(workerSet.ports), old(zombiePods), key, NotFound)
    {
      if key in zombiePods {
        workerSet.RemoveWorkerPod(zombiePods[key]);
        ForgetZombie(key);
      } else {
        assert zombiePods - {key} == zombiePods;
      }
    }

    method ForgetZombie(key: string)
      modifies this`zombiePods
      ensures zombiePods == old(zombiePods) - {key}
      ensures workerSet.Recorded() == old(workerSet.Recorded()) && workerSet.Fleet() == old(workerSet.Fleet())
    {
      zombiePods := zombiePods - {key};
    }

    method TakeKey(key: string)
      modifies this`podQueue
      ensures podQueue == old(podQueue) - {key}
      ensures workerSet.Recorded() == old(workerSet.Recorded()) && workerSet.Fleet() == old(workerSet.Fleet())
    {
      podQueue := podQueue - {key};
    }

    method RetryLater(key: string)
      modifies this`retries
      ensures retries == old(retries) + {key}
      ensures workerSet.Recorded() == old(workerSet.Recorded()) && workerSet.Fleet() == old(workerSet.Fleet())
    {
      retries := retries + {key};
    }

    /** Takes the key from the queue and syncs it; a failed key comes back after the rate limit. */
    method ProcessNextWorkItem(key: string, answer: Answer) returns (again: bool)
      requires Valid()
      requires key in podQueue
      requires answer.Found? ==> answer.pod.name == key
      modifies this`podQueue, this`retries, this`zombiePods, workerSet`workers, workerSet`ports,
        workerSet.workers.Values
      ensures Valid()
      ensures podQueue == old(podQueue) - {key}
      ensures again <==> answer.Found? && key !in old(workerSet.workers)
      ensures retries == if again then old(retries) + {key} else old(retries)
      ensures workerSet.workers == WorkersAfter(old(workerSet.workers), old(zombiePods), key, answer)
      ensures workerSet.Fleet() == FleetAfter(old(workerSet.Fleet()), old(zombiePods), key, answer)
      ensures workerSet.Recorded() ==
              RecordsAfter(old(workerSet.Recorded()), old(workerSet.Fleet()), old(zombiePods), key, answer)
      ensures zombiePods == ZombiesAfter(old(zombiePods), key, answer)
      ensures workerSet.ports == PortsAfter(old(workerSet.ports), old(zombiePods), key, answer)
    {
      TakeKey(key);
      var ok := SyncPod(key, answer);
      if !ok {
        RetryLater(key);
      }
      again := !ok;
    }
  }

  /** The worker is up to date with the pod, and on its way online if the pod runs on a known node. */
  ghost predicate TakesOver(w: TaskWorker, pod: Pod)
    reads w
  {
    && w.pod == pod
    && w.port == Text.ItoaInt(GetPodListenPort(pod))
    && w.deviceFrac == GetPodDeviceFraction(pod)
    && (pod.nodeName == "u200-1" ==> w.ip == "192.168.202.94")
    && (pod.nodeName == "u200-2" ==> w.ip == "192.168.202.95")
    && (pod.nodeName in {"u200-1", "u200-2"} && pod.phase == "Running" ==> w.online || w.probes > 0)
    && (w.online ==> pod.nodeName in {"u200-1", "u200-2"} && pod.phase == "Running")
  }

  /** What the lister says about a key. */
  datatype Answer = Found(pod: Pod) | NotFound | Broken

  /** What the lister says when it works. */
  function AnswerFrom(store: map<string, Pod>, key: string): Answer {
    if key in store then Found(store[key]) else NotFound
  }

  /** Whether a sync removes the worker of the key. */
  predicate Buries(zombies: map<string, Pod>, key: string, answer: Answer) {
    answer.NotFound? && key in zombies
  }

  ghost function WorkersAfter(workers: map<string, TaskWorker>, zombies: map<string, Pod>, key: string, answer: Answer)
      : map<string, TaskWorker>
  {
    if Buries(zombies, key, answer) then workers - {key} else workers
  }

  function ZombiesAfter(zombies: map<string, Pod>, key: string, answer: Answer): map<string, Pod> {
    if answer.NotFound? then zombies - {key} else zombies
  }

  function PortsAfter(ports: seq<int>, zombies: map<string, Pod>, key: string, answer: Answer): seq<int> {
    if Buries(zombies, key, answer) then Reconcile.Returned(ports, zombies[key]) else ports
  }

  /** What a sync does to the workers' counters: nothing but that an online worker may go offline. */
  ghost function FleetAfter(fleet: Fleet, zombies: map<string, Pod>, key: string, answer: Answer): Fleet {
    match answer
    case Found(pod) =>
      if key in fleet
      then fleet[key := fleet[key].(online := fleet[key].online && Placed(pod) && pod.phase == "Running")]
      else fleet
    case NotFound => if key in zombies then fleet - {key} else fleet
    case Broken => fleet
  }

  /** What a sync does to what the workers have noted. */
  ghost function RecordsAfter(records: map<string, Record>, fleet: Fleet, zombies: map<string, Pod>, key: string,
                              answer: Answer): map<string, Record>
    requires fleet.Keys == records.Keys
  {
    match answer
    case Found(pod) =>
      if key in records then records[key := RecordAfter(records[key], pod, fleet[key].online)] else records
    case NotFound => if key in zombies then records - {key} else records
    case Broken => records
  }

  function PodsOf(records: map<string, Record>): map<string, Pod> {
    map n | n in records :: records[n].pod
  }

  /** With a lister that works, a call does to pods, zombies and ports what the machine's sync does. */
  lemma SyncIsSynced(records: map<string, Record>, fleet: Fleet, zombies: map<string, Pod>, ports: seq<int>,
                     store: map<string, Pod>, key: string)
    requires fleet.Keys == records.Keys
    ensures var answer := AnswerFrom(store, key);
            (Reconcile.Books(PodsOf(RecordsAfter(records, fleet, zombies, key, answer)),
                             ZombiesAfter(zombies, key, answer),
                             PortsAfter(ports, zombies, key, answer)),
             answer.Found? ==> key in records) ==
            Reconcile.Synced(Reconcile.Books(PodsOf(records), zombies, ports), key, Reconcile.Lookup(store, key))
  {
    var answer := AnswerFrom(store, key);
    match answer
    case Found(pod) =>
      if key in records {
        assert PodsOf(RecordsAfter(records, fleet, zombies, key, answer)) == PodsOf(records)[key := pod];
      }
    case NotFound =>
      if key in zombies {
        assert PodsOf(records - {key}) == PodsOf(records) - {key};
      } else {
        assert zombies - {key} == zombies;
      }
    case Broken =>
  }

  /** With nobody in between, the steps of AddWorker take the last port and register a worker under the next name. */
  lemma AddAtOnce(s: Reconcile.State, pod: Pod) returns (t: Reconcile.State)
    requires s.pool != []
    requires pod.name == Reconcile.WorkerName(s.counter + 1) && GetPodListenPort(pod) == s.pool[|s.pool| - 1]
    ensures Reconcile.Enabled(s, Reconcile.TakePort)
    ensures var u := Reconcile.Apply(s, Reconcile.TakePort);
            && Reconcile.Enabled(u, Reconcile.Created(pod.name, pod))
            && var v := Reconcile.Apply(u, Reconcile.Created(pod.name, pod));
               && Reconcile.Enabled(v, Reconcile.Register(pod.name))
               && t == Reconcile.Apply(v, Reconcile.Register(pod.name))
    ensures t.pool == s.pool[..|s.pool| - 1] && t.counter == s.counter + 1
    ensures t.workers == s.workers[pod.name := pod]
    ensures t.pods == s.pods[pod.name := Reconcile.Unseen(pod)]
  {
    var u := Reconcile.Apply(s, Reconcile.TakePort);
    var v := Reconcile.Apply(u, Reconcile.Created(pod.name, pod));
    t := Reconcile.Apply(v, Reconcile.Register(pod.name));
  }

  /** With nobody in between, taking a key and acting on the answer is one sync of the current store. */
  lemma SyncAtOnce(s: Reconcile.State, k: string)
    requires s.busy == None && k in s.queue
    ensures var t := Reconcile.Apply(Reconcile.Apply(s, Reconcile.Begin(k)), Reconcile.End);
            var (b, ok) := Reconcile.Synced(
              Reconcile.Books(s.workers, Reconcile.Zombies(s.pods), s.pool),
              k, Reconcile.Lookup(Reconcile.Store(s.pods), k));
            && Reconcile.Books(t.workers, Reconcile.Zombies(t.pods), t.pool) == b
            && t.queue == s.queue - {k}
            && t.retry == (if ok then s.retry else s.retry + {k})
            && t.busy == None
  {
  }
}
