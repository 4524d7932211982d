// The life of worker pods and of their ports: AddWorker, the informer's handlers, the work queue and
// syncPod, as a machine whose steps interleave freely. The store is the informer's view of the pods.
module Reconcile {
  import opened Pods
  import opened Wrappers
  import Text

  function WorkerName(i: nat): string {
    "worker-" + Text.Itoa(i)
  }

  /** The name is the prefix and the numeral of the counter. */
  lemma WorkerNameMeaning(i: nat)
    ensures "worker-" <= WorkerName(i)
    ensures i <= Text.MAX_INT64 ==> Text.Atoi(WorkerName(i)[7..]) == Some(i)
  {
    Text.NumeralRoundTrip(i);
    assert WorkerName(i)[7..] == Text.Itoa(i);
  }

  lemma WorkerNameInjective(i: nat, j: nat)
    requires WorkerName(i) == WorkerName(j)
    ensures i == j
  {
    assert Text.Itoa(i) == WorkerName(i)[7..] == WorkerName(j)[7..] == Text.Itoa(j);
    Text.ItoaInjective(i, j);
  }

  /** Where a pod and its port are. */
  datatype Stage =
    | Applying(port: int) // AddWorker holds the port and awaits the API server
    | Leaked(port: int)   // the pod could not be created; nobody gives the port back
    | Unseen(pod: Pod)    // the pod exists, the informer has not seen it yet
    | Stored(pod: Pod)    // the pod is in the informer's store
    | Limbo(pod: Pod)     // gone from the store, deletePodHandle between its two actions
    | Zombie(pod: Pod)    // gone from the store and noted in zombiePods
  {
    function Port(): int {
      match this
      case Applying(p) => p
      case Leaked(p) => p
      case _ => GetPodListenPort(pod)
    }

    predicate Alive() {
      Unseen? || Stored?
    }
  }

  /** The key syncPod works on and what the lister told it. */
  datatype Sync = Sync(key: string, found: Option<Pod>)

  datatype State = State(
    pool: seq<int>,             // free ports, taken from the end
    counter: nat,               // names given out so far
    pods: map<string, Stage>,
    creating: map<string, Pod>, // the pod exists, its worker is not registered yet
    workers: map<string, Pod>,  // registered workers and the pod each has recorded
    doomed: set<string>,        // DeleteWorker was called
    queue: set<string>,
    retry: set<string>,         // waiting out the rate limit
    busy: Option<Sync>)

  datatype Event =
    | TakePort                          // AddWorker takes a port and a name
    | ApplyFails(name: string)          // ApplyPod reports an error: the port is not given back
    | Created(name: string, pod: Pod)   // ApplyPod succeeds
    | Register(name: string)            // AddWorker stores the new worker
    | Observe(name: string, pod: Pod)   // the informer sees the pod: addPodHandle
    | Change(name: string, pod: Pod)    // the pod changes: updatePodHandle
    | Doom(name: string)                // DeleteWorker
    | Vanish(name: string)              // the pod is gone: deletePodHandle as one step
    | VanishQueued(name: string)        // deletePodHandle, first action: enqueue
    | VanishNoted(name: string)         // deletePodHandle, second action: note the zombie
    | Begin(key: string)                // processNextWorkItem takes a key, syncPod asks the lister
    | End                               // syncPod acts on the answer
    | Requeue(key: string)              // the rate limiter gives a key back

  function Init(pool: seq<int>): State {
    State(pool, 0, map[], map[], map[], {}, {}, {}, None)
  }

  // ----- what the handlers and syncPod do -----

  /** A pod keeps its name and its containers; its phase and its node change. */
  predicate SamePod(p: Pod, q: Pod) {
    p.name == q.name && p.containers == q.containers
  }

  /** removeWorkerPod's last action: a port of 0 stands for none. */
  function Returned(pool: seq<int>, pod: Pod): seq<int> {
    if GetPodListenPort(pod) != 0 then pool + [GetPodListenPort(pod)] else pool
  }

  /** What syncPod acts on. */
  datatype Books = Books(workers: map<string, Pod>, zombies: map<string, Pod>, pool: seq<int>)

  /** What syncPod does once the lister has answered, and whether it reports success. */
  function Synced(b: Books, key: string, found: Option<Pod>): (Books, bool) {
    match found
    case Some(pod) =>
      if key in b.workers then (b.(workers := b.workers[key := pod]), true) else (b, false)
    case None =>
      if key in b.zombies
      then (Books(b.workers - {key}, b.zombies - {key}, Returned(b.pool, b.zombies[key])), true)
      else (b, true)
  }

  // ----- the machine -----

  predicate Enabled(s: State, e: Event) {
    match e
    case TakePort => s.pool != []
    case ApplyFails(n) => n in s.pods && s.pods[n].Applying?
    case Created(n, pod) =>
      n in s.pods && s.pods[n].Applying? && pod.name == n && GetPodListenPort(pod) == s.pods[n].port
    case Register(n) => n in s.creating
    case Observe(n, pod) => n in s.pods && s.pods[n].Unseen? && SamePod(s.pods[n].pod, pod)
    case Change(n, pod) => n in s.pods && s.pods[n].Stored? && SamePod(s.pods[n].pod, pod)
    case Doom(n) => n in s.workers
    case Vanish(n) => n in s.pods && s.pods[n].Stored? && n in s.doomed
    case VanishQueued(n) => n in s.pods && s.pods[n].Stored? && n in s.doomed
    case VanishNoted(n) => n in s.pods && s.pods[n].Limbo?
    case Begin(k) => s.busy == None && k in s.queue
    case End => s.busy.Some?
    case Requeue(k) => k in s.retry
  }

  /** The pods the lister knows. */
  function Store(pods: map<string, Stage>): map<string, Pod> {
    map n | n in pods && pods[n].Stored? :: pods[n].pod
  }

  function Zombies(pods: map<string, Stage>): map<string, Pod> {
    map n | n in pods && pods[n].Zombie? :: pods[n].pod
  }

  function Lookup(store: map<string, Pod>, key: string): Option<Pod> {
    if key in store then Some(store[key]) else None
  }

  /** Whether End will give a port back. */
  predicate Returns(s: State) {
    && s.busy.Some?
    && s.busy.value.found == None
    && s.busy.value.key in s.pods
    && s.pods[s.busy.value.key].Zombie?
  }

  function Apply(s: State, e: Event): State
    requires Enabled(s, e)
  {
    match e
    case TakePort =>
      s.(pool := s.pool[..|s.pool| - 1], counter := s.counter + 1,
         pods := s.pods[WorkerName(s.counter + 1) := Applying(s.pool[|s.pool| - 1])])
    case ApplyFails(n) => s.(pods := s.pods[n := Leaked(s.pods[n].port)])
    case Created(n, pod) => s.(pods := s.pods[n := Unseen(pod)], creating := s.creating[n := pod])
    case Register(n) => s.(creating := s.creating - {n}, workers := s.workers[n := s.creating[n]])
    case Observe(n, pod) => s.(pods := s.pods[n := Stored(pod)], queue := s.queue + {n})
    case Change(n, pod) =>
      s.(pods := s.pods[n := Stored(pod)],
         queue := if s.pods[n].pod.phase == pod.phase then s.queue else s.queue + {n})
    case Doom(n) => s.(doomed := s.doomed + {n})
    case Vanish(n) => s.(pods := s.pods[n := Zombie(s.pods[n].pod)], queue := s.queue + {n})
    case VanishQueued(n) => s.(pods := s.pods[n := Limbo(s.pods[n].pod)], queue := s.queue + {n})
    case VanishNoted(n) => s.(pods := s.pods[n := Zombie(s.pods[n].pod)])
    case Begin(k) => s.(queue := s.queue - {k}, busy := Some(Sync(k, Lookup(Store(s.pods), k))))
    case End =>
      var Sync(k, found) := s.busy.value;
      var (b, ok) := Synced(Books(s.workers, Zombies(s.pods), s.pool), k, found);
      s.(workers := b.workers, pool := b.pool, busy := None,
         pods := if Returns(s) then s.pods - {k} else s.pods,
         retry := if ok then s.retry else s.retry + {k})
    case Requeue(k) => s.(retry := s.retry - {k}, queue := s.queue + {k})
  }

  /** The state after the steps es from a pool of ports, or None if one of them was not possible. */
  function Exec(pool: seq<int>, es: seq<Event>): Option<State> {
    if es == [] then Some(Init(pool))
    else
      match Exec(pool, es[..|es| - 1])
      case None => None
      case Some(s) => if Enabled(s, es[|es| - 1]) then Some(Apply(s, es[|es| - 1])) else None
  }

  // ----- port conservation -----

  ghost predicate Distinct(s: seq<int>) {
    forall i, j :: 0 <= i < j < |s| ==> s[i] != s[j]
  }

  /** Every port that is out, under the name it was given to. */
  function Held(s: State): map<string, int> {
    map n | n in s.pods :: s.pods[n].Port()
  }

  function Names(counter: nat): set<string> {
    set i: nat | 1 <= i <= counter :: WorkerName(i)
  }

  ghost predicate Conserved(pool: seq<int>, free: seq<int>, held: map<string, int>) {
    && Distinct(free)
    && (forall m, n :: m in held && n in held && m != n ==> held[m] != held[n])
    && (forall n :: n in held ==> held[n] !in free)
    && (forall p :: p in pool <==> p in free || p in held.Values)
  }

  /** Free ports, ports of AddWorker calls in progress, of live pods, of deleted pods whose removal has not
      been synced, and leaked ones are pairwise disjoint and together are the initial pool. */
  ghost predicate PortLaw(pool: seq<int>, s: State) {
    s.pods.Keys <= Names(s.counter) && Conserved(pool, s.pool, Held(s))
  }

  /** The next name was never given out, so no earlier pod is overwritten. */
  lemma FreshName(counter: nat)
    ensures WorkerName(counter + 1) !in Names(counter)
    ensures Names(counter + 1) == Names(counter) + {WorkerName(counter + 1)}
  {
    if WorkerName(counter + 1) in Names(counter) {
      var i: nat :| 1 <= i <= counter && WorkerName(counter + 1) == WorkerName(i);
      WorkerNameInjective(counter + 1, i);
    }
    forall n | n in Names(counter + 1) ensures n in Names(counter) || n == WorkerName(counter + 1) {
      var i: nat :| 1 <= i <= counter + 1 && n == WorkerName(i);
      if i <= counter {
        assert WorkerName(i) in Names(counter);
      }
    }
    forall n | n in Names(counter) ensures n in Names(counter + 1) {
      var i: nat :| 1 <= i <= counter && n == WorkerName(i);
    }
  }

  /** How each step moves the ports that are out. */
  lemma HeldStep(s: State, e: Event)
    requires Enabled(s, e)
    ensures e == TakePort ==>
              Held(Apply(s, e)) == Held(s)[WorkerName(s.counter + 1) := s.pool[|s.pool| - 1]]
    ensures e == End && Returns(s) ==> Held(Apply(s, e)) == Held(s) - {s.busy.value.key}
    ensures e != TakePort && !(e == End && Returns(s)) ==> Held(Apply(s, e)) == Held(s)
  {
  }

  lemma Take(pool: seq<int>, free: seq<int>, held: map<string, int>, n: string)
    requires Conserved(pool, free, held)
    requires free != [] && n !in held
    ensures Conserved(pool, free[..|free| - 1], held[n := free[|free| - 1]])
  {
    var rest, p, held' := free[..|free| - 1], free[|free| - 1], held[n := free[|free| - 1]];
    assert free == rest + [p];
    assert forall q :: q in held'.Values <==> q == p || q in held.Values by {
      assert held'[n] == p;
      forall q | q in held.Values ensures q in held'.Values {
        var k :| k in held && held[k] == q;
        assert held'[k] == q;
      }
    }
  }

  lemma GiveBack(pool: seq<int>, free: seq<int>, held: map<string, int>, n: string)
    requires Conserved(pool, free, held)
    requires n in held
    ensures Conserved(pool, free + [held[n]], held - {n})
  {
    var held' := held - {n};
    assert forall q :: q in held.Values <==> q == held[n] || q in held'.Values by {
      forall q | q in held.Values && q != held[n] ensures q in held'.Values {
        var k :| k in held && held[k] == q;
        assert k in held' && held'[k] == q;
      }
    }
  }

  lemma PoolStep(s: State, e: Event)
    requires Enabled(s, e)
    ensures Apply(s, e).counter == if e == TakePort then s.counter + 1 else s.counter
    ensures e == TakePort ==> s.pool != [] && Apply(s, e).pool == s.pool[..|s.pool| - 1]
    ensures e == End && Returns(s) ==>
              Apply(s, e).pool == Returned(s.pool, s.pods[s.busy.value.key].pod)
    ensures e != TakePort && !(e == End && Returns(s)) ==> Apply(s, e).pool == s.pool
  {
  }

  lemma Taken(pool: seq<int>, s: State, t: State)
    requires PortLaw(pool, s)
    requires s.pool != [] && t.pool == s.pool[..|s.pool| - 1] && t.counter == s.counter + 1
    requires Held(t) == Held(s)[WorkerName(s.counter + 1) := s.pool[|s.pool| - 1]]
    ensures PortLaw(pool, t)
  {
    FreshName(s.counter);
    Take(pool, s.pool, Held(s), WorkerName(s.counter + 1));
    assert Held(s).Keys == s.pods.Keys && Held(t).Keys == t.pods.Keys;
  }

  lemma GivenBack(pool: seq<int>, s: State, t: State, k: string)
    requires PortLaw(pool, s)
    requires forall p :: p in pool ==> p > 0
    requires k in s.pods && s.pods[k].Zombie?
    requires t.pool == Returned(s.pool, s.pods[k].pod) && t.counter == s.counter
    requires Held(t) == Held(s) - {k}
    ensures PortLaw(pool, t)
  {
    assert Held(s)[k] in Held(s).Values;
    GiveBack(pool, s.pool, Held(s), k);
    assert Held(s).Keys == s.pods.Keys && Held(t).Keys == t.pods.Keys;
  }

  lemma PortStep(pool: seq<int>, s: State, e: Event, t: State)
    requires Enabled(s, e) && t == Apply(s, e)
    requires PortLaw(pool, s)
    requires forall p :: p in pool ==> p > 0
    ensures PortLaw(pool, t)
  {
    HeldStep(s, e);
    PoolStep(s, e);
    if e == TakePort {
      Taken(pool, s, t);
    } else if e == End && Returns(s) {
      GivenBack(pool, s, t, s.busy.value.key);
    } else {
      assert Held(s).Keys == s.pods.Keys && Held(t).Keys == t.pods.Keys;
    }
  }

  /** Conservation holds in every run, also when deletePodHandle's two actions are apart. */
  lemma {:induction false} PortConservation(pool: seq<int>, es: seq<Event>, s: State)
    requires Exec(pool, es) == Some(s)
    requires Distinct(pool) && forall p :: p in pool ==> p > 0
    ensures PortLaw(pool, s)
  {
    if es != [] {
      var s0 := Exec(pool, es[..|es| - 1]).value;
      PortConservation(pool, es[..|es| - 1], s0);
      PortStep(pool, s0, es[|es| - 1], s);
    }
  }

  /** No two pods that exist share a port, and no port is free while a pod has it. */
  lemma LivePortsDistinct(pool: seq<int>, es: seq<Event>, s: State, m: string, n: string)
    requires Exec(pool, es) == Some(s)
    requires Distinct(pool) && forall p :: p in pool ==> p > 0
    requires m in s.pods && n in s.pods && m != n
    requires s.pods[m].Alive() && s.pods[n].Alive()
    ensures GetPodListenPort(s.pods[m].pod) != GetPodListenPort(s.pods[n].pod)
    ensures GetPodListenPort(s.pods[m].pod) !in s.pool
    ensures GetPodListenPort(s.pods[m].pod) in pool
  {
    PortConservation(pool, es, s);
    assert Held(s)[m] == s.pods[m].Port() && Held(s)[n] == s.pods[n].Port();
    assert Held(s)[m] in Held(s).Values;
  }
}
