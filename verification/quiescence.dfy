// What the work queue guarantees about the registered workers, in every run and once it is idle.
module Quiescence {
  import opened Pods
  import opened Reconcile
  import opened Wrappers

  predicate Working(s: State, n: string) {
    s.busy.Some? && s.busy.value.key == n
  }

  /** syncPod is about to record phase for n. */
  predicate Recording(s: State, n: string, phase: string) {
    Working(s, n) && s.busy.value.found.Some? && s.busy.value.found.value.phase == phase
  }

  predicate Scheduled(s: State, n: string) {
    n in s.queue || n in s.retry || Working(s, n)
  }

  /** The pod was deleted; its worker is still to be removed. */
  predicate Gone(stage: Stage) {
    stage.Limbo? || stage.Zombie?
  }

  predicate Unnamed(s: State, n: string) {
    && n !in s.pods && n !in s.creating && n !in s.workers && n !in s.doomed && !Scheduled(s, n)
  }

  /** Registered or being registered, exactly while the pod exists; no key of a pod still unseen. */
  predicate KeysOk(s: State, n: string) {
    && !(n in s.creating && n in s.workers)
    && (n in s.creating ==> n in s.pods && s.pods[n].Alive() && n !in s.doomed)
    && (n in s.workers ==> n in s.pods && (s.pods[n].Alive() || Gone(s.pods[n])))
    && (n in s.pods && s.pods[n].Alive() ==> n in s.workers || n in s.creating)
    && (n in s.pods && (Gone(s.pods[n]) || n in s.doomed) ==> n in s.workers)
    && (n in s.pods && Scheduled(s, n) ==> s.pods[n].Stored? || Gone(s.pods[n]))
    && (n in s.pods && s.pods[n].Stored? && Working(s, n) ==> s.busy.value.found.Some?)
  }

  /** A phase the worker has not recorded is queued, awaits a retry, or is in the hands of syncPod. */
  predicate PhaseOk(s: State, n: string) {
    n in s.pods && s.pods[n].Stored? ==>
      var phase := s.pods[n].pod.phase;
      && ((n in s.workers ==> s.workers[n].phase != phase) ==>
            n in s.queue || n in s.retry || Recording(s, n, phase))
      && (Working(s, n) && !Recording(s, n, phase) ==> n in s.queue)
  }

  ghost predicate NameOk(s: State, n: string) {
    && (n !in Names(s.counter) ==> Unnamed(s, n))
    && KeysOk(s, n)
    && PhaseOk(s, n)
  }

  ghost predicate Law(s: State) {
    forall n: string :: NameOk(s, n)
  }

  lemma Fresh(s: State)
    requires Law(s)
    ensures Unnamed(s, WorkerName(s.counter + 1))
    ensures Names(s.counter + 1) == Names(s.counter) + {WorkerName(s.counter + 1)}
  {
    FreshName(s.counter);
    assert NameOk(s, WorkerName(s.counter + 1));
  }

  lemma KeysStep(s: State, e: Event, t: State, n: string)
    requires Enabled(s, e) && t == Apply(s, e)
    requires e.TakePort? ==> Unnamed(s, WorkerName(s.counter + 1))
    requires KeysOk(s, n)
    ensures KeysOk(t, n)
  {
  }

  lemma PhaseStep(s: State, e: Event, t: State, n: string)
    requires Enabled(s, e) && t == Apply(s, e)
    requires e.TakePort? ==> Unnamed(s, WorkerName(s.counter + 1))
    requires KeysOk(s, n) && PhaseOk(s, n)
    ensures PhaseOk(t, n)
  {
  }

  lemma UnnamedStep(s: State, e: Event, t: State, n: string)
    requires Enabled(s, e) && t == Apply(s, e)
    requires Unnamed(s, n) && !(e.TakePort? && n == WorkerName(s.counter + 1))
    ensures Unnamed(t, n)
  {
  }

  lemma CounterStep(s: State, e: Event)
    requires Enabled(s, e)
    ensures Apply(s, e).counter == s.counter + if e.TakePort? then 1 else 0
  {
  }

  lemma NameStep(s: State, e: Event, t: State, n: string)
    requires Enabled(s, e) && t == Apply(s, e)
    requires e.TakePort? ==> Unnamed(s, WorkerName(s.counter + 1))
    requires e.TakePort? ==> Names(s.counter + 1) == Names(s.counter) + {WorkerName(s.counter + 1)}
    requires NameOk(s, n)
    ensures NameOk(t, n)
  {
    CounterStep(s, e);
    KeysStep(s, e, t, n);
    PhaseStep(s, e, t, n);
    if n !in Names(t.counter) {
      UnnamedStep(s, e, t, n);
    }
  }

  lemma Step(s: State, e: Event, t: State)
    requires Enabled(s, e) && t == Apply(s, e)
    requires Law(s)
    ensures Law(t)
  {
    Fresh(s);
    forall n: string ensures NameOk(t, n) {
      assert NameOk(s, n);
      NameStep(s, e, t, n);
    }
  }

  /** In every run, whatever the interleaving, each name is lawful. */
  lemma {:induction false} Reconciling(pool: seq<int>, es: seq<Event>, s: State)
    requires Exec(pool, es) == Some(s)
    ensures Law(s)
  {
    if es != [] {
      var s0 := Exec(pool, es[..|es| - 1]).value;
      Reconciling(pool, es[..|es| - 1], s0);
      Step(s0, es[|es| - 1], s);
    }
  }

  /** The queue is idle and no AddWorker is between its steps. */
  predicate Idle(s: State) {
    && s.queue == {} && s.retry == {} && s.busy == None
    && s.creating == map[]
    && forall n :: n in s.pods ==> !s.pods[n].Applying?
  }

  /** Once idle, every pod has its worker with the store's phase; other workers belong to deleted pods. */
  lemma IdleWorkers(pool: seq<int>, es: seq<Event>, s: State)
    requires Exec(pool, es) == Some(s)
    requires Idle(s)
    ensures forall n :: n in s.pods && s.pods[n].Stored? ==> n in s.workers && s.workers[n].phase == s.pods[n].pod.phase
    ensures s.workers.Keys == set n | n in s.pods && (s.pods[n].Alive() || Gone(s.pods[n]))
  {
    Reconciling(pool, es, s);
    forall n: string
      ensures n in s.workers <==> n in s.pods && (s.pods[n].Alive() || Gone(s.pods[n]))
      ensures n in s.pods && s.pods[n].Stored? ==> n in s.workers && s.workers[n].phase == s.pods[n].pod.phase
    {
      assert NameOk(s, n);
    }
  }

  // ----- the queue drains -----

  /** A step of the worker of the queue, or of its rate limiter. */
  predicate QueueStep(e: Event) {
    e.Begin? || e.End? || e.Requeue?
  }

  function Work(s: State): nat {
    4 * |s.retry| + 3 * |s.queue| + if s.busy.Some? then 1 else 0
  }

  /** A sync that found its pod is about a pod that is, or was, in the store. */
  predicate FoundOk(s: State) {
    s.busy.Some? && s.busy.value.found.Some? ==>
      var k := s.busy.value.key; k in s.pods && (s.pods[k].Stored? || Gone(s.pods[k]))
  }

  lemma FoundStep(s: State, e: Event, t: State)
    requires Enabled(s, e) && t == Apply(s, e)
    requires e.TakePort? ==> Unnamed(s, WorkerName(s.counter + 1))
    requires FoundOk(s)
    ensures FoundOk(t)
  {
  }

  lemma {:induction false} SyncsOfPods(pool: seq<int>, es: seq<Event>, s: State)
    requires Exec(pool, es) == Some(s)
    ensures FoundOk(s)
  {
    if es != [] {
      var s0 := Exec(pool, es[..|es| - 1]).value;
      SyncsOfPods(pool, es[..|es| - 1], s0);
      Reconciling(pool, es[..|es| - 1], s0);
      Fresh(s0);
      FoundStep(s0, es[|es| - 1], s);
    }
  }

  /** With no AddWorker between its steps, a pod found in the store has its worker, so its sync succeeds. */
  lemma SyncSucceeds(pool: seq<int>, es: seq<Event>, s: State)
    requires Exec(pool, es) == Some(s)
    requires s.creating == map[] && s.busy.Some?
    ensures s.busy.value.found.Some? ==> s.busy.value.key in s.workers
  {
    SyncsOfPods(pool, es, s);
    Reconciling(pool, es, s);
    assert NameOk(s, s.busy.value.key);
  }

  lemma WorkStep(s: State, e: Event, t: State)
    requires Enabled(s, e) && t == Apply(s, e)
    requires QueueStep(e) && s.creating == map[]
    requires e.End? && s.busy.value.found.Some? ==> s.busy.value.key in s.workers
    ensures Work(t) < Work(s) && t.creating == map[]
  {
    match e
    case Begin(k) =>
      assert s.queue == t.queue + {k};
    case End =>
    case Requeue(k) =>
      assert s.retry == t.retry + {k};
      assert |t.queue| <= |s.queue| + 1;
    case _ =>
  }

  /** Nothing happens to the pods but that some zombies are done with. */
  ghost predicate BuriesOnly(before: map<string, Stage>, after: map<string, Stage>) {
    && (forall n :: n in after ==> n in before && after[n] == before[n])
    && (forall n :: n in before && !before[n].Zombie? ==> n in after)
  }

  lemma BuryStep(s: State, e: Event)
    requires Enabled(s, e) && QueueStep(e)
    ensures BuriesOnly(s.pods, Apply(s, e).pods)
  {
  }

  /** In every run, once no AddWorker is between its steps, each step of the queue lowers the work that is left. */
  lemma Drains(pool: seq<int>, es: seq<Event>, s: State, e: Event)
    requires Exec(pool, es) == Some(s)
    requires Enabled(s, e) && QueueStep(e) && s.creating == map[]
    ensures Work(Apply(s, e)) < Work(s) && Apply(s, e).creating == map[]
    ensures BuriesOnly(s.pods, Apply(s, e).pods)
  {
    if s.busy.Some? {
      SyncSucceeds(pool, es, s);
    }
    WorkStep(s, e, Apply(s, e));
    BuryStep(s, e);
  }

  /** While there is work, there is a step to take. */
  lemma StepExists(s: State) returns (e: Event)
    requires Work(s) > 0
    ensures Enabled(s, e) && QueueStep(e)
  {
    if s.busy.Some? {
      e := End;
    } else if s.queue != {} {
      var k :| k in s.queue;
      e := Begin(k);
    } else {
      var k :| k in s.retry;
      e := Requeue(k);
    }
  }

  lemma Joined(es: seq<Event>, e: Event, fs: seq<Event>)
    ensures es + ([e] + fs) == (es + [e]) + fs
  {
  }

  /** So from every such state some steps of the queue, no more than the work, empty it. */
  lemma {:induction false} QueueEmpties(pool: seq<int>, es: seq<Event>, s: State) returns (fs: seq<Event>, t: State)
    requires Exec(pool, es) == Some(s) && s.creating == map[]
    ensures Exec(pool, es + fs) == Some(t)
    ensures forall i :: 0 <= i < |fs| ==> QueueStep(fs[i])
    ensures |fs| <= Work(s)
    ensures t.queue == {} && t.retry == {} && t.busy == None && t.creating == map[]
    ensures BuriesOnly(s.pods, t.pods)
    decreases Work(s)
  {
    if Work(s) == 0 {
      fs, t := [], s;
      assert es + [] == es;
    } else {
      var e := StepExists(s);
      Drains(pool, es, s, e);
      var gs, u := ExecSnoc(pool, es, s, e);
      var hs;
      hs, t := QueueEmpties(pool, gs, u);
      fs := [e] + hs;
      Joined(es, e, hs);
    }
  }

  // ----- deletePodHandle as one step -----

  predicate OneStep(e: Event) {
    !e.VanishQueued? && !e.VanishNoted?
  }

  /** A deleted pod is a zombie whose key is queued or whose removal is at hand. */
  predicate GoneOk(s: State, n: string) {
    n in s.pods && Gone(s.pods[n]) ==>
      s.pods[n].Zombie? && (n in s.queue || s.busy == Some(Sync(n, None)))
  }

  lemma GoneStep(s: State, e: Event, t: State, n: string)
    requires Enabled(s, e) && t == Apply(s, e)
    requires OneStep(e)
    requires NameOk(s, n) && GoneOk(s, n)
    requires e.TakePort? ==> Unnamed(s, WorkerName(s.counter + 1))
    ensures GoneOk(t, n)
  {
  }

  lemma {:induction false} ZombiesQueued(pool: seq<int>, es: seq<Event>, s: State)
    requires Exec(pool, es) == Some(s)
    requires forall i :: 0 <= i < |es| ==> OneStep(es[i])
    ensures forall n: string :: GoneOk(s, n)
  {
    if es != [] {
      var s0 := Exec(pool, es[..|es| - 1]).value;
      ZombiesQueued(pool, es[..|es| - 1], s0);
      Reconciling(pool, es[..|es| - 1], s0);
      Fresh(s0);
      forall n: string ensures GoneOk(s, n) {
        assert NameOk(s0, n) && GoneOk(s0, n);
        GoneStep(s0, es[|es| - 1], s, n);
      }
    }
  }

  /** Once idle, the registered workers are exactly the pods that exist, none of them deleted, with the
      phases of the store; and every port is free, with a live pod, or leaked. */
  lemma IdleMeansSynced(pool: seq<int>, es: seq<Event>, s: State)
    requires Exec(pool, es) == Some(s)
    requires forall i :: 0 <= i < |es| ==> OneStep(es[i])
    requires Distinct(pool) && forall p :: p in pool ==> p > 0
    requires Idle(s)
    ensures s.workers.Keys == set n | n in s.pods && s.pods[n].Alive()
    ensures forall n :: n in s.pods && s.pods[n].Stored? ==> s.workers[n].phase == s.pods[n].pod.phase
    ensures forall n :: n in s.pods ==> s.pods[n].Alive() || s.pods[n].Leaked?
    ensures PortLaw(pool, s)
  {
    PortConservation(pool, es, s);
    IdleWorkers(pool, es, s);
    ZombiesQueued(pool, es, s);
    forall n | n in s.pods ensures !Gone(s.pods[n]) {
      assert GoneOk(s, n);
    }
  }

  /** So from every state with no AddWorker under way, the steps of the queue alone bring the workers in line: they are
      exactly the pods that exist, with the phases of the store. */
  lemma SyncedAtLast(pool: seq<int>, es: seq<Event>, s: State) returns (fs: seq<Event>, t: State)
    requires Exec(pool, es) == Some(s)
    requires forall i :: 0 <= i < |es| ==> OneStep(es[i])
    requires Distinct(pool) && forall p :: p in pool ==> p > 0
    requires s.creating == map[] && forall n :: n in s.pods ==> !s.pods[n].Applying?
    ensures Exec(pool, es + fs) == Some(t)
    ensures |fs| <= Work(s) && forall i :: 0 <= i < |fs| ==> QueueStep(fs[i])
    ensures BuriesOnly(s.pods, t.pods)
    ensures t.workers.Keys == set n | n in t.pods && t.pods[n].Alive()
    ensures forall n :: n in t.pods && t.pods[n].Stored? ==> t.workers[n].phase == t.pods[n].pod.phase
  {
    fs, t := QueueEmpties(pool, es, s);
    IdleMeansSynced(pool, es + fs, t);
  }

  // ----- deletePodHandle's two actions apart -----

  lemma ExecSnoc(pool: seq<int>, es: seq<Event>, s: State, e: Event) returns (fs: seq<Event>, t: State)
    requires Exec(pool, es) == Some(s)
    requires Enabled(s, e)
    ensures fs == es + [e] && t == Apply(s, e)
    ensures Exec(pool, fs) == Some(t)
  {
    fs, t := es + [e], Apply(s, e);
    assert fs[..|fs| - 1] == es;
  }

  lemma Deployed(pool: seq<int>, pod: Pod) returns (es: seq<Event>, s: State)
    requires pool != []
    requires pod.name == WorkerName(1) && GetPodListenPort(pod) == pool[|pool| - 1]
    ensures Exec(pool, es) == Some(s)
    ensures s.pods == map[pod.name := Stored(pod)] && s.workers == map[pod.name := pod] && s.creating == map[]
    ensures s.doomed == {pod.name} == s.queue && s.retry == {} && s.busy == None
  {
    var n := pod.name;
    es, s := [], Init(pool);
    es, s := ExecSnoc(pool, es, s, TakePort);
    es, s := ExecSnoc(pool, es, s, Created(n, pod));
    es, s := ExecSnoc(pool, es, s, Register(n));
    es, s := ExecSnoc(pool, es, s, Observe(n, pod));
    es, s := ExecSnoc(pool, es, s, Doom(n));
  }

  /** Between the two actions syncPod may run and forget the key: the worker and its port stay behind. */
  lemma LostRemoval(pool: seq<int>, pod: Pod) returns (es: seq<Event>, s: State)
    requires pool != []
    requires pod.name == WorkerName(1) && GetPodListenPort(pod) == pool[|pool| - 1]
    ensures Exec(pool, es) == Some(s)
    ensures Idle(s)
    ensures pod.name in s.workers && pod.name in s.pods && s.pods[pod.name].Zombie?
  {
    var n := pod.name;
    es, s := Deployed(pool, pod);
    es, s := ExecSnoc(pool, es, s, VanishQueued(n));
    es, s := ExecSnoc(pool, es, s, Begin(n));
    es, s := ExecSnoc(pool, es, s, End);
    es, s := ExecSnoc(pool, es, s, VanishNoted(n));
  }

  /** A zombie whose key is not scheduled is never removed: no later step brings its key back. */
  lemma {:induction false} StuckForever(pool: seq<int>, es: seq<Event>, s: State, fs: seq<Event>, t: State, n: string)
    requires Exec(pool, es) == Some(s) && Exec(pool, es + fs) == Some(t)
    requires n in s.pods && s.pods[n].Zombie? && !Scheduled(s, n)
    ensures n in t.pods && t.pods[n] == s.pods[n] && !Scheduled(t, n)
    ensures n in t.workers
    decreases |fs|
  {
    if fs == [] {
      assert es + fs == es;
      Reconciling(pool, es, s);
      assert NameOk(s, n);
    } else {
      var gs := fs[..|fs| - 1];
      assert (es + fs)[..|es + fs| - 1] == es + gs;
      var u := Exec(pool, es + gs).value;
      StuckForever(pool, es, s, gs, u, n);
      Reconciling(pool, es + gs, u);
      Fresh(u);
      Step(u, fs[|fs| - 1], t);
      assert NameOk(u, n) && NameOk(t, n);
      StuckStep(u, fs[|fs| - 1], t, n);
    }
  }

  lemma StuckStep(s: State, e: Event, t: State, n: string)
    requires Enabled(s, e) && t == Apply(s, e)
    requires n in s.pods && s.pods[n].Zombie? && !Scheduled(s, n)
    requires e.TakePort? ==> Unnamed(s, WorkerName(s.counter + 1))
    ensures n in t.pods && t.pods[n] == s.pods[n] && !Scheduled(t, n)
  {
  }

  /** When the second action noted n, its key was no longer scheduled: a sync in between had taken it. */
  ghost predicate Late(pool: seq<int>, es: seq<Event>, n: string) {
    exists i :: 0 <= i < |es| && es[i] == VanishNoted(n) && Forgotten(pool, es[..i], n)
  }

  predicate Forgotten(pool: seq<int>, es: seq<Event>, n: string) {
    match Exec(pool, es)
    case Some(s) => !Scheduled(s, n)
    case None => false
  }

  lemma LateStep(pool: seq<int>, es: seq<Event>, n: string)
    requires es != []
    requires Late(pool, es[..|es| - 1], n) || (es[|es| - 1] == VanishNoted(n) && Forgotten(pool, es[..|es| - 1], n))
    ensures Late(pool, es, n)
  {
    var before := es[..|es| - 1];
    if i :| 0 <= i < |before| && before[i] == VanishNoted(n) && Forgotten(pool, before[..i], n) {
      assert es[i] == VanishNoted(n) && es[..i] == before[..i];
    }
  }

  /** The removal of n is on its way, or will be once the zombie is noted. */
  predicate TimelyOk(s: State, n: string) {
    n in s.pods ==>
      && (s.pods[n].Limbo? && Working(s, n) && s.busy.value.found.Some? ==> n in s.queue || n in s.retry)
      && (s.pods[n].Zombie? ==> n in s.queue || n in s.retry || s.busy == Some(Sync(n, None)))
  }

  lemma TimelyStep(s: State, e: Event, t: State, n: string)
    requires Enabled(s, e) && t == Apply(s, e)
    requires NameOk(s, n) && TimelyOk(s, n)
    requires e == VanishNoted(n) ==> Scheduled(s, n)
    requires e.TakePort? ==> Unnamed(s, WorkerName(s.counter + 1))
    ensures TimelyOk(t, n)
  {
  }

  lemma {:induction false} Timely(pool: seq<int>, es: seq<Event>, s: State, n: string)
    requires Exec(pool, es) == Some(s)
    requires !Late(pool, es, n)
    ensures TimelyOk(s, n)
  {
    if es != [] {
      var before := es[..|es| - 1];
      var s0 := Exec(pool, before).value;
      if Late(pool, before, n) || (es[|es| - 1] == VanishNoted(n) && Forgotten(pool, before, n)) {
        LateStep(pool, es, n);
      }
      Timely(pool, before, s0, n);
      Reconciling(pool, before, s0);
      Fresh(s0);
      assert NameOk(s0, n);
      TimelyStep(s0, es[|es| - 1], s, n);
    }
  }

  lemma {:induction false} PrefixRuns(pool: seq<int>, es: seq<Event>, i: nat)
    requires Exec(pool, es).Some? && i <= |es|
    ensures Exec(pool, es[..i]).Some?
  {
    if i == |es| {
      assert es[..i] == es;
    } else {
      PrefixRuns(pool, es[..|es| - 1], i);
      assert es[..|es| - 1][..i] == es[..i];
    }
  }

  lemma Cut(es: seq<Event>, i: nat)
    requires i < |es|
    ensures es[..i + 1] + es[i + 1..] == es
    ensures es[..i + 1][..i] == es[..i]
  {
  }

  lemma LateIsLost(pool: seq<int>, es: seq<Event>, s: State, n: string, i: nat)
    requires Exec(pool, es) == Some(s)
    requires i < |es| && es[i] == VanishNoted(n) && Forgotten(pool, es[..i], n)
    ensures n in s.pods && s.pods[n].Zombie? && n in s.workers
  {
    var before, after := es[..i + 1], es[i + 1..];
    PrefixRuns(pool, es, i + 1);
    var t := Exec(pool, before).value;
    Cut(es, i);
    NotedStep(pool, before, t, n);
    StuckForever(pool, before, t, after, s, n);
  }

  lemma NotedStep(pool: seq<int>, es: seq<Event>, t: State, n: string)
    requires Exec(pool, es) == Some(t)
    requires es != [] && es[|es| - 1] == VanishNoted(n)
    ensures n in t.pods && t.pods[n].Zombie?
    ensures Forgotten(pool, es[..|es| - 1], n) ==> !Scheduled(t, n)
  {
  }

  /** Once idle, the worker of a deleted pod is left behind exactly when its zombie was noted too late. */
  lemma LostIff(pool: seq<int>, es: seq<Event>, s: State, n: string)
    requires Exec(pool, es) == Some(s)
    requires Idle(s)
    ensures n in s.pods && s.pods[n].Zombie? <==> Late(pool, es, n)
    ensures Late(pool, es, n) ==> n in s.workers
  {
    if Late(pool, es, n) {
      var i :| 0 <= i < |es| && es[i] == VanishNoted(n) && Forgotten(pool, es[..i], n);
      LateIsLost(pool, es, s, n, i);
    } else {
      Timely(pool, es, s, n);
    }
  }

  /** With the two actions apart, an idle set has only the workers of live pods exactly when no deletion is between
      its two actions and each one's second action found its key still scheduled. */
  lemma CleanIff(pool: seq<int>, es: seq<Event>, s: State)
    requires Exec(pool, es) == Some(s)
    requires Idle(s)
    ensures (forall n :: n in s.workers ==> n in s.pods && s.pods[n].Alive()) <==>
            (forall n :: n in s.pods ==> !s.pods[n].Limbo?) && (forall n: string :: !Late(pool, es, n))
  {
    IdleWorkers(pool, es, s);
    forall n: string ensures n in s.pods && s.pods[n].Zombie? <==> Late(pool, es, n) {
      LostIff(pool, es, s, n);
    }
  }
}
