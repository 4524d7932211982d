// Runs of allocation calls that may overlap, among whatever else happens to the pods. The API server stores an update
// only of the version it was made from, as its resource version check does.
module AllocationRuns {
  import opened Allocation
  import opened Wrappers

  /** How far a call is. */
  datatype Call =
    | Chosen(uid: string, seen: Pod, stamp: nat)  // it has chosen a listed pod
    | Behind(uid: string)                         // its update was refused in the words it takes for a collision
    | Fetched(uid: string, seen: Pod, stamp: nat) // it has fetched the pod again

  /** known holds every uid there has ever been; a uid is never used twice. stamps holds each pod's version. */
  datatype World = World(pods: Store, stamps: map<string, nat>, clock: nat, known: set<string>, calls: map<nat, Call>)

  datatype Event =
    | Choose(call: nat, node: string, wanted: nat, uid: string)
    | Update(call: nat, uid: string, now: int) // the update is stored: the call serves the pod
    | Collide(call: nat, text: string)         // the update is refused in these words: the pod has changed
    | Fetch(call: nat)
    | Retry(call: nat, uid: string, now: int)  // the second update is stored: the call serves the pod
    | Abandon(call: nat)                       // any error: the call serves nothing
    | Created(pod: Pod)
    | Deleted(uid: string)
    | Edited(pod: Pod)

  function Stamp(w: World, uid: string): nat {
    if uid in w.stamps then w.stamps[uid] else 0
  }

  /** A write makes a new version. */
  function Put(w: World, pod: Pod): World {
    w.(pods := w.pods[pod.uid := pod], stamps := w.stamps[pod.uid := w.clock + 1], clock := w.clock + 1)
  }

  predicate IsChosen(w: World, c: nat) {
    c in w.calls && w.calls[c].Chosen? && w.calls[c].uid in w.pods
  }

  predicate IsFetched(w: World, c: nat) {
    c in w.calls && w.calls[c].Fetched? && w.calls[c].uid in w.pods
  }

  ghost predicate Allowed(w: World, e: Event) {
    match e
    case Choose(c, node, wanted, uid) => c !in w.calls && Earliest(w.pods, node, wanted, uid)
    case Update(c, uid, _) => IsChosen(w, c) && w.calls[c].uid == uid && w.calls[c].stamp == Stamp(w, uid)
    case Collide(c, _) => IsChosen(w, c) && w.calls[c].stamp != Stamp(w, w.calls[c].uid)
    case Fetch(c) => c in w.calls && w.calls[c].Behind? && w.calls[c].uid in w.pods
    case Retry(c, uid, _) => IsFetched(w, c) && w.calls[c].uid == uid && w.calls[c].stamp == Stamp(w, uid)
    case Abandon(c) => c in w.calls
    case Created(pod) => pod.uid !in w.known
    case Deleted(uid) => uid in w.pods
    case Edited(pod) => pod.uid in w.pods
  }

  ghost function Apply(w: World, e: Event): World
    requires Allowed(w, e)
  {
    match e
    case Choose(c, _, _, uid) => w.(calls := w.calls[c := Chosen(uid, w.pods[uid], Stamp(w, uid))])
    case Update(c, _, now) => Put(w, UpdatePodAnnotations(w.calls[c].seen, now)).(calls := w.calls - {c})
    case Collide(c, text) =>
      if Bare(text) then w.(calls := w.calls[c := Behind(w.calls[c].uid)]) else w.(calls := w.calls - {c})
    case Fetch(c) =>
      var uid := w.calls[c].uid;
      w.(calls := w.calls[c := Fetched(uid, w.pods[uid], Stamp(w, uid))])
    case Retry(c, _, now) => Put(w, UpdatePodAnnotations(w.calls[c].seen, now)).(calls := w.calls - {c})
    case Abandon(c) => w.(calls := w.calls - {c})
    case Created(pod) => Put(w, pod).(known := w.known + {pod.uid})
    case Deleted(uid) => w.(pods := w.pods - {uid})
    case Edited(pod) => Put(w, pod)
  }

  /** The world after the steps es, or None if one of them was not possible. */
  ghost function Exec(w: World, es: seq<Event>): Option<World> {
    if es == [] then Some(w)
    else
      match Exec(w, es[..|es| - 1])
      case None => None
      case Some(v) => if Allowed(v, es[|es| - 1]) then Some(Apply(v, es[|es| - 1])) else None
  }

  // ----- what versions are good for -----

  /** A call knows the pod as it is, unless its version is out of date; it chose the pod unassigned. */
  ghost predicate CallOk(w: World, c: nat) {
    c in w.calls ==>
      var call := w.calls[c];
      && call.uid in w.known
      && (!call.Behind? ==>
            && call.seen.uid == call.uid
            && call.stamp <= w.clock
            && (call.uid in w.pods && Stamp(w, call.uid) == call.stamp ==> w.pods[call.uid] == call.seen))
      && (call.Chosen? ==> Flag(call.seen) == Some("false"))
  }

  ghost predicate PodOk(w: World, uid: string) {
    && Stamp(w, uid) <= w.clock
    && (uid in w.pods ==> w.pods[uid].uid == uid && uid in w.known)
  }

  ghost predicate Sound(w: World) {
    && (forall uid: string :: PodOk(w, uid))
    && (forall c: nat :: CallOk(w, c))
  }

  /** A world with no call under way. */
  ghost predicate Quiet(w: World) {
    w.calls == map[] && forall uid: string :: PodOk(w, uid)
  }

  lemma PodStep(w: World, e: Event, uid: string)
    requires Allowed(w, e) && PodOk(w, uid)
    requires e.Update? || e.Retry? ==> CallOk(w, e.call)
    ensures PodOk(Apply(w, e), uid)
  {
  }

  lemma CallStep(w: World, e: Event, c: nat)
    requires Allowed(w, e) && CallOk(w, c)
    requires e.Choose? ==> PodOk(w, e.uid)
    requires e.Fetch? ==> PodOk(w, w.calls[e.call].uid)
    requires e.Update? || e.Retry? ==> CallOk(w, e.call)
    ensures CallOk(Apply(w, e), c)
  {
  }

  lemma StepSound(w: World, e: Event)
    requires Sound(w) && Allowed(w, e)
    ensures Sound(Apply(w, e))
  {
    if e.Update? || e.Retry? {
      assert CallOk(w, e.call);
    }
    assert e.Choose? ==> PodOk(w, e.uid);
    assert e.Fetch? ==> PodOk(w, w.calls[e.call].uid);
    forall uid: string ensures PodOk(Apply(w, e), uid) {
      PodStep(w, e, uid);
    }
    forall c: nat ensures CallOk(Apply(w, e), c) {
      CallStep(w, e, c);
    }
  }

  lemma {:induction false} RunSound(w: World, es: seq<Event>, v: World)
    requires Sound(w) && Exec(w, es) == Some(v)
    ensures Sound(v)
  {
    if es != [] {
      var u := Exec(w, es[..|es| - 1]).value;
      RunSound(w, es[..|es| - 1], u);
      StepSound(u, es[|es| - 1]);
    }
  }

  // ----- serving and flags -----

  predicate Serves(e: Event, uid: string) {
    (e.Update? || e.Retry?) && e.uid == uid
  }

  ghost predicate ServedIn(es: seq<Event>, uid: string) {
    exists i :: 0 <= i < |es| && Serves(es[i], uid)
  }

  ghost predicate ServedTwice(es: seq<Event>, uid: string) {
    exists i, j :: 0 <= i < j < |es| && Serves(es[i], uid) && Serves(es[j], uid)
  }

  /** A retry that had fetched a pod whose flag says that it is not waiting, and stores its update all the same. */
  predicate Blind(w: World, e: Event, uid: string) {
    e.Retry? && e.uid == uid && e.call in w.calls && w.calls[e.call].Fetched?
    && Flag(w.calls[e.call].seen) != Some("false")
  }

  /** Somebody else sets the flag back. */
  predicate Resets(w: World, e: Event, uid: string) {
    e.Edited? && e.pod.uid == uid && uid in w.pods
    && Flag(w.pods[uid]) != Some("false") && Flag(e.pod) == Some("false")
  }

  /** Somebody else changes the flag. */
  predicate Reflags(w: World, e: Event, uid: string) {
    e.Edited? && e.pod.uid == uid && uid in w.pods && Flag(w.pods[uid]) != Flag(e.pod)
  }

  ghost predicate BlindAt(w: World, es: seq<Event>, uid: string, i: int)
    requires 0 <= i < |es|
  {
    match Exec(w, es[..i]) case Some(v) => Blind(v, es[i], uid) case None => false
  }

  ghost predicate ResetAt(w: World, es: seq<Event>, uid: string, i: int)
    requires 0 <= i < |es|
  {
    match Exec(w, es[..i]) case Some(v) => Resets(v, es[i], uid) case None => false
  }

  ghost predicate ReflagAt(w: World, es: seq<Event>, uid: string, i: int)
    requires 0 <= i < |es|
  {
    match Exec(w, es[..i]) case Some(v) => Reflags(v, es[i], uid) case None => false
  }

  ghost predicate NoResets(w: World, es: seq<Event>, uid: string) {
    forall i :: 0 <= i < |es| ==> !ResetAt(w, es, uid, i)
  }

  ghost predicate NoReflags(w: World, es: seq<Event>, uid: string) {
    forall i :: 0 <= i < |es| ==> !ReflagAt(w, es, uid, i)
  }

  lemma NoResetsPrefix(w: World, es: seq<Event>, uid: string)
    requires es != [] && NoResets(w, es, uid)
    ensures NoResets(w, es[..|es| - 1], uid)
    ensures !ResetAt(w, es, uid, |es| - 1)
  {
    var before := es[..|es| - 1];
    forall i | 0 <= i < |before| ensures !ResetAt(w, before, uid, i) {
      assert before[..i] == es[..i] && !ResetAt(w, es, uid, i);
    }
  }

  lemma NoReflagsPrefix(w: World, es: seq<Event>, uid: string)
    requires es != [] && NoReflags(w, es, uid)
    ensures NoReflags(w, es[..|es| - 1], uid)
    ensures !ReflagAt(w, es, uid, |es| - 1)
  {
    var before := es[..|es| - 1];
    forall i | 0 <= i < |before| ensures !ReflagAt(w, before, uid, i) {
      assert before[..i] == es[..i] && !ReflagAt(w, es, uid, i);
    }
  }

  lemma ServedSnoc(es: seq<Event>, uid: string)
    requires es != []
    ensures ServedIn(es, uid) <==> ServedIn(es[..|es| - 1], uid) || Serves(es[|es| - 1], uid)
  {
    var before := es[..|es| - 1];
    assert forall i :: 0 <= i < |before| ==> before[i] == es[i];
    if Serves(es[|es| - 1], uid) {
      assert ServedIn(es, uid);
    }
  }

  // ----- a second service needs a blind retry -----

  /** The pod is gone for good, or its flag says that it is not waiting. */
  ghost predicate NotWaiting(w: World, uid: string) {
    uid in w.known && (uid in w.pods ==> Flag(w.pods[uid]) != Some("false"))
  }

  lemma NotWaitingStep(w: World, e: Event, uid: string)
    requires Allowed(w, e)
    requires e.Update? || e.Retry? ==> CallOk(w, e.call)
    requires !Resets(w, e, uid)
    requires NotWaiting(w, uid)
    ensures NotWaiting(Apply(w, e), uid)
    ensures Serves(e, uid) ==> Blind(w, e, uid)
  {
  }

  lemma ServingMarks(w: World, e: Event, uid: string)
    requires Allowed(w, e) && Serves(e, uid)
    requires CallOk(w, e.call) && PodOk(w, uid)
    ensures NotWaiting(Apply(w, e), uid)
  {
  }

  lemma {:induction false} ServedNotWaiting(w: World, es: seq<Event>, v: World, uid: string)
    requires Quiet(w) && Exec(w, es) == Some(v)
    requires NoResets(w, es, uid) && ServedIn(es, uid)
    ensures NotWaiting(v, uid)
  {
    var before, e := es[..|es| - 1], es[|es| - 1];
    var u := Exec(w, before).value;
    RunSound(w, before, u);
    NoResetsPrefix(w, es, uid);
    ServedSnoc(es, uid);
    if e.Update? || e.Retry? {
      assert CallOk(u, e.call);
    }
    if ServedIn(before, uid) {
      ServedNotWaiting(w, before, u, uid);
      NotWaitingStep(u, e, uid);
    } else {
      assert PodOk(u, uid);
      ServingMarks(u, e, uid);
    }
  }

  /** Whatever overlaps: unless somebody else sets the flag back, each service of a pod after the first is a retry
      that did not look at the flag it had fetched. So a retry that looked would never serve a pod again. */
  lemma {:induction false} RepeatIsBlind(w: World, es: seq<Event>, uid: string, i: nat, j: nat)
    requires Quiet(w) && Exec(w, es).Some?
    requires NoResets(w, es, uid)
    requires i < j < |es| && Serves(es[i], uid) && Serves(es[j], uid)
    ensures BlindAt(w, es, uid, j)
  {
    var before := es[..|es| - 1];
    NoResetsPrefix(w, es, uid);
    if j < |es| - 1 {
      RepeatIsBlind(w, before, uid, i, j);
      assert before[..j] == es[..j];
    } else {
      var u := Exec(w, before).value;
      assert Serves(before[i], uid);
      ServedNotWaiting(w, before, u, uid);
      RunSound(w, before, u);
      assert CallOk(u, es[j].call);
      NotWaitingStep(u, es[j], uid);
    }
  }

  // ----- a blind retry means a second service -----

  /** As long as nobody has served the pod, a call that has chosen it sees it waiting. */
  ghost predicate StillWaiting(w: World, uid: string, c: nat) {
    c in w.calls && w.calls[c].uid == uid ==>
      && (uid in w.pods ==> Flag(w.pods[uid]) == Some("false"))
      && (w.calls[c].Fetched? ==> Flag(w.calls[c].seen) == Some("false"))
  }

  lemma WaitingStep(w: World, e: Event, uid: string, c: nat)
    requires Allowed(w, e) && !Serves(e, uid) && !Reflags(w, e, uid)
    requires CallOk(w, c) && (e.Update? || e.Retry? ==> CallOk(w, e.call))
    requires StillWaiting(w, uid, c)
    ensures StillWaiting(Apply(w, e), uid, c)
  {
  }

  lemma {:induction false} UnservedWaits(w: World, es: seq<Event>, v: World, uid: string, c: nat)
    requires Quiet(w) && Exec(w, es) == Some(v)
    requires NoReflags(w, es, uid) && !ServedIn(es, uid)
    ensures StillWaiting(v, uid, c)
  {
    if es != [] {
      var before, e := es[..|es| - 1], es[|es| - 1];
      var u := Exec(w, before).value;
      RunSound(w, before, u);
      NoReflagsPrefix(w, es, uid);
      ServedSnoc(es, uid);
      UnservedWaits(w, before, u, uid, c);
      assert CallOk(u, c) && (e.Update? || e.Retry? ==> CallOk(u, e.call));
      WaitingStep(u, e, uid, c);
    }
  }

  lemma {:induction false} BlindRepeats(w: World, es: seq<Event>, uid: string, j: nat)
    requires Quiet(w) && Exec(w, es).Some?
    requires NoReflags(w, es, uid)
    requires j < |es| && BlindAt(w, es, uid, j)
    ensures ServedIn(es[..j], uid)
  {
    var before := es[..|es| - 1];
    NoReflagsPrefix(w, es, uid);
    if j < |es| - 1 {
      assert before[..j] == es[..j];
      BlindRepeats(w, before, uid, j);
    } else if !ServedIn(before, uid) {
      UnservedWaits(w, before, Exec(w, before).value, uid, es[j].call);
    }
  }

  lemma NoReflagsNoResets(w: World, es: seq<Event>, uid: string)
    requires NoReflags(w, es, uid)
    ensures NoResets(w, es, uid)
  {
    forall i | 0 <= i < |es| ensures !ResetAt(w, es, uid, i) {
      assert !ReflagAt(w, es, uid, i);
    }
  }

  /** In any run of overlapping calls in which nobody else changes the flag, a pod is served twice if and only if
      some retry stores its update although the pod it had fetched was not waiting any more. */
  lemma ServedTwiceIff(w: World, es: seq<Event>, uid: string)
    requires Quiet(w) && Exec(w, es).Some?
    requires NoReflags(w, es, uid)
    ensures ServedTwice(es, uid) <==> exists j :: 0 <= j < |es| && BlindAt(w, es, uid, j)
  {
    NoReflagsNoResets(w, es, uid);
    if i, j :| 0 <= i < j < |es| && Serves(es[i], uid) && Serves(es[j], uid) {
      RepeatIsBlind(w, es, uid, i, j);
    }
    if j :| 0 <= j < |es| && BlindAt(w, es, uid, j) {
      BlindRepeats(w, es, uid, j);
      var i :| 0 <= i < j && Serves(es[..j][i], uid);
      assert Serves(es[i], uid) && Serves(es[j], uid);
    }
  }

  lemma ExecSnoc(w: World, es: seq<Event>, v: World, e: Event) returns (fs: seq<Event>, u: World)
    requires Exec(w, es) == Some(v) && Allowed(v, e)
    ensures fs == es + [e] && u == Apply(v, e)
    ensures Exec(w, fs) == Some(u)
  {
    fs, u := es + [e], Apply(v, e);
    assert fs[..|fs| - 1] == es;
  }

  /** One call chooses the pod, another serves it in between. */
  lemma Overtaken(w: World, node: string, wanted: nat, uid: string) returns (es: seq<Event>, v: World)
    requires Quiet(w) && Earliest(w.pods, node, wanted, uid)
    ensures es == [Choose(0, node, wanted, uid), Choose(1, node, wanted, uid), Update(0, uid, 1)]
    ensures Exec(w, es) == Some(v)
    ensures IsChosen(v, 1) && v.calls[1].uid == uid && v.calls[1].stamp != Stamp(v, uid)
  {
    assert PodOk(w, uid);
    es, v := [], w;
    es, v := ExecSnoc(w, es, v, Choose(0, node, wanted, uid));
    es, v := ExecSnoc(w, es, v, Choose(1, node, wanted, uid));
    es, v := ExecSnoc(w, es, v, Update(0, uid, 1));
  }

  /** A call whose update is refused in the words it compares with fetches the pod again and serves it. */
  lemma RetryServes(w: World, es: seq<Event>, v: World, c: nat, uid: string, now: int)
      returns (fs: seq<Event>, u: World)
    requires Exec(w, es) == Some(v)
    requires IsChosen(v, c) && v.calls[c].uid == uid && v.calls[c].stamp != Stamp(v, uid)
    requires v.pods[uid].uid == uid
    ensures fs == es + [Collide(c, OPTIMISTIC_LOCK_ERROR_MSG)] + [Fetch(c)] + [Retry(c, uid, now)]
    ensures Exec(w, fs) == Some(u)
    ensures u.pods == v.pods[uid := UpdatePodAnnotations(v.pods[uid], now)] && u.calls == v.calls - {c}
  {
    fs, u := ExecSnoc(w, es, v, Collide(c, OPTIMISTIC_LOCK_ERROR_MSG));
    fs, u := ExecSnoc(w, fs, u, Fetch(c));
    fs, u := ExecSnoc(w, fs, u, Retry(c, uid, now));
  }

  /** Every refusal of the run has one of these texts. */
  ghost predicate Worded(es: seq<Event>, texts: set<string>) {
    forall i :: 0 <= i < |es| ==> es[i].Collide? ==> es[i].text in texts
  }

  /** Two calls that overlap can serve any pod both, if a refusal comes in the bare words: each chooses the pod before
      the other has marked it. */
  lemma TwoCallsServeOnePod(w: World, node: string, wanted: nat, uid: string) returns (es: seq<Event>, v: World)
    requires Quiet(w) && Earliest(w.pods, node, wanted, uid)
    ensures Exec(w, es) == Some(v)
    ensures Worded(es, {OPTIMISTIC_LOCK_ERROR_MSG})
    ensures NoReflags(w, es, uid) && ServedTwice(es, uid)
  {
    es, v := Overtaken(w, node, wanted, uid);
    RunSound(w, es, v);
    assert PodOk(v, uid);
    es, v := RetryServes(w, es, v, 1, uid, 2);
    assert Serves(es[2], uid) && Serves(es[5], uid);
    NoEditsNoReflags(w, es, uid);
  }

  lemma NoEditsNoReflags(w: World, es: seq<Event>, uid: string)
    requires forall i :: 0 <= i < |es| ==> !es[i].Edited?
    ensures NoReflags(w, es, uid)
  {
  }

  // ----- what the words of a refusal decide -----

  ghost predicate NoneBare(es: seq<Event>) {
    forall i :: 0 <= i < |es| ==> es[i].Collide? ==> !Bare(es[i].text)
  }

  /** Without a refusal in the bare words no call ever tries again. */
  lemma {:induction false} NoRetry(w: World, es: seq<Event>, v: World, c: nat)
    requires Quiet(w) && Exec(w, es) == Some(v)
    requires NoneBare(es)
    ensures c in v.calls ==> v.calls[c].Chosen?
  {
    if es != [] {
      var before, e := es[..|es| - 1], es[|es| - 1];
      assert forall i :: 0 <= i < |before| ==> before[i] == es[i];
      var u := Exec(w, before).value;
      NoRetry(w, before, u, c);
      ChosenStep(u, e, c);
    }
  }

  lemma ChosenStep(w: World, e: Event, c: nat)
    requires Allowed(w, e) && (e.Collide? ==> !Bare(e.text))
    requires c in w.calls ==> w.calls[c].Chosen?
    ensures c in Apply(w, e).calls ==> Apply(w, e).calls[c].Chosen?
  {
  }

  /** However calls overlap: without a refusal in the bare words, and unless somebody sets the flag back, no pod is
      served twice. */
  lemma OnceUnlessBare(w: World, es: seq<Event>, uid: string)
    requires Quiet(w) && Exec(w, es).Some?
    requires NoResets(w, es, uid) && NoneBare(es)
    ensures !ServedTwice(es, uid)
  {
    if i, j :| 0 <= i < j < |es| && Serves(es[i], uid) && Serves(es[j], uid) {
      RepeatIsBlind(w, es, uid, i, j);
      var before := es[..j];
      assert forall k :: 0 <= k < |before| ==> before[k] == es[k];
      NoRetry(w, before, Exec(w, before).value, es[j].call);
    }
  }

  /** Where a pod matches, overlapping calls can serve it twice, without anybody else touching its flag, if and only if
      the API server may refuse an update in exactly the words the call compares with. */
  lemma WordsDecide(w: World, node: string, wanted: nat, uid: string, texts: set<string>)
    requires Quiet(w) && Earliest(w.pods, node, wanted, uid)
    ensures (exists es :: Exec(w, es).Some? && Worded(es, texts) && NoReflags(w, es, uid) && ServedTwice(es, uid))
       <==> OPTIMISTIC_LOCK_ERROR_MSG in texts
  {
    if OPTIMISTIC_LOCK_ERROR_MSG in texts {
      var es, v := TwoCallsServeOnePod(w, node, wanted, uid);
      assert Worded(es, texts);
    } else {
      forall es | Exec(w, es).Some? && Worded(es, texts) && NoReflags(w, es, uid) ensures !ServedTwice(es, uid) {
        assert NoneBare(es);
        NoReflagsNoResets(w, es, uid);
        OnceUnlessBare(w, es, uid);
      }
    }
  }

  /** With refusals worded by the client library no pod is served twice, however calls overlap. */
  lemma OnceWithLibrary(w: World, es: seq<Event>, uid: string)
    requires Quiet(w) && Exec(w, es).Some?
    requires NoResets(w, es, uid)
    requires forall i :: 0 <= i < |es| ==> es[i].Collide? ==> FromLibrary(es[i].text)
    ensures !ServedTwice(es, uid)
  {
    forall i | 0 <= i < |es| && es[i].Collide? ensures !Bare(es[i].text) {
      LibraryNeverBare(es[i].text);
    }
    OnceUnlessBare(w, es, uid);
  }

  // ----- calls one at a time -----

  /** A call begins only when no other is under way. */
  ghost predicate OneAtATime(w: World, es: seq<Event>) {
    forall i :: 0 <= i < |es| ==> BeginsAlone(w, es, i)
  }

  ghost predicate BeginsAlone(w: World, es: seq<Event>, i: int)
    requires 0 <= i < |es|
  {
    es[i].Choose? ==> match Exec(w, es[..i]) case Some(v) => v.calls == map[] case None => true
  }

  lemma OneAtATimePrefix(w: World, es: seq<Event>)
    requires es != [] && OneAtATime(w, es)
    ensures OneAtATime(w, es[..|es| - 1])
    ensures BeginsAlone(w, es, |es| - 1)
  {
    var before := es[..|es| - 1];
    forall i | 0 <= i < |before| ensures BeginsAlone(w, before, i) {
      assert before[..i] == es[..i] && BeginsAlone(w, es, i);
    }
  }

  ghost predicate OnlyCall(w: World) {
    forall c, d :: c in w.calls && d in w.calls ==> c == d
  }

  ghost predicate Wants(w: World, uid: string) {
    exists c :: c in w.calls && w.calls[c].uid == uid
  }

  lemma AloneStep(w: World, e: Event, uid: string)
    requires Allowed(w, e) && OnlyCall(w)
    requires e.Choose? ==> w.calls == map[]
    ensures OnlyCall(Apply(w, e))
    ensures Serves(e, uid) ==> Wants(w, uid) && !Wants(Apply(w, e), uid)
    ensures Wants(Apply(w, e), uid) ==> Wants(w, uid) || (uid in w.pods && Flag(w.pods[uid]) == Some("false"))
  {
    var v := Apply(w, e);
    if c :| c in v.calls && v.calls[c].uid == uid {
      assert (c in w.calls && w.calls[c].uid == uid) || e.Choose?;
    }
  }

  /** While a call is about a pod, nobody has served it. */
  lemma {:induction false} AloneUnserved(w: World, es: seq<Event>, v: World, uid: string)
    requires Quiet(w) && Exec(w, es) == Some(v)
    requires OneAtATime(w, es) && NoResets(w, es, uid)
    ensures OnlyCall(v)
    ensures Wants(v, uid) ==> !ServedIn(es, uid)
  {
    if es != [] {
      var before, e := es[..|es| - 1], es[|es| - 1];
      var u := Exec(w, before).value;
      OneAtATimePrefix(w, es);
      NoResetsPrefix(w, es, uid);
      AloneUnserved(w, before, u, uid);
      AloneStep(u, e, uid);
      ServedSnoc(es, uid);
      if ServedIn(before, uid) {
        ServedNotWaiting(w, before, u, uid);
      }
    }
  }

  /** With calls one at a time no pod is served twice, whatever order the candidates are listed in, however ties
      break and whatever others do to the pods, unless somebody sets the flag back. */
  lemma {:induction false} AtMostOnce(w: World, es: seq<Event>, uid: string)
    requires Quiet(w) && Exec(w, es).Some?
    requires OneAtATime(w, es) && NoResets(w, es, uid)
    ensures !ServedTwice(es, uid)
  {
    if es != [] {
      var before, e := es[..|es| - 1], es[|es| - 1];
      var u := Exec(w, before).value;
      OneAtATimePrefix(w, es);
      NoResetsPrefix(w, es, uid);
      AtMostOnce(w, before, uid);
      AloneUnserved(w, before, u, uid);
      AloneStep(u, e, uid);
      forall i, j | 0 <= i < j < |es| && Serves(es[i], uid) ensures !Serves(es[j], uid) {
        assert Serves(before[i], uid);
        assert j < |before| ==> !Serves(before[j], uid);
      }
    }
  }

  /** One call, alone, serves the pod. */
  lemma ServeAlone(w: World, es: seq<Event>, v: World, c: nat, node: string, wanted: nat, uid: string)
      returns (fs: seq<Event>, u: World)
    requires Sound(w) && Exec(w, es) == Some(v)
    requires v.calls == map[] && Earliest(v.pods, node, wanted, uid)
    ensures fs == es + [Choose(c, node, wanted, uid)] + [Update(c, uid, 1)]
    ensures Exec(w, fs) == Some(u)
    ensures u.pods == v.pods[uid := UpdatePodAnnotations(v.pods[uid], 1)] && u.calls == map[]
  {
    RunSound(w, es, v);
    assert PodOk(v, uid);
    fs, u := ExecSnoc(w, es, v, Choose(c, node, wanted, uid));
    fs, u := ExecSnoc(w, fs, u, Update(c, uid, 1));
  }

  /** A pod is served and then made what it was before. */
  lemma SetBack(w: World, node: string, wanted: nat, uid: string) returns (es: seq<Event>, v: World)
    requires Quiet(w) && Earliest(w.pods, node, wanted, uid)
    ensures es == [Choose(0, node, wanted, uid), Update(0, uid, 1), Edited(w.pods[uid])]
    ensures Exec(w, es) == Some(v)
    ensures v.pods == w.pods && v.calls == map[]
  {
    assert PodOk(w, uid);
    es, v := ServeAlone(w, [], w, 0, node, wanted, uid);
    es, v := ExecSnoc(w, es, v, Edited(w.pods[uid]));
  }

  lemma AloneTwice(w: World, es: seq<Event>, fs: seq<Event>, v: World)
    requires Quiet(w) && |es| == 3 && |fs| == 5 && fs[..3] == es
    requires Exec(w, es) == Some(v) && v.calls == map[]
    requires fs[1].Update? && fs[2].Edited? && fs[4].Update?
    ensures OneAtATime(w, fs)
  {
    assert fs[..0] == [] && Exec(w, []) == Some(w);
    forall i | 0 <= i < |fs| ensures BeginsAlone(w, fs, i) {
      assert i == 0 || i == 3 || !fs[i].Choose?;
    }
  }

  /** If somebody does set the flag back, calls one at a time serve a pod twice: any pod that matches is served, made
      what it was before, and served again. */
  lemma ResetServesAgain(w: World, node: string, wanted: nat, uid: string) returns (es: seq<Event>, v: World)
    requires Quiet(w) && Earliest(w.pods, node, wanted, uid)
    ensures es == [Choose(0, node, wanted, uid), Update(0, uid, 1), Edited(w.pods[uid]),
                   Choose(1, node, wanted, uid), Update(1, uid, 1)]
    ensures Exec(w, es) == Some(v)
    ensures OneAtATime(w, es) && ServedTwice(es, uid)
  {
    var before, u := SetBack(w, node, wanted, uid);
    es, v := ServeAlone(w, before, u, 1, node, wanted, uid);
    AloneTwice(w, before, es, u);
    assert Serves(es[1], uid) && Serves(es[4], uid);
  }

  // ----- a whole call -----

  /** A call whose update is refused because the pod was edited. */
  lemma RefusalIsRun(w: World, es: seq<Event>, v: World,
                     uid: string, text: string, pod: Pod, storedThen: bool, later: int)
      returns (fs: seq<Event>, u: World)
    requires Sound(w) && Exec(w, es) == Some(v)
    requires v.pods == w.pods && IsChosen(v, 0) && v.calls.Keys == {0} && v.calls[0].uid == uid == pod.uid
    requires !ServedIn(es, uid)
    ensures Exec(w, fs) == Some(u)
    ensures u.pods == Marked(w.pods, uid, Refused(text, Some(pod), storedThen), 0, later) && u.calls == map[]
    ensures ServedIn(fs, uid) <==> Bare(text) && storedThen
  {
    RunSound(w, es, v);
    assert PodOk(v, uid) && CallOk(v, 0);
    fs, u := ExecSnoc(w, es, v, Edited(pod));
    ServedSnoc(fs, uid);
    if Bare(text) && storedThen {
      fs, u := RetryServes(w, fs, u, 0, uid, later);
      assert Serves(fs[|fs| - 1], uid);
    } else {
      fs, u := ExecSnoc(w, fs, u, Abandon(0));
      ServedSnoc(fs, uid);
    }
  }

  /** What Allocate does to the store, with the edit or deletion before its refusal, is a run of these steps. */
  lemma CallIsRun(w: World, node: string, wanted: nat, uid: string, reply: Reply, now: int, later: int)
      returns (es: seq<Event>, v: World)
    requires Quiet(w) && Earliest(w.pods, node, wanted, uid)
    requires reply.Refused? && reply.current.Some? ==> reply.current.value.uid == uid
    ensures Exec(w, es) == Some(v)
    ensures v.pods == Marked(w.pods, uid, reply, now, later) && v.calls == map[]
    ensures ServedIn(es, uid) <==> Accepts(reply)
  {
    assert PodOk(w, uid);
    es, v := ExecSnoc(w, [], w, Choose(0, node, wanted, uid));
    match reply {
      case Stored =>
        es, v := ExecSnoc(w, es, v, Update(0, uid, now));
        assert Serves(es[1], uid);
      case Refused(_, None, _) =>
        es, v := ExecSnoc(w, es, v, Deleted(uid));
        es, v := ExecSnoc(w, es, v, Abandon(0));
      case Refused(text, Some(pod), storedThen) =>
        es, v := RefusalIsRun(w, es, v, uid, text, pod, storedThen, later);
    }
  }
}
