// Allocation: which waiting pod gets the board, and what marks it as served.
module Allocation {
  import opened DevicePlugin
  import opened FakeDevices
  import opened Text
  import opened Wrappers

  const RESOURCE_NAME := "xilinx.com/fpga-xilinx_u200_xdma_201830_1-1542252769-fraction"
  const ENV_RESOURCE_INDEX := "PFGA_BIND_IDX"
  const ENV_ASSIGNED_FLAG := "PFGA_IS_ASSIGNED"
  const ENV_RESOURCE_ASSUME_TIME := "FPGA_BIND_TIMESTAMP"
  const OPTIMISTIC_LOCK_ERROR_MSG :=
    "the object" + " has been modified; please apply your changes to the latest version and try again"
  const RETRIES := 5
  const WORD := 0x1_0000_0000_0000_0000

  datatype Pod = Pod(
    uid: string,
    nodeName: string,
    phase: string,
    annotations: map<string, string>,
    limits: seq<map<string, int>>) // one for each container

  // ----- what a pod says -----

  function Declared(limits: map<string, int>): int {
    if RESOURCE_NAME in limits then limits[RESOURCE_NAME] else 0
  }

  function TotalLimit(limits: seq<map<string, int>>): int {
    if limits == [] then 0 else TotalLimit(limits[..|limits| - 1]) + Declared(limits[|limits| - 1])
  }

  /** The fractions a pod asks for, in a machine word. */
  function FPGALimit(pod: Pod): nat {
    TotalLimit(pod.limits) % WORD
  }

  method GetFPGALimitFromPodResource(pod: Pod) returns (total: nat)
    ensures total == FPGALimit(pod)
  {
    total := 0;
    for i := 0 to |pod.limits|
      invariant total == TotalLimit(pod.limits[..i]) % WORD
    {
      assert pod.limits[..i + 1][..i] == pod.limits[..i];
      if RESOURCE_NAME in pod.limits[i] {
        total := (total + pod.limits[i][RESOURCE_NAME] % WORD) % WORD;
      }
    }
    assert pod.limits[..|pod.limits|] == pod.limits;
  }

  /** A time that does not parse counts as 0. */
  function AssumeTime(pod: Pod): nat {
    if ENV_RESOURCE_ASSUME_TIME in pod.annotations then
      match ParseUint(pod.annotations[ENV_RESOURCE_ASSUME_TIME])
      case Some(time) => time
      case None => 0
    else 0
  }

  /** The bound index, or a negative number. */
  function FPGAID(pod: Pod): int {
    if ENV_RESOURCE_INDEX in pod.annotations then
      match Atoi(pod.annotations[ENV_RESOURCE_INDEX])
      case Some(id) => id
      case None => -1
    else -1
  }

  function Flag(pod: Pod): Option<string> {
    if ENV_ASSIGNED_FLAG in pod.annotations then Some(pod.annotations[ENV_ASSIGNED_FLAG]) else None
  }

  predicate IsFPGAAssumedPod(pod: Pod) {
    && FPGALimit(pod) > 0
    && ENV_RESOURCE_ASSUME_TIME in pod.annotations
    && Flag(pod) == Some("false")
  }

  function UpdatePodAnnotations(pod: Pod, now: int): Pod {
    pod.(annotations := pod.annotations[ENV_ASSIGNED_FLAG := "true"][ENV_RESOURCE_ASSUME_TIME := ItoaInt(now)])
  }

  /** A served pod is no candidate any more, its time is that of the service, and nothing else about it changes. */
  lemma ServedPod(pod: Pod, now: int)
    ensures !IsFPGAAssumedPod(UpdatePodAnnotations(pod, now))
    ensures FPGAID(UpdatePodAnnotations(pod, now)) == FPGAID(pod)
    ensures FPGALimit(UpdatePodAnnotations(pod, now)) == FPGALimit(pod)
    ensures 0 <= now <= MAX_UINT64 ==> AssumeTime(UpdatePodAnnotations(pod, now)) == now
    ensures var served := UpdatePodAnnotations(pod, now);
            && served == pod.(annotations := served.annotations)
            && served.annotations.Keys == pod.annotations.Keys + {"PFGA_IS_ASSIGNED", "FPGA_BIND_TIMESTAMP"}
            && served.annotations["PFGA_IS_ASSIGNED"] == "true"
            && served.annotations["FPGA_BIND_TIMESTAMP"] == ItoaInt(now)
            && forall k :: k in pod.annotations && k !in {"PFGA_IS_ASSIGNED", "FPGA_BIND_TIMESTAMP"} ==>
                 served.annotations[k] == pod.annotations[k]
  {
    KeysDiffer();
    if now >= 0 {
      NumeralRoundTrip(now);
    }
  }

  lemma KeysDiffer()
    ensures "PFGA_IS_ASSIGNED" != "FPGA_BIND_TIMESTAMP"
    ensures "PFGA_BIND_IDX" !in {"PFGA_IS_ASSIGNED", "FPGA_BIND_TIMESTAMP"}
  {
    assert "PFGA_IS_ASSIGNED"[0] == "PFGA_BIND_IDX"[0] == 'P' && "FPGA_BIND_TIMESTAMP"[0] == 'F';
    assert "PFGA_IS_ASSIGNED"[5] == 'I' && "PFGA_BIND_IDX"[5] == 'B';
  }

  /** The pod's annotation binds it to board i. */
  predicate BoundTo(pod: Pod, i: int) {
    "PFGA_BIND_IDX" in pod.annotations && pod.annotations["PFGA_BIND_IDX"] == ItoaInt(i)
  }

  /** The bound index is read back, and without a numeral there is none. */
  lemma BoundIndex(pod: Pod, i: int)
    ensures BoundTo(pod, i) && -MAX_INT64 - 1 <= i <= MAX_INT64 ==> FPGAID(pod) == i
    ensures "PFGA_BIND_IDX" !in pod.annotations ==> FPGAID(pod) < 0
    ensures "PFGA_BIND_IDX" in pod.annotations && Atoi(pod.annotations["PFGA_BIND_IDX"]) == None ==> FPGAID(pod) < 0
  {
    SignedRoundTrip(i);
  }

  /** The assume time is read back, and counts as 0 where there is none. */
  lemma TimeRead(pod: Pod, t: nat)
    requires t <= MAX_UINT64
    ensures "FPGA_BIND_TIMESTAMP" in pod.annotations && pod.annotations["FPGA_BIND_TIMESTAMP"] == Itoa(t) ==>
              AssumeTime(pod) == t
    ensures "FPGA_BIND_TIMESTAMP" !in pod.annotations ==> AssumeTime(pod) == 0
    ensures "FPGA_BIND_TIMESTAMP" in pod.annotations && ParseUint(pod.annotations["FPGA_BIND_TIMESTAMP"]) == None ==>
              AssumeTime(pod) == 0
  {
    NumeralRoundTrip(t);
  }

  /** Which pods await their board, in terms of what they say. */
  lemma AssumedPods(pod: Pod)
    ensures IsFPGAAssumedPod(pod) <==>
            && FPGALimit(pod) != 0
            && "FPGA_BIND_TIMESTAMP" in pod.annotations
            && "PFGA_IS_ASSIGNED" in pod.annotations
            && pod.annotations["PFGA_IS_ASSIGNED"] == "false"
  {
  }

  /** The limits of the containers add up. */
  lemma {:induction false} LimitsAdd(a: seq<map<string, int>>, b: seq<map<string, int>>)
    ensures TotalLimit(a + b) == TotalLimit(a) + TotalLimit(b)
    ensures forall m: map<string, int> :: TotalLimit([m]) == if RESOURCE_NAME in m then m[RESOURCE_NAME] else 0
  {
    forall m: map<string, int> ensures TotalLimit([m]) == if RESOURCE_NAME in m then m[RESOURCE_NAME] else 0 {
      assert [m][..0] == [] && [m][0] == m;
    }
    if b == [] {
      assert a + b == a;
    } else {
      LimitsAdd(a, b[..|b| - 1]);
      assert (a + b)[..|a + b| - 1] == a + b[..|b| - 1];
    }
  }

  // ----- candidates -----

  type Store = map<string, Pod>

  ghost predicate WellKeyed(pods: Store) {
    forall uid :: uid in pods ==> pods[uid].uid == uid
  }

  ghost predicate Waiting(pod: Pod, node: string) {
    pod.nodeName == node && pod.phase == "Pending"
  }

  /** What the API server lists for the node: the waiting pods, in any order. */
  ghost predicate IsListing(listed: seq<Pod>, pods: Store, node: string) {
    && (forall pod :: pod in listed ==> pod.uid in pods && pods[pod.uid] == pod && Waiting(pod, node))
    && (forall uid :: uid in pods && Waiting(pods[uid], node) ==> pods[uid] in listed)
  }

  method GetPendingPodsInNode(listed: seq<Pod>, node: string) returns (r: seq<Pod>)
    requires forall p, q :: p in listed && q in listed && p.uid == q.uid ==> p == q
    ensures forall p :: p in r <==> p in listed && p.nodeName == node
    ensures forall i, j :: 0 <= i < j < |r| ==> r[i].uid != r[j].uid
  {
    r := [];
    var seen: set<string> := {};
    for i := 0 to |listed|
      invariant forall p :: p in r <==> p in listed[..i] && p.nodeName == node
      invariant forall p :: p in r ==> p.uid in seen
      invariant forall uid :: uid in seen ==> exists p :: p in r && p.uid == uid
      invariant forall a, b :: 0 <= a < b < |r| ==> r[a].uid != r[b].uid
    {
      var pod := listed[i];
      assert listed[..i + 1] == listed[..i] + [pod];
      if pod.nodeName == node && pod.uid !in seen {
        r := r + [pod];
        seen := seen + {pod.uid};
      }
    }
    assert listed[..|listed|] == listed;
  }

  method FilterAssumed(pods: seq<Pod>) returns (r: seq<Pod>)
    ensures forall p :: p in r <==> p in pods && IsFPGAAssumedPod(p)
  {
    r := [];
    for i := 0 to |pods|
      invariant forall p :: p in r <==> p in pods[..i] && IsFPGAAssumedPod(p)
    {
      assert pods[..i + 1] == pods[..i] + [pods[i]];
      if IsFPGAAssumedPod(pods[i]) {
        r := r + [pods[i]];
      }
    }
    assert pods[..|pods|] == pods;
  }

  ghost predicate ByAge(pods: seq<Pod>) {
    forall i, j :: 0 <= i < j < |pods| ==> AssumeTime(pods[i]) <= AssumeTime(pods[j])
  }

  /** Any order of equally old pods is as good as another. */
  method MakePodOrderedByAge(pods: seq<Pod>) returns (r: seq<Pod>)
    ensures multiset(r) == multiset(pods)
    ensures ByAge(r)
  {
    r := [];
    for i := 0 to |pods|
      invariant multiset(r) == multiset(pods[..i])
      invariant ByAge(r)
    {
      assert pods[..i + 1] == pods[..i] + [pods[i]];
      r := InsertByAge(r, pods[i]);
    }
    assert pods[..|pods|] == pods;
  }

  method InsertByAge(pods: seq<Pod>, pod: Pod) returns (r: seq<Pod>)
    requires ByAge(pods)
    ensures multiset(r) == multiset(pods) + multiset{pod}
    ensures ByAge(r)
  {
    var p := |pods|;
    while p > 0 && AssumeTime(pod) <= AssumeTime(pods[p - 1])
      invariant 0 <= p <= |pods|
      invariant forall j :: p <= j < |pods| ==> AssumeTime(pod) <= AssumeTime(pods[j])
    {
      p := p - 1;
    }
    r := pods[..p] + [pod] + pods[p..];
    InsertedAmong(pods, pod, p);
    InsertedByAge(pods, pod, p);
  }

  lemma InsertedAmong(pods: seq<Pod>, pod: Pod, p: nat)
    requires p <= |pods|
    ensures multiset(pods[..p] + [pod] + pods[p..]) == multiset(pods) + multiset{pod}
  {
    assert pods == pods[..p] + pods[p..];
  }

  lemma InsertedByAge(pods: seq<Pod>, pod: Pod, p: nat)
    requires ByAge(pods) && p <= |pods|
    requires p > 0 ==> AssumeTime(pods[p - 1]) <= AssumeTime(pod)
    requires forall j :: p <= j < |pods| ==> AssumeTime(pod) <= AssumeTime(pods[j])
    ensures ByAge(pods[..p] + [pod] + pods[p..])
  {
  }

  /** A pod the node waits with that asks for this many fractions. */
  ghost predicate Matches(pod: Pod, node: string, wanted: nat) {
    Waiting(pod, node) && IsFPGAAssumedPod(pod) && FPGALimit(pod) == wanted
  }

  /** uid matches, and no match has waited longer. */
  ghost predicate Earliest(pods: Store, node: string, wanted: nat, uid: string) {
    && uid in pods && Matches(pods[uid], node, wanted)
    && forall v :: v in pods && Matches(pods[v], node, wanted) ==> AssumeTime(pods[uid]) <= AssumeTime(pods[v])
  }

  method GetCandidatePods(listed: seq<Pod>, node: string, ghost pods: Store) returns (r: seq<Pod>)
    requires WellKeyed(pods) && IsListing(listed, pods, node)
    ensures ByAge(r)
    ensures forall p :: p in r ==> p.uid in pods && pods[p.uid] == p && Waiting(p, node) && IsFPGAAssumedPod(p)
    ensures forall uid :: uid in pods && Waiting(pods[uid], node) && IsFPGAAssumedPod(pods[uid]) ==> pods[uid] in r
  {
    var all := GetPendingPodsInNode(listed, node);
    var candidates := FilterAssumed(all);
    r := MakePodOrderedByAge(candidates);
    forall p ensures p in r <==> p in candidates {
      assert p in r <==> multiset(r)[p] > 0;
      assert p in candidates <==> multiset(candidates)[p] > 0;
    }
  }

  /** The first candidate that asks for the wanted number is the earliest match. */
  method Choose(listed: seq<Pod>, node: string, wanted: nat, ghost pods: Store) returns (r: Option<Pod>)
    requires WellKeyed(pods) && IsListing(listed, pods, node)
    ensures r.None? <==> forall uid :: uid in pods ==> !Matches(pods[uid], node, wanted)
    ensures r.Some? ==> Earliest(pods, node, wanted, r.value.uid) && pods[r.value.uid] == r.value
  {
    var candidates := GetCandidatePods(listed, node, pods);
    r := None;
    for i := 0 to |candidates|
      invariant r.None?
      invariant forall j :: 0 <= j < i ==> FPGALimit(candidates[j]) != wanted
    {
      var limit := GetFPGALimitFromPodResource(candidates[i]);
      if limit == wanted {
        forall uid | uid in pods && Matches(pods[uid], node, wanted)
          ensures AssumeTime(candidates[i]) <= AssumeTime(pods[uid])
        {
          var j :| 0 <= j < |candidates| && candidates[j] == pods[uid];
        }
        assert candidates[i] in candidates;
        return Some(candidates[i]);
      }
    }
    forall uid | uid in pods ensures !Matches(pods[uid], node, wanted) {
      assert pods[uid] in candidates ==> FPGALimit(pods[uid]) != wanted;
    }
  }

  // ----- the response -----

  datatype DeviceSpec = DeviceSpec(hostPath: string, containerPath: string, permissions: string)
  datatype Mount = Mount(hostPath: string, containerPath: string, readOnly: bool)
  datatype ContainerResponse = ContainerResponse(devices: seq<DeviceSpec>, mounts: seq<Mount>)

  /** The device nodes of a board: the management node if it has one, then the user node. */
  function NodesOf(dev: Device): seq<string> {
    (if dev.nodes.mgmt != "" then [dev.nodes.mgmt] else []) + [dev.nodes.user]
  }

  function Repeated(paths: seq<string>, n: nat): (r: seq<string>)
    ensures |r| == n * |paths|
  {
    if n == 0 then [] else Repeated(paths, n - 1) + paths
  }

  function ResponseFor(paths: seq<string>): ContainerResponse {
    ContainerResponse(
      seq(|paths|, i requires 0 <= i < |paths| => DeviceSpec(paths[i], paths[i], "rwm")),
      seq(|paths|, i requires 0 <= i < |paths| => Mount(paths[i], paths[i], false)))
  }

  method AddNode(c: ContainerResponse, path: string, ghost paths: seq<string>) returns (r: ContainerResponse)
    requires c == ResponseFor(paths)
    ensures r == ResponseFor(paths + [path])
  {
    r := ContainerResponse(c.devices + [DeviceSpec(path, path, "rwm")], c.mounts + [Mount(path, path, false)]);
  }

  /** One container's answer names the nodes of the board once for each fraction it asked for. */
  method Respond(dev: Device, n: nat) returns (r: ContainerResponse)
    ensures r == ResponseFor(Repeated(NodesOf(dev), n))
  {
    r := ContainerResponse([], []);
    assert r == ResponseFor([]);
    for i := 0 to n
      invariant r == ResponseFor(Repeated(NodesOf(dev), i))
    {
      ghost var paths := Repeated(NodesOf(dev), i);
      if dev.nodes.mgmt != "" {
        r := AddNode(r, dev.nodes.mgmt, paths);
        r := AddNode(r, dev.nodes.user, paths + [dev.nodes.mgmt]);
        assert paths + [dev.nodes.mgmt] + [dev.nodes.user] == paths + NodesOf(dev);
      } else {
        r := AddNode(r, dev.nodes.user, paths);
      }
    }
  }

  lemma {:induction false} RepeatedAt(paths: seq<string>, n: nat, i: nat)
    requires |paths| == 1 || |paths| == 2
    requires i < n * |paths|
    ensures Repeated(paths, n)[i] == paths[i % |paths|]
  {
    if i < (n - 1) * |paths| {
      RepeatedAt(paths, n - 1, i);
    }
  }

  /** For each fraction a container gets the user node, and before it the management node if the board has one; each
      under its own name, to be read, written and made, and mounted for writing. */
  lemma ResponseMeaning(dev: Device, n: nat)
    ensures var r := ResponseFor(Repeated(NodesOf(dev), n));
            var m := if dev.nodes.mgmt == "" then 1 else 2;
            && |r.devices| == |r.mounts| == n * m
            && forall i :: 0 <= i < n * m ==>
                 var node := if i % m == m - 1 then dev.nodes.user else dev.nodes.mgmt;
                 && r.devices[i] == DeviceSpec(node, node, "rwm")
                 && r.mounts[i] == Mount(node, node, false)
  {
    var paths := NodesOf(dev);
    forall i | 0 <= i < n * |paths| ensures Repeated(paths, n)[i] == paths[i % |paths|] {
      RepeatedAt(paths, n, i);
    }
  }

  ghost predicate Answers(responses: seq<ContainerResponse>, dev: Device, requests: seq<nat>) {
    && |responses| == |requests|
    && forall i :: 0 <= i < |requests| ==> responses[i] == ResponseFor(Repeated(NodesOf(dev), requests[i]))
  }

  method RespondAll(dev: Device, requests: seq<nat>) returns (responses: seq<ContainerResponse>)
    ensures Answers(responses, dev, requests)
  {
    responses := [];
    for i := 0 to |requests|
      invariant Answers(responses, dev, requests[..i])
    {
      var r := Respond(dev, requests[i]);
      responses := responses + [r];
    }
    assert requests[..|requests|] == requests;
  }

  // ----- the call -----

  datatype Error = ListFailed | NoMatch | BadIndex | NoDevice | UpdateFailed
  datatype Result = Ok(responses: seq<ContainerResponse>) | Err(error: Error)

  /** How the API server takes the update: it stores it, or refuses it with some text. current is the pod by then,
      edited by others or not (None: it is gone); storedThen tells whether a second update would be stored. */
  datatype Reply = Stored | Refused(text: string, current: Option<Pod>, storedThen: bool)

  /** The one text after which a call tries again. */
  predicate Bare(text: string) {
    text == OPTIMISTIC_LOCK_ERROR_MSG
  }

  /** The texts the client library gives a conflict: resource and quoted are what it prints of the object. */
  function ConflictText(resource: string, quoted: string, cause: string): string {
    "Operation cannot be fulfilled on " + resource + " " + quoted + ": " + cause
  }

  function UnknownConflictText(suffix: string): string {
    "the server reported a conflict" + suffix
  }

  ghost predicate FromLibrary(text: string) {
    || (exists resource, quoted, cause :: text == ConflictText(resource, quoted, cause))
    || (exists suffix :: text == UnknownConflictText(suffix))
  }

  /** No text of the library is the one the call compares with, whatever the cause it wraps. */
  lemma LibraryNeverBare(text: string)
    requires FromLibrary(text)
    ensures !Bare(text)
  {
    if resource, quoted, cause :| text == ConflictText(resource, quoted, cause) {
      assert text[0] == 'O' && OPTIMISTIC_LOCK_ERROR_MSG[0] == 't';
    } else {
      var suffix :| text == UnknownConflictText(suffix);
      assert text[4] == 's' && OPTIMISTIC_LOCK_ERROR_MSG[4] == 'o';
    }
  }

  function TotalRequest(requests: seq<nat>): nat {
    if requests == [] then 0 else TotalRequest(requests[..|requests| - 1]) + requests[|requests| - 1]
  }

  /** The fractions of the containers add up. */
  lemma {:induction false} RequestsAdd(a: seq<nat>, b: seq<nat>)
    ensures TotalRequest(a + b) == TotalRequest(a) + TotalRequest(b)
    ensures forall n: nat :: TotalRequest([n]) == n
  {
    forall n: nat ensures TotalRequest([n]) == n {
      assert [n][..0] == [];
    }
    if b == [] {
      assert a + b == a;
    } else {
      RequestsAdd(a, b[..|b| - 1]);
      assert (a + b)[..|a + b| - 1] == a + b[..|b| - 1];
    }
  }

  /** The number of fractions in a machine word. */
  method CountRequests(requests: seq<nat>) returns (total: nat)
    ensures total == TotalRequest(requests) % WORD
  {
    total := 0;
    for i := 0 to |requests|
      invariant total == TotalRequest(requests[..i]) % WORD
    {
      assert requests[..i + 1][..i] == requests[..i];
      total := (total + requests[i]) % WORD;
    }
    assert requests[..|requests|] == requests;
  }

  class Cluster {
    var pods: Store

    constructor (pods: Store)
      ensures this.pods == pods
    {
      this.pods := pods;
    }

    /** Someone else edits or deletes the pod. */
    method Interfere(uid: string, current: Option<Pod>)
      modifies this
      ensures pods == Interfered(old(pods), uid, current)
    {
      match current {
        case Some(pod) => pods := pods[uid := pod];
        case None => pods := pods - {uid};
      }
    }

    /** The pod is marked as served; if the refusal has the text that is compared with, its newest version is. */
    method Mark(pod: Pod, reply: Reply, now: int, later: int) returns (ok: bool)
      requires pod.uid in pods && pods[pod.uid] == pod
      modifies this
      ensures ok == Accepts(reply)
      ensures pods == Marked(old(pods), pod.uid, reply, now, later)
    {
      match reply {
        case Stored =>
          pods := pods[pod.uid := UpdatePodAnnotations(pod, now)];
          ok := true;
        case Refused(text, current, storedThen) =>
          Interfere(pod.uid, current);
          if text == OPTIMISTIC_LOCK_ERROR_MSG {
            if current.None? || !storedThen {
              ok := false;
            } else {
              pods := pods[pod.uid := UpdatePodAnnotations(pods[pod.uid], later)];
              ok := true;
            }
          } else {
            ok := false;
          }
      }
    }

    /** A successful call serves the earliest match and no other pod; a failed call serves none. */
    method Allocate(server: FPGADevicePluginServer, node: string, requests: seq<nat>, listed: seq<Pod>,
                    listFailures: nat, reply: Reply, now: int, later: int)
        returns (r: Result, ghost chosen: Option<string>)
      requires WellKeyed(pods) && IsListing(listed, pods, node) && server.Valid()
      modifies this, server`realDevices
      ensures server.Valid()
      ensures
        var wanted := TotalRequest(requests) % WORD;
        && (chosen.Some? ==> Earliest(old(pods), node, wanted, chosen.value))
        && (chosen.None? <==>
              listFailures > RETRIES || forall uid :: uid in old(pods) ==> !Matches(old(pods)[uid], node, wanted))
      ensures listFailures > RETRIES ==> r == Err(ListFailed)
      ensures chosen.None? && listFailures <= RETRIES ==> r == Err(NoMatch)
      ensures chosen.Some? && FPGAID(old(pods)[chosen.value]) < 0 ==> r == Err(BadIndex)
      ensures chosen.Some? && FPGAID(old(pods)[chosen.value]) >= |server.realDevices| ==> r == Err(NoDevice)
      ensures chosen.Some? && 0 <= FPGAID(old(pods)[chosen.value]) < |server.realDevices| && !Accepts(reply) ==>
                r == Err(UpdateFailed)
      ensures forall i: nat :: r.Ok? && BoundTo(old(pods)[chosen.value], i) && i <= MAX_INT64 ==>
                i < |server.realDevices| && Answers(r.responses, server.realDevices[i], requests)
      ensures r.Ok? ==>
                && Accepts(reply)
                && 0 <= FPGAID(old(pods)[chosen.value]) < |server.realDevices|
                && Answers(r.responses, server.realDevices[FPGAID(old(pods)[chosen.value])], requests)
      ensures chosen.Some? && 0 <= FPGAID(old(pods)[chosen.value]) < |server.realDevices| ==>
                && pods == Marked(old(pods), chosen.value, reply, now, later)
                && (r.Ok? <==> Accepts(reply))
      ensures chosen.None? || !(0 <= FPGAID(old(pods)[chosen.value]) < |server.realDevices|) ==> pods == old(pods)
    {
      chosen := None;
      var wanted := CountRequests(requests);
      if listFailures > RETRIES {
        return Err(ListFailed), chosen;
      }
      var found := Choose(listed, node, wanted, pods);
      if found.None? {
        return Err(NoMatch), chosen;
      }
      var pod := found.value;
      chosen := Some(pod.uid);
      var id := FPGAID(pod);
      forall i: nat ensures BoundTo(pod, i) && i <= MAX_INT64 ==> id == i {
        BoundIndex(pod, i);
      }
      if id < 0 {
        return Err(BadIndex), chosen;
      }
      var dev := server.GetDeviceByIndex(id);
      if dev.None? {
        return Err(NoDevice), chosen;
      }
      var responses := RespondAll(dev.value, requests);
      var ok := Mark(pod, reply, now, later);
      r := if ok then Ok(responses) else Err(UpdateFailed);
    }
  }

  function Interfered(pods: Store, uid: string, current: Option<Pod>): Store {
    match current
    case Some(pod) => pods[uid := pod]
    case None => pods - {uid}
  }

  predicate Accepts(reply: Reply) {
    reply.Stored? || (reply.Refused? && Bare(reply.text) && reply.current.Some? && reply.storedThen)
  }

  /** The store after the update of uid got its reply. */
  function Marked(pods: Store, uid: string, reply: Reply, now: int, later: int): Store
    requires uid in pods
  {
    match reply
    case Stored => pods[uid := UpdatePodAnnotations(pods[uid], now)]
    case Refused(_, current, _) =>
      if Accepts(reply) then pods[uid := UpdatePodAnnotations(current.value, later)]
      else Interfered(pods, uid, current)
  }

  /** Only the pod itself changes. It is served, and then marked at one of the two times, exactly if the first or the
      second update is stored; otherwise it is what others have made of it. */
  lemma MarkedMeaning(pods: Store, uid: string, reply: Reply, now: int, later: int)
    requires uid in pods
    ensures var after := Marked(pods, uid, reply, now, later);
            && after - {uid} == pods - {uid}
            && (reply.Stored? ==>
                  uid in after && after[uid] == UpdatePodAnnotations(pods[uid], now))
            && (reply.Refused? && reply.current == None ==> uid !in after)
            && (reply.Refused? && reply.current.Some? ==>
                  && uid in after
                  && after[uid] ==
                     if reply.storedThen && reply.text == OPTIMISTIC_LOCK_ERROR_MSG
                     then UpdatePodAnnotations(reply.current.value, later)
                     else reply.current.value)
  {
    var after := Marked(pods, uid, reply, now, later);
    assert forall v :: v != uid ==> (v in after <==> v in pods) && (v in pods ==> after[v] == pods[v]);
  }
}
