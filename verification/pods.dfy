// The parts of a Kubernetes pod the scheduler reads and writes.
module Pods {
  import opened Config
  import opened Wrappers
  import Text

  datatype ContainerPort = ContainerPort(name: string, containerPort: int, hostPort: int)

  datatype EnvVar = EnvVar(name: string, value: string)

  datatype Container = Container(
    name: string,
    ports: seq<ContainerPort>,
    env: seq<EnvVar>,
    limits: map<string, int>)

  datatype Pod = Pod(name: string, nodeName: string, phase: string, containers: seq<Container>)

  /** Go's conversion of an int to an int32. */
  function ToInt32(n: int): int {
    (n + 0x8000_0000) % 0x1_0000_0000 - 0x8000_0000
  }

  // ----- the listen port -----

  predicate IsListenPort(p: ContainerPort) {
    p.name == CLIENT_LISTEN_PORT_NAME
  }

  predicate IsListenEnv(e: EnvVar) {
    e.name == CLIENT_LISTEN_PORT_ENV
  }

  /** i is the position of the first element of s that satisfies p. */
  ghost predicate IsFirst<T>(s: seq<T>, p: T -> bool, i: int) {
    && 0 <= i < |s|
    && p(s[i])
    && forall j :: 0 <= j < i ==> !p(s[j])
  }

  /** What setting the listen port does to one container. */
  ghost predicate ListensOn(before: Container, after: Container, port: int) {
    && after.name == before.name
    && after.limits == before.limits
    && |after.ports| == |before.ports|
    && |after.env| == |before.env|
    && (forall i :: 0 <= i < |before.ports| ==>
          after.ports[i] ==
          if before.name == CLIENT_CONTAINER_NAME && IsFirst(before.ports, IsListenPort, i)
          then ContainerPort(before.ports[i].name, ToInt32(port), ToInt32(port))
          else before.ports[i])
    && (forall i :: 0 <= i < |before.env| ==>
          after.env[i] ==
          if before.name == CLIENT_CONTAINER_NAME && IsFirst(before.env, IsListenEnv, i)
          then EnvVar(before.env[i].name, Text.ItoaInt(port))
          else before.env[i])
  }

  /** after is before with its listen port set; nothing else differs. */
  ghost predicate ListenPortSet(before: Pod, after: Pod, port: int) {
    && |after.containers| == |before.containers|
    && after == before.(containers := after.containers)
    && forall j :: 0 <= j < |before.containers| ==>
         ListensOn(before.containers[j], after.containers[j], port)
  }

  method SetContainerListenPort(c: Container, port: int) returns (r: Container)
    requires c.name == CLIENT_CONTAINER_NAME
    ensures ListensOn(c, r, port)
  {
    var ports := c.ports;
    for k := 0 to |c.ports|
      invariant ports == c.ports
      invariant forall j :: 0 <= j < k ==> !IsListenPort(c.ports[j])
    {
      if IsListenPort(c.ports[k]) {
        ports := ports[k := ContainerPort(c.ports[k].name, ToInt32(port), ToInt32(port))];
        break;
      }
    }
    var env := c.env;
    for k := 0 to |c.env|
      invariant env == c.env
      invariant forall j :: 0 <= j < k ==> !IsListenEnv(c.env[j])
    {
      if IsListenEnv(c.env[k]) {
        env := env[k := EnvVar(c.env[k].name, Text.ItoaInt(port))];
        break;
      }
    }
    r := c.(ports := ports, env := env);
  }

  method SetPodListenPort(pod: Pod, port: int) returns (r: Pod)
    ensures ListenPortSet(pod, r, port)
  {
    var containers := pod.containers;
    for j := 0 to |pod.containers|
      invariant |containers| == |pod.containers|
      invariant containers[j..] == pod.containers[j..]
      invariant forall i :: 0 <= i < j ==> ListensOn(pod.containers[i], containers[i], port)
    {
      assert containers[j] == containers[j..][0];
      if pod.containers[j].name == CLIENT_CONTAINER_NAME {
        var c := SetContainerListenPort(containers[j], port);
        containers := containers[j := c];
      }
      assert containers[j + 1..] == pod.containers[j..][1..];
    }
    r := pod.(containers := containers);
  }

  /** The host port of the first listen port of the first client container that has one, or 0. */
  function PortOf(ports: seq<ContainerPort>): Option<int> {
    if ports == [] then None
    else if IsListenPort(ports[0]) then Some(ports[0].hostPort)
    else PortOf(ports[1..])
  }

  function ListenPortIn(cs: seq<Container>): int {
    if cs == [] then 0
    else if cs[0].name == CLIENT_CONTAINER_NAME && PortOf(cs[0].ports).Some? then PortOf(cs[0].ports).value
    else ListenPortIn(cs[1..])
  }

  function GetPodListenPort(pod: Pod): int {
    ListenPortIn(pod.containers)
  }

  predicate HasListenPort(c: Container) {
    c.name == CLIENT_CONTAINER_NAME && exists p :: p in c.ports && IsListenPort(p)
  }

  /** Some client container exposes the listen port. */
  predicate Exposes(pod: Pod) {
    exists c :: c in pod.containers && HasListenPort(c)
  }

  lemma {:induction false} PortOfFirst(ports: seq<ContainerPort>, i: nat)
    requires IsFirst(ports, IsListenPort, i)
    ensures PortOf(ports) == Some(ports[i].hostPort)
  {
    if i > 0 {
      assert !IsListenPort(ports[0]);
      PortOfFirst(ports[1..], i - 1);
    }
  }

  lemma {:induction false} NoPort(ports: seq<ContainerPort>)
    requires forall p :: p in ports ==> !IsListenPort(p)
    ensures PortOf(ports) == None
  {
    if ports != [] {
      assert ports[0] in ports;
      NoPort(ports[1..]);
    }
  }

  lemma {:induction false} FirstExists(ports: seq<ContainerPort>) returns (i: nat)
    requires exists p :: p in ports && IsListenPort(p)
    ensures IsFirst(ports, IsListenPort, i)
  {
    if IsListenPort(ports[0]) {
      i := 0;
    } else {
      var p :| p in ports && IsListenPort(p);
      assert p in ports[1..];
      var k := FirstExists(ports[1..]);
      assert forall j :: 0 < j < k + 1 ==> ports[j] == ports[1..][j - 1];
      i := k + 1;
    }
  }

  lemma ContainerPortRoundTrip(c: Container, d: Container, port: int)
    requires ListensOn(c, d, port)
    requires c.name == CLIENT_CONTAINER_NAME
    ensures PortOf(d.ports) == if HasListenPort(c) then Some(ToInt32(port)) else None
  {
    if HasListenPort(c) {
      var i := FirstExists(c.ports);
      assert forall j :: 0 <= j < i ==> d.ports[j] == c.ports[j];
      PortOfFirst(d.ports, i);
    } else {
      forall p | p in d.ports ensures !IsListenPort(p) {
        var j :| 0 <= j < |d.ports| && d.ports[j] == p;
        assert c.ports[j] in c.ports;
      }
      NoPort(d.ports);
    }
  }

  lemma {:induction false} ListenPortRoundTrip(cs: seq<Container>, ds: seq<Container>, port: int)
    requires |cs| == |ds|
    requires forall j :: 0 <= j < |cs| ==> ListensOn(cs[j], ds[j], port)
    ensures ListenPortIn(ds) == if exists c :: c in cs && HasListenPort(c) then ToInt32(port) else 0
  {
    if cs != [] {
      assert cs[0] in cs;
      if cs[0].name == CLIENT_CONTAINER_NAME {
        ContainerPortRoundTrip(cs[0], ds[0], port);
      }
      if !HasListenPort(cs[0]) {
        ListenPortRoundTrip(cs[1..], ds[1..], port);
        assert forall c :: c in cs <==> c == cs[0] || c in cs[1..];
      }
    }
  }

  /** The container whose port is read: the first client container with a listen port. */
  lemma {:induction false} ListenPortMeaning(cs: seq<Container>, i: nat, k: nat)
    requires IsFirst(cs, HasListenPort, i)
    requires IsFirst(cs[i].ports, IsListenPort, k)
    ensures ListenPortIn(cs) == cs[i].ports[k].hostPort
  {
    if i == 0 {
      PortOfFirst(cs[0].ports, k);
    } else {
      assert !HasListenPort(cs[0]);
      NoListenPort(cs[0]);
      assert forall j :: 0 <= j < i - 1 ==> cs[1..][j] == cs[j + 1];
      ListenPortMeaning(cs[1..], i - 1, k);
    }
  }

  lemma NoListenPort(c: Container)
    requires !HasListenPort(c)
    ensures c.name == CLIENT_CONTAINER_NAME ==> PortOf(c.ports) == None
  {
    if c.name == CLIENT_CONTAINER_NAME {
      NoPort(c.ports);
    }
  }

  lemma {:induction false} NothingExposed(cs: seq<Container>)
    requires forall c :: c in cs ==> !HasListenPort(c)
    ensures ListenPortIn(cs) == 0
  {
    if cs != [] {
      assert cs[0] in cs;
      NoListenPort(cs[0]);
      NothingExposed(cs[1..]);
    }
  }

  /** The port read is the host port of the first listen port of the first client container that has one. */
  lemma PortRead(pod: Pod)
    ensures !Exposes(pod) ==> GetPodListenPort(pod) == 0
    ensures forall i, k :: IsFirst(pod.containers, HasListenPort, i)
                        && IsFirst(pod.containers[i].ports, IsListenPort, k)
                        ==> GetPodListenPort(pod) == pod.containers[i].ports[k].hostPort
  {
    if !Exposes(pod) {
      NothingExposed(pod.containers);
    }
    forall i, k | IsFirst(pod.containers, HasListenPort, i) && IsFirst(pod.containers[i].ports, IsListenPort, k)
      ensures GetPodListenPort(pod) == pod.containers[i].ports[k].hostPort {
      ListenPortMeaning(pod.containers, i, k);
    }
  }

  /** The allocator reads back the port it wrote exactly when the template exposes the listen port. */
  lemma PortRoundTrip(before: Pod, after: Pod, port: int)
    requires ListenPortSet(before, after, port)
    requires 0 < port < 0x8000_0000
    ensures GetPodListenPort(after) == port <==> Exposes(before)
    ensures GetPodListenPort(after) == 0 <==> !Exposes(before)
  {
    ListenPortRoundTrip(before.containers, after.containers, port);
  }

  // ----- the device fraction -----

  predicate IsClient(c: Container) {
    c.name == CLIENT_CONTAINER_NAME
  }

  /** The first client container gets the fraction as its limit; nothing else differs. */
  ghost predicate FractionSet(before: Pod, after: Pod, fraction: int) {
    && |after.containers| == |before.containers|
    && after == before.(containers := after.containers)
    && forall j :: 0 <= j < |before.containers| ==>
         after.containers[j] ==
         if IsFirst(before.containers, IsClient, j)
         then before.containers[j].(limits := before.containers[j].limits[RESOURCE_NAME := fraction])
         else before.containers[j]
  }

  method SetPodDeviceFraction(pod: Pod, fraction: int) returns (r: Pod)
    ensures FractionSet(pod, r, fraction)
  {
    var containers := pod.containers;
    for j := 0 to |pod.containers|
      invariant containers == pod.containers
      invariant forall i :: 0 <= i < j ==> !IsClient(pod.containers[i])
    {
      if IsClient(pod.containers[j]) {
        var limits := pod.containers[j].limits[RESOURCE_NAME := fraction];
        containers := containers[j := pod.containers[j].(limits := limits)];
        break;
      }
    }
    r := pod.(containers := containers);
  }

  function FractionIn(cs: seq<Container>): int {
    if cs == [] then 0
    else if IsClient(cs[0]) && RESOURCE_NAME in cs[0].limits then cs[0].limits[RESOURCE_NAME]
    else FractionIn(cs[1..])
  }

  function GetPodDeviceFraction(pod: Pod): int {
    FractionIn(pod.containers)
  }

  /** Only these pods reach the informer's handlers. */
  predicate IsConcernedPod(pod: Pod) {
    GetPodDeviceFraction(pod) > 0
  }

  predicate HasFraction(c: Container) {
    c.name == CLIENT_CONTAINER_NAME && RESOURCE_NAME in c.limits
  }

  lemma {:induction false} FirstFraction(cs: seq<Container>, i: nat)
    requires IsFirst(cs, HasFraction, i)
    ensures FractionIn(cs) == cs[i].limits[RESOURCE_NAME]
  {
    if i > 0 {
      assert !HasFraction(cs[0]);
      assert forall j :: 0 <= j < i - 1 ==> cs[1..][j] == cs[j + 1];
      FirstFraction(cs[1..], i - 1);
    }
  }

  lemma {:induction false} NoFraction(cs: seq<Container>)
    requires forall c :: c in cs ==> !HasFraction(c)
    ensures FractionIn(cs) == 0
  {
    if cs != [] {
      assert cs[0] in cs;
      NoFraction(cs[1..]);
    }
  }

  /** The fraction read is the limit of the first client container that has one. */
  lemma FractionRead(pod: Pod)
    ensures (forall c :: c in pod.containers ==> !HasFraction(c)) ==> GetPodDeviceFraction(pod) == 0
    ensures forall i :: IsFirst(pod.containers, HasFraction, i) ==>
              GetPodDeviceFraction(pod) == pod.containers[i].limits[RESOURCE_NAME]
  {
    if forall c :: c in pod.containers ==> !HasFraction(c) {
      NoFraction(pod.containers);
    }
    forall i | IsFirst(pod.containers, HasFraction, i)
      ensures GetPodDeviceFraction(pod) == pod.containers[i].limits[RESOURCE_NAME] {
      FirstFraction(pod.containers, i);
    }
  }

  lemma {:induction false} SamePortsSameListenPort(cs: seq<Container>, ds: seq<Container>)
    requires |cs| == |ds|
    requires forall j :: 0 <= j < |cs| ==> cs[j].name == ds[j].name && cs[j].ports == ds[j].ports
    ensures ListenPortIn(cs) == ListenPortIn(ds)
  {
    if cs != [] {
      SamePortsSameListenPort(cs[1..], ds[1..]);
    }
  }

  lemma {:induction false} FirstClientFraction(cs: seq<Container>, ds: seq<Container>, fraction: int, i: nat)
    requires |cs| == |ds|
    requires IsFirst(cs, IsClient, i)
    requires forall j :: 0 <= j < i ==> ds[j] == cs[j]
    requires ds[i] == cs[i].(limits := cs[i].limits[RESOURCE_NAME := fraction])
    ensures FractionIn(ds) == fraction
  {
    if i > 0 {
      assert !IsClient(cs[0]);
      assert forall j :: 0 <= j < i - 1 ==> cs[1..][j] == cs[j + 1];
      FirstClientFraction(cs[1..], ds[1..], fraction, i - 1);
    }
  }

  /** pod is the sample with this name, port and fraction, and nothing else changed. */
  ghost predicate Built(sample: Pod, name: string, port: int, fraction: int, pod: Pod) {
    exists ported :: ListenPortSet(sample.(name := name), ported, port) && FractionSet(ported, pod, fraction)
  }

  /** A pod built for a worker reads back its port and its fraction, so its events reach the handlers. */
  lemma WorkerPodRoundTrip(sample: Pod, ported: Pod, pod: Pod, port: int, fraction: int)
    requires ListenPortSet(sample, ported, port)
    requires FractionSet(ported, pod, fraction)
    requires Exposes(sample)
    requires 0 < port < 0x8000_0000
    ensures GetPodListenPort(pod) == port
    ensures GetPodDeviceFraction(pod) == fraction
    ensures IsConcernedPod(pod) <==> fraction > 0
  {
    PortRoundTrip(sample, ported, port);
    SamePortsSameListenPort(ported.containers, pod.containers);
    var c :| c in sample.containers && HasListenPort(c);
    var k :| 0 <= k < |sample.containers| && sample.containers[k] == c;
    var i := FirstClient(ported.containers, k);
    FirstClientFraction(ported.containers, pod.containers, fraction, i);
  }

  lemma {:induction false} FirstClient(cs: seq<Container>, k: nat) returns (i: nat)
    requires k < |cs| && IsClient(cs[k])
    ensures IsFirst(cs, IsClient, i)
    decreases k
  {
    if j :| 0 <= j < k && IsClient(cs[j]) {
      i := FirstClient(cs, j);
    } else {
      i := k;
    }
  }
}
