// The device plugin: one server for each device type, and how a fresh scan of the devices changes them.
module DevicePlugin {
  import opened FakeDevices
  import opened Maps
  import opened Wrappers

  class FPGADevicePluginServer {
    const devType: string
    const initial: map<string, Device> // the devices it was made with
    var devices: map<string, Device>
    var realDevices: map<int, Device>
    var inbox: seq<map<string, Device>> // every update the plugin has sent
    var stopped: bool

    constructor (devType: string, devices: map<string, Device>)
      ensures this.devType == devType && this.initial == devices && this.devices == devices
      ensures realDevices == map[] && inbox == [] && !stopped
    {
      this.devType, this.initial, this.devices := devType, devices, devices;
      realDevices, inbox, stopped := map[], [], false;
    }

    method Stop()
      modifies this`stopped
      ensures stopped
    {
      stopped := true;
    }

    method Send(update: map<string, Device>)
      modifies this`inbox
      ensures inbox == old(inbox) + [update] && LastTold() == update
    {
      inbox := inbox + [update];
    }

    /** What the plugin has told this server last. */
    function LastTold(): map<string, Device>
      reads this
    {
      if inbox == [] then initial else inbox[|inbox| - 1]
    }

    // ----- the boards behind the fractions -----

    ghost predicate Valid()
      reads this
    {
      && (forall id :: id in devices ==> Parser(devices[id].dbdf, BLOCK_PER_FPGA).Some?)
      && Indexed(realDevices, |realDevices|)
    }

    /** One entry for each real ID: what the devices that share it have in common. */
    method RealDevicesByName() returns (byName: map<string, Device>)
      requires Valid()
      ensures IsByName(byName, devices)
    {
      byName := map[];
      var todo := devices.Keys;
      while todo != {}
        invariant todo <= devices.Keys
        invariant IsByName(byName, devices - todo)
      {
        var id :| id in todo;
        ByNameStep(byName, devices, todo, id);
        var name := Parser(devices[id].dbdf, BLOCK_PER_FPGA).value;
        if name !in byName {
          byName := byName[name := RealDevice(devices[id])];
        }
        todo := todo - {id};
      }
      assert devices - {} == devices;
    }

    /** The index of a board is fixed by the first call that finds devices. */
    method GetDeviceByIndex(index: nat) returns (r: Option<Device>)
      requires Valid()
      modifies this`realDevices
      ensures Valid()
      ensures old(realDevices) != map[] ==> realDevices == old(realDevices)
      ensures old(realDevices) == map[] ==> IsNumbering(realDevices, devices)
      ensures r == if index < |realDevices| then Some(realDevices[index]) else None
    {
      if |realDevices| == 0 {
        var byName := RealDevicesByName();
        realDevices := Number(byName);
      }
      r := if index < |realDevices| then Some(realDevices[index]) else None;
    }
  }

  /** The real ID of a device. */
  function NameOf(d: Device): string {
    match Parser(d.dbdf, BLOCK_PER_FPGA)
    case Some(name) => name
    case None => ""
  }

  /** A fraction's device with the board's own ID. */
  function RealDevice(d: Device): Device {
    Device("", d.shellVer, d.timestamp, NameOf(d), d.deviceID, d.healthy, d.nodes)
  }

  /** d is the board behind some of the devices. */
  ghost predicate IsBehind(d: Device, devices: map<string, Device>) {
    exists id :: id in devices && d == RealDevice(devices[id])
  }

  ghost predicate IsByName(byName: map<string, Device>, devices: map<string, Device>) {
    && (forall id :: id in devices ==> NameOf(devices[id]) in byName)
    && (forall name :: name in byName ==> byName[name].dbdf == name && IsBehind(byName[name], devices))
  }

  lemma ByNameStep(byName: map<string, Device>, devices: map<string, Device>, todo: set<string>, id: string)
    requires todo <= devices.Keys && id in todo
    requires IsByName(byName, devices - todo)
    ensures
      var name := NameOf(devices[id]);
      IsByName(if name in byName then byName else byName[name := RealDevice(devices[id])], devices - (todo - {id}))
  {
    var before, rest := devices - todo, devices - (todo - {id});
    assert rest == before[id := devices[id]];
    assert IsBehind(RealDevice(devices[id]), rest) by {
      assert id in rest;
    }
    forall d | IsBehind(d, before) ensures IsBehind(d, rest) {
      var x :| x in before && d == RealDevice(before[x]);
      assert x in rest;
    }
  }

  /** The keys of m are 0 .. n - 1. */
  ghost predicate Indexed(m: map<int, Device>, n: nat) {
    |m| == n && forall i :: i in m <==> 0 <= i < n
  }

  ghost function Members(names: seq<string>): set<string> {
    set name | name in names
  }

  ghost predicate NoRepeat(names: seq<string>) {
    forall i, j :: 0 <= i < j < |names| ==> names[i] != names[j]
  }

  lemma {:induction false} NoRepeatCount(names: seq<string>)
    requires NoRepeat(names)
    ensures |Members(names)| == |names|
  {
    if names != [] {
      var before, name := names[..|names| - 1], names[|names| - 1];
      NoRepeatCount(before);
      assert Members(names) == Members(before) + {name};
      assert name !in before;
    }
  }

  /** m holds the values of byName at 0, 1, .. in the order of names, which lists every key once. */
  ghost predicate Numbers(m: map<int, Device>, byName: map<string, Device>, names: seq<string>) {
    && Indexed(m, |names|)
    && Members(names) == byName.Keys
    && ValuesAt(m, byName, names)
    && NoRepeat(names)
  }

  /** m numbers the boards behind the devices, in some order. */
  ghost predicate IsNumbering(m: map<int, Device>, devices: map<string, Device>) {
    exists byName, names :: IsByName(byName, devices) && Numbers(m, byName, names)
  }

  method Number(byName: map<string, Device>) returns (m: map<int, Device>)
    ensures exists names :: Numbers(m, byName, names)
  {
    m := map[];
    ghost var names: seq<string> := [];
    var todo, j: nat := byName.Keys, 0;
    Nothing(byName);
    assert Members([]) == {};
    while todo != {}
      invariant todo <= byName.Keys
      invariant j == |names|
      invariant Numbers(m, byName - todo, names)
    {
      var name :| name in todo;
      NumberStep(m, byName - todo, names, name, byName[name]);
      CopyOne(byName, todo, name);
      m := m[j := byName[name]];
      names := names + [name];
      todo, j := todo - {name}, j + 1;
    }
  }

  ghost predicate ValuesAt(m: map<int, Device>, byName: map<string, Device>, names: seq<string>)
    requires Indexed(m, |names|)
  {
    forall i :: 0 <= i < |names| ==> names[i] in byName && m[i] == byName[names[i]]
  }

  lemma NumberStep(m: map<int, Device>, byName: map<string, Device>, names: seq<string>, name: string, d: Device)
    requires name !in byName
    requires Numbers(m, byName, names)
    ensures Numbers(m[|names| := d], byName[name := d], names + [name])
  {
  }

  // ----- the indices of a fresh scan -----

  function RealOf(u: UserFunction): Device {
    Device("", u.shellVer, u.timestamp, u.dbdf, u.deviceID, HEALTHY, u.nodes)
  }

  lemma RealOfFraction(d: Device, u: UserFunction)
    requires IsFraction(d, u)
    ensures NameOf(d) == u.dbdf && RealDevice(d) == RealOf(u)
  {
  }

  lemma {:induction false} HasFraction(us: seq<UserFunction>, u: UserFunction)
    requires u in us
    ensures FakeDeviceID(u.dbdf, 0) in AllFakeIDs(us)
  {
    if u == us[|us| - 1] {
      FakeIDsMeaning(u.dbdf, BLOCK_PER_FPGA, FakeDeviceID(u.dbdf, 0));
    } else {
      HasFraction(us[..|us| - 1], u);
    }
  }

  ghost function Boards(us: seq<UserFunction>): set<Device> {
    set u | u in us :: RealOf(u)
  }

  lemma NamesOfBoards(us: seq<UserFunction>, t: string, byName: map<string, Device>)
    requires IsByName(byName, Group(AllFractions(us), t))
    ensures forall name :: name in byName ==> exists u :: u in OfType(us, t) && byName[name] == RealOf(u)
  {
    var g, ks := Group(AllFractions(us), t), OfType(us, t);
    GroupFractionsOf(us, t);
    forall name | name in byName ensures exists u :: u in ks && byName[name] == RealOf(u) {
      var id :| id in g && byName[name] == RealDevice(g[id]);
      var u :| u in ks && IsFraction(g[id], u);
      RealOfFraction(g[id], u);
    }
  }

  lemma BoardNamed(us: seq<UserFunction>, t: string, byName: map<string, Device>, u: UserFunction)
    requires DistinctBoards(us)
    requires IsByName(byName, Group(AllFractions(us), t))
    requires u in OfType(us, t)
    ensures u.dbdf in byName && byName[u.dbdf] == RealOf(u)
  {
    var g, ks := Group(AllFractions(us), t), OfType(us, t);
    var id := FakeDeviceID(u.dbdf, 0);
    HasFraction(ks, u);
    GroupKeys(us, t);
    GroupFractionsOf(us, t);
    assert g[id].dbdf == id;
    FractionParses(u.dbdf, 0);
    assert NameOf(g[id]) == u.dbdf;
    NamesOfBoards(us, t, byName);
    var v :| v in ks && byName[u.dbdf] == RealOf(v);
    OfTypeIn(us, t);
    SameBoard(ks, u, v);
  }

  lemma SameBoard(us: seq<UserFunction>, u: UserFunction, v: UserFunction)
    requires DistinctBoards(us) && u in us && v in us && u.dbdf == v.dbdf
    ensures u == v
  {
  }

  /** The names are the IDs of the boards, so there are as many of them. */
  lemma NameCount(us: seq<UserFunction>, t: string, byName: map<string, Device>, names: seq<string>)
    requires DistinctBoards(us)
    requires IsByName(byName, Group(AllFractions(us), t))
    requires NoRepeat(names) && Members(names) == byName.Keys
    ensures |names| == |OfType(us, t)|
  {
    var ks := OfType(us, t);
    OfTypeIn(us, t);
    NamesOfBoards(us, t, byName);
    var ids := seq(|ks|, i requires 0 <= i < |ks| => ks[i].dbdf);
    forall name | name in byName ensures name in Members(ids) {
      var u :| u in ks && byName[name] == RealOf(u);
      var i :| 0 <= i < |ks| && ks[i] == u;
      assert ids[i] == name;
    }
    forall i | 0 <= i < |ids| ensures ids[i] in byName {
      BoardNamed(us, t, byName, ks[i]);
    }
    assert Members(ids) == byName.Keys;
    NoRepeatCount(ids);
    NoRepeatCount(names);
  }

  lemma NumberedValues(m: map<int, Device>, byName: map<string, Device>, names: seq<string>)
    requires Numbers(m, byName, names)
    ensures m.Values == byName.Values
  {
    forall d | d in byName.Values ensures d in m.Values {
      var name :| name in byName && byName[name] == d;
      assert name in Members(names);
      var i :| 0 <= i < |names| && names[i] == name;
      assert m[i] == d;
    }
    forall i | i in m ensures m[i] in byName.Values {
      assert names[i] in byName;
    }
  }

  lemma ValuesOfBoards(us: seq<UserFunction>, t: string, byName: map<string, Device>)
    requires DistinctBoards(us)
    requires IsByName(byName, Group(AllFractions(us), t))
    ensures byName.Values == Boards(OfType(us, t))
  {
    NamesOfBoards(us, t, byName);
    forall u | u in OfType(us, t) ensures RealOf(u) in byName.Values {
      BoardNamed(us, t, byName, u);
    }
    forall d | d in byName.Values ensures d in Boards(OfType(us, t)) {
      var name :| name in byName && byName[name] == d;
    }
  }

  lemma NumbersApart(m: map<int, Device>, byName: map<string, Device>, names: seq<string>)
    requires Numbers(m, byName, names)
    requires forall name :: name in byName ==> byName[name].dbdf == name
    ensures forall i, j :: 0 <= i < j < |names| ==> m[i] != m[j]
  {
  }

  /** Whatever order the maps are read in, each board of a scanned type gets one index, and nothing else does. */
  lemma FreshIndices(us: seq<UserFunction>, t: string, m: map<int, Device>)
    requires DistinctBoards(us)
    requires IsNumbering(m, Group(AllFractions(us), t))
    ensures Indexed(m, |OfType(us, t)|)
    ensures m.Values == Boards(OfType(us, t))
    ensures forall i, j :: 0 <= i < j < |OfType(us, t)| ==> m[i] != m[j]
  {
    var byName, names :| IsByName(byName, Group(AllFractions(us), t)) && Numbers(m, byName, names);
    NameCount(us, t, byName, names);
    NumberedValues(m, byName, names);
    ValuesOfBoards(us, t, byName);
    NumbersApart(m, byName, names);
  }
}
