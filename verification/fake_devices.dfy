// Each FPGA is offered as several fractions, which are told apart by made-up device IDs.
module FakeDevices {
  import opened Text
  import opened Wrappers

  const BLOCK_PER_FPGA := 3
  const HEALTHY := "Healthy"

  datatype Pairs = Pairs(mgmt: string, user: string)

  datatype Device = Device(
    index: string,
    shellVer: string,
    timestamp: string,
    dbdf: string,
    deviceID: string,
    healthy: string,
    nodes: Pairs)

  // ----- the encoding of device IDs -----

  function FakeDeviceID(realID: string, counter: nat): string {
    realID + "-_-" + Itoa(counter)
  }

  /** What the server takes for the real ID; None if the ID is shorter than what is cut off. */
  function Parser(fakeID: string, block: nat): Option<string> {
    var tail := |Itoa(block)| + 3;
    if |fakeID| < tail then None else Some(fakeID[..|fakeID| - tail])
  }

  lemma MarkPosition(realID: string, counter: nat)
    ensures
      var s, n := FakeDeviceID(realID, counter), |Itoa(counter)|;
      && s[|s| - n - 1] == '-'
      && forall i :: |s| - n <= i < |s| ==> IsDigit(s[i])
  {
  }

  /** Different boards or different counters never share a fake ID, whatever the real IDs look like. */
  lemma FakeIDInjective(r1: string, c1: nat, r2: string, c2: nat)
    requires FakeDeviceID(r1, c1) == FakeDeviceID(r2, c2)
    ensures r1 == r2 && c1 == c2
  {
    var s := FakeDeviceID(r1, c1);
    MarkPosition(r1, c1);
    MarkPosition(r2, c2);
    assert |Itoa(c1)| == |Itoa(c2)|;
    assert r1 == s[..|r1|] == r2;
    assert Itoa(c1) == s[|r1| + 3..] == Itoa(c2);
    ItoaInjective(c1, c2);
  }

  lemma ItoaLength(n: nat)
    ensures |Itoa(n)| == 1 <==> n < 10
  {
  }

  /** The parser inverts the encoding exactly when the counter has as many digits as the block count. */
  lemma ParserInverts(realID: string, counter: nat, block: nat)
    ensures Parser(FakeDeviceID(realID, counter), block) == Some(realID) <==> |Itoa(counter)| == |Itoa(block)|
  {
    var s := FakeDeviceID(realID, counter);
    assert s[..|realID|] == realID;
  }

  /** So a block count is safe, for every board, exactly when it has one digit. */
  lemma SafeBlockCount(block: nat)
    ensures (forall realID: string, c: nat :: c < block ==> Parser(FakeDeviceID(realID, c), block) == Some(realID))
       <==> block < 10
  {
    ItoaLength(block);
    if block < 10 {
      forall realID: string, c: nat | c < block ensures Parser(FakeDeviceID(realID, c), block) == Some(realID) {
        ItoaLength(c);
        ParserInverts(realID, c, block);
      }
    } else {
      ItoaLength(0);
      ParserInverts("", 0, block);
    }
  }

  lemma FractionParses(realID: string, c: nat)
    requires c < BLOCK_PER_FPGA
    ensures Parser(FakeDeviceID(realID, c), BLOCK_PER_FPGA) == Some(realID)
  {
    ItoaLength(c);
    ItoaLength(BLOCK_PER_FPGA);
    ParserInverts(realID, c, BLOCK_PER_FPGA);
  }

  // ----- the fractions of each board -----

  /** What the file system says about the user function of a board. */
  datatype UserFunction = UserFunction(
    dbdf: string,
    shellVer: string,
    timestamp: string,
    deviceID: string,
    nodes: Pairs)

  function Fraction(u: UserFunction, c: nat, position: nat): Device {
    Device(Itoa(position + 1), u.shellVer, u.timestamp, FakeDeviceID(u.dbdf, c), u.deviceID, HEALTHY, u.nodes)
  }

  /** The first n fractions of a board, placed from a position on. */
  function Fractions(u: UserFunction, position: nat, n: nat): seq<Device> {
    if n == 0 then [] else Fractions(u, position, n - 1) + [Fraction(u, n - 1, position + n - 1)]
  }

  function AllFractions(us: seq<UserFunction>): (ds: seq<Device>)
    ensures |ds| == BLOCK_PER_FPGA * |us|
  {
    if us == [] then []
    else
      var before := AllFractions(us[..|us| - 1]);
      FractionCount(us[|us| - 1], |before|, BLOCK_PER_FPGA);
      before + Fractions(us[|us| - 1], |before|, BLOCK_PER_FPGA)
  }

  lemma {:induction false} FractionCount(u: UserFunction, position: nat, n: nat)
    ensures |Fractions(u, position, n)| == n
  {
    if n > 0 {
      FractionCount(u, position, n - 1);
    }
  }

  lemma {:induction false} FractionOf(u: UserFunction, position: nat, n: nat, c: nat)
    requires c < n == |Fractions(u, position, n)|
    ensures Fractions(u, position, n)[c] ==
            Device(Itoa(position + c + 1), u.shellVer, u.timestamp, u.dbdf + "-_-" + Itoa(c), u.deviceID,
                   "Healthy", u.nodes)
  {
    FractionCount(u, position, n - 1);
    if c < n - 1 {
      FractionOf(u, position, n - 1, c);
    }
  }

  /** The three devices of the i-th board: numbered from 3 * i + 1 on, healthy, with the board's own data. */
  lemma {:induction false} DeviceOf(us: seq<UserFunction>, i: nat, c: nat)
    requires i < |us| && c < 3
    ensures AllFractions(us)[3 * i + c] ==
            Device(Itoa(3 * i + c + 1), us[i].shellVer, us[i].timestamp, us[i].dbdf + "-_-" + Itoa(c),
                   us[i].deviceID, "Healthy", us[i].nodes)
  {
    var before, u := AllFractions(us[..|us| - 1]), us[|us| - 1];
    FractionCount(u, |before|, 3);
    if i < |us| - 1 {
      DeviceOf(us[..|us| - 1], i, c);
    } else {
      FractionOf(u, |before|, 3, c);
    }
  }

  method AddFractions(devices: seq<Device>, u: UserFunction) returns (r: seq<Device>)
    ensures r == devices + Fractions(u, |devices|, BLOCK_PER_FPGA)
  {
    r := devices;
    for j := 0 to BLOCK_PER_FPGA
      invariant r == devices + Fractions(u, |devices|, j)
    {
      FractionCount(u, |devices|, j);
      r := r + [Fraction(u, j, |r|)];
    }
  }

  method GetDevices(us: seq<UserFunction>) returns (devices: seq<Device>)
    ensures devices == AllFractions(us)
  {
    devices := [];
    for i := 0 to |us|
      invariant devices == AllFractions(us[..i])
    {
      assert us[..i + 1][..i] == us[..i];
      devices := AddFractions(devices, us[i]);
    }
    assert us[..|us|] == us;
  }

  // ----- grouping by type -----

  function TypeOf(d: Device): string {
    d.shellVer + "-" + d.timestamp
  }

  /** The devices of type t by ID; a later one replaces an earlier one. */
  function Group(devices: seq<Device>, t: string): map<string, Device> {
    if devices == [] then map[]
    else
      var d, before := devices[|devices| - 1], Group(devices[..|devices| - 1], t);
      if TypeOf(d) == t then before[d.dbdf := d] else before
  }

  lemma GroupSnoc(devices: seq<Device>, d: Device, t: string)
    ensures Group(devices + [d], t) == if TypeOf(d) == t then Group(devices, t)[d.dbdf := d] else Group(devices, t)
  {
  }

  /** One map for each type, and no type without a device. */
  method GroupByType(devices: seq<Device>) returns (groups: map<string, map<string, Device>>)
    ensures forall t :: t in groups <==> Group(devices, t) != map[]
    ensures forall t :: t in groups ==> groups[t] == Group(devices, t)
  {
    groups := map[];
    for i := 0 to |devices|
      invariant forall t :: t in groups <==> Group(devices[..i], t) != map[]
      invariant forall t :: t in groups ==> groups[t] == Group(devices[..i], t)
    {
      var d := devices[i];
      assert devices[..i + 1] == devices[..i] + [d];
      forall t ensures Group(devices[..i + 1], t) ==
          if TypeOf(d) == t then Group(devices[..i], t)[d.dbdf := d] else Group(devices[..i], t) {
        GroupSnoc(devices[..i], d, t);
      }
      var group := if TypeOf(d) in groups then groups[TypeOf(d)] else map[];
      assert group == Group(devices[..i], TypeOf(d));
      assert d.dbdf in group[d.dbdf := d];
      groups := groups[TypeOf(d) := group[d.dbdf := d]];
    }
    assert devices[..|devices|] == devices;
  }

  // ----- what the groups hold -----

  function OfType(us: seq<UserFunction>, t: string): seq<UserFunction> {
    if us == [] then []
    else
      var u := us[|us| - 1];
      OfType(us[..|us| - 1], t) + if u.shellVer + "-" + u.timestamp == t then [u] else []
  }

  function FakeIDs(realID: string, n: nat): set<string> {
    if n == 0 then {} else FakeIDs(realID, n - 1) + {FakeDeviceID(realID, n - 1)}
  }

  function AllFakeIDs(us: seq<UserFunction>): set<string> {
    if us == [] then {} else AllFakeIDs(us[..|us| - 1]) + FakeIDs(us[|us| - 1].dbdf, BLOCK_PER_FPGA)
  }

  ghost predicate DistinctBoards(us: seq<UserFunction>) {
    forall i, j :: 0 <= i < j < |us| ==> us[i].dbdf != us[j].dbdf
  }

  lemma {:induction false} FakeIDsMeaning(realID: string, n: nat, id: string)
    ensures id in FakeIDs(realID, n) <==> exists c: nat :: c < n && id == FakeDeviceID(realID, c)
  {
    if n > 0 {
      FakeIDsMeaning(realID, n - 1, id);
    }
  }

  lemma {:induction false} FractionIDCount(realID: string, n: nat)
    ensures |FakeIDs(realID, n)| == n
  {
    if n > 0 {
      FractionIDCount(realID, n - 1);
      var id := FakeDeviceID(realID, n - 1);
      FakeIDsMeaning(realID, n - 1, id);
      if c: nat :| c < n - 1 && id == FakeDeviceID(realID, c) {
        FakeIDInjective(realID, n - 1, realID, c);
      }
    }
  }

  lemma FakeIDsApart(r1: string, r2: string, n: nat)
    requires r1 != r2
    ensures FakeIDs(r1, n) !! FakeIDs(r2, n)
  {
    forall id | id in FakeIDs(r1, n) && id in FakeIDs(r2, n) ensures false {
      FakeIDsMeaning(r1, n, id);
      FakeIDsMeaning(r2, n, id);
      var c: nat :| c < n && id == FakeDeviceID(r1, c);
      var d: nat :| d < n && id == FakeDeviceID(r2, d);
      FakeIDInjective(r1, c, r2, d);
    }
  }

  lemma {:induction false} BoardApart(us: seq<UserFunction>, realID: string)
    requires forall i :: 0 <= i < |us| ==> us[i].dbdf != realID
    ensures AllFakeIDs(us) !! FakeIDs(realID, BLOCK_PER_FPGA)
  {
    if us != [] {
      BoardApart(us[..|us| - 1], realID);
      FakeIDsApart(us[|us| - 1].dbdf, realID, BLOCK_PER_FPGA);
    }
  }

  /** k boards have k * BLOCK_PER_FPGA different fake IDs. */
  lemma {:induction false} FakeIDCount(us: seq<UserFunction>)
    requires DistinctBoards(us)
    ensures |AllFakeIDs(us)| == BLOCK_PER_FPGA * |us|
  {
    if us != [] {
      FakeIDCount(us[..|us| - 1]);
      BoardApart(us[..|us| - 1], us[|us| - 1].dbdf);
      FractionIDCount(us[|us| - 1].dbdf, BLOCK_PER_FPGA);
    }
  }

  lemma {:induction false} GroupFractions(devices: seq<Device>, u: UserFunction, position: nat, n: nat, t: string)
    ensures Group(devices + Fractions(u, position, n), t).Keys ==
            Group(devices, t).Keys + if u.shellVer + "-" + u.timestamp == t then FakeIDs(u.dbdf, n) else {}
  {
    if n == 0 {
      assert devices + [] == devices;
    } else {
      var before, d := devices + Fractions(u, position, n - 1), Fraction(u, n - 1, position + n - 1);
      assert devices + Fractions(u, position, n) == before + [d];
      GroupSnoc(before, d, t);
      GroupFractions(devices, u, position, n - 1, t);
    }
  }

  lemma AllFakeIDsSnoc(us: seq<UserFunction>, u: UserFunction)
    ensures AllFakeIDs(us + [u]) == AllFakeIDs(us) + FakeIDs(u.dbdf, BLOCK_PER_FPGA)
  {
  }

  /** The IDs in a group are the fake IDs of the boards of its type. */
  lemma {:induction false} GroupKeys(us: seq<UserFunction>, t: string)
    ensures Group(AllFractions(us), t).Keys == AllFakeIDs(OfType(us, t))
  {
    if us != [] {
      var before, u := us[..|us| - 1], us[|us| - 1];
      GroupKeys(before, t);
      GroupFractions(AllFractions(before), u, |AllFractions(before)|, BLOCK_PER_FPGA, t);
      AllFakeIDsSnoc(OfType(before, t), u);
      assert OfType(before, t) + [] == OfType(before, t);
    }
  }

  lemma {:induction false} OfTypeIn(us: seq<UserFunction>, t: string)
    ensures forall u :: u in OfType(us, t) <==> u in us && u.shellVer + "-" + u.timestamp == t
    ensures DistinctBoards(us) ==> DistinctBoards(OfType(us, t))
  {
    if us != [] {
      var before, u := us[..|us| - 1], us[|us| - 1];
      OfTypeIn(before, t);
      assert forall v :: v in us <==> v in before || v == u;
      var ks := OfType(before, t);
      if DistinctBoards(us) {
        forall i | 0 <= i < |ks| ensures ks[i].dbdf != u.dbdf {
          assert ks[i] in before;
        }
      }
    }
  }

  /** A scan of distinct boards offers, of each type, BLOCK_PER_FPGA devices for each of its boards. */
  lemma GroupSize(us: seq<UserFunction>, t: string)
    requires DistinctBoards(us)
    ensures |Group(AllFractions(us), t)| == BLOCK_PER_FPGA * |OfType(us, t)|
  {
    GroupKeys(us, t);
    OfTypeIn(us, t);
    FakeIDCount(OfType(us, t));
    var g := Group(AllFractions(us), t);
    assert |g| == |g.Keys|;
  }

  ghost predicate IsFraction(d: Device, u: UserFunction) {
    exists c: nat, position: nat :: c < BLOCK_PER_FPGA && d == Fraction(u, c, position)
  }

  /** Every device of a group is a fraction of some board of its type, kept under its own ID. */
  ghost predicate FractionsOf(g: map<string, Device>, us: seq<UserFunction>) {
    && (forall id :: id in g ==> g[id].dbdf == id)
    && (forall id :: id in g ==> exists u :: u in us && IsFraction(g[id], u))
  }

  lemma {:induction false} FractionsIn(u: UserFunction, position: nat, n: nat)
    requires n <= BLOCK_PER_FPGA
    ensures forall d :: d in Fractions(u, position, n) ==> IsFraction(d, u)
  {
    if n > 0 {
      FractionsIn(u, position, n - 1);
      assert IsFraction(Fraction(u, n - 1, position + n - 1), u);
    }
  }

  lemma {:induction false} AllFractionsIn(us: seq<UserFunction>)
    ensures forall d :: d in AllFractions(us) ==> exists u :: u in us && IsFraction(d, u)
  {
    if us != [] {
      var before, u := us[..|us| - 1], us[|us| - 1];
      AllFractionsIn(before);
      FractionsIn(u, |AllFractions(before)|, BLOCK_PER_FPGA);
      forall d | d in AllFractions(us) ensures exists v :: v in us && IsFraction(d, v) {
        if d in AllFractions(before) {
          var v :| v in before && IsFraction(d, v);
          assert v in us;
        } else {
          assert u in us && IsFraction(d, u);
        }
      }
    }
  }

  lemma {:induction false} GroupIn(devices: seq<Device>, t: string)
    ensures forall id :: id in Group(devices, t) ==>
              Group(devices, t)[id] in devices && Group(devices, t)[id].dbdf == id && TypeOf(Group(devices, t)[id]) == t
  {
    if devices != [] {
      GroupIn(devices[..|devices| - 1], t);
    }
  }

  lemma GroupFractionsOf(us: seq<UserFunction>, t: string)
    ensures FractionsOf(Group(AllFractions(us), t), OfType(us, t))
  {
    var g := Group(AllFractions(us), t);
    GroupIn(AllFractions(us), t);
    AllFractionsIn(us);
    OfTypeIn(us, t);
    forall id | id in g ensures exists u :: u in OfType(us, t) && IsFraction(g[id], u) {
      var u :| u in us && IsFraction(g[id], u);
      assert u in OfType(us, t);
    }
  }
}
