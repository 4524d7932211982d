// A constant load: the autoscaler reaches a fleet size that fits it and then leaves it alone.
module Convergence {
  import opened Autoscaler
  import opened Ledger
  import opened Sums
  import opened Wrappers

  /** n workers cover the load, and one fewer would not exceed it. */
  predicate Fits(n: int, load: nat) {
    n >= 1 && (n - 1) as real * CAPACITY <= load as real <= n as real * CAPACITY
  }

  predicate TooFew(n: int, load: nat) {
    n as real * CAPACITY < load as real
  }

  /** Without one of them, n workers would still exceed the load. */
  predicate TooMany(n: int, load: nat) {
    (n - 1) as real * CAPACITY > load as real
  }

  /** Everything a tick finds: each worker is online or awaited, and some are awaited only if all are needed. */
  ghost predicate Steady(s: Sched, load: nat) {
    && FleetLaw(s.fleet)
    && s.request == load
    && s.last == load as real
    && SteadyKeys(s, load)
  }

  ghost predicate SteadyKeys(s: Sched, load: nat) {
    && (forall n :: n in s.issued ==> s.issued[n] == CAPACITY)
    && s.fleet.Keys == Online(s.fleet) + s.issued.Keys
    && Needed(Online(s.fleet) == s.fleet.Keys, |s.fleet|, load)
  }

  predicate Needed(allOnline: bool, n: int, load: nat) {
    n >= 1 && (allOnline || TooFew(n - 1, load))
  }

  /** From one tick to the next: the worker taken offline is gone, awaited workers come online in any
      order, and the counters move as the balancer moves them. */
  ghost predicate Between(t: Sched, s: Sched, load: nat) {
    && s.request == load
    && s.last == t.last
    && FleetLaw(s.fleet)
    && Survivors(t, s)
  }

  ghost predicate Survivors(t: Sched, s: Sched) {
    && s.issued == t.issued
    && s.fleet.Keys == Online(t.fleet) + (t.fleet.Keys * t.issued.Keys)
    && Online(t.fleet) <= Online(s.fleet)
  }

  lemma NoTrend(s: Sched, r: Report, load: nat)
    requires Measures(s, r)
    requires s.request == load && s.last == load as real
    ensures r.diff == 0.0 && r.next == r.intensity == load as real
  {
  }

  lemma FleetWorth(fleet: Fleet, issued: map<string, real>)
    requires FleetLaw(fleet)
    requires forall n :: n in issued ==> issued[n] == CAPACITY
    requires fleet.Keys == Online(fleet) + issued.Keys
    ensures CapacityOf(fleet) + Sum(issued - Online(fleet)) == |fleet| as real * CAPACITY
  {
    var kept := issued - Online(fleet);
    LawfulCapacity(fleet);
    KeptCredits(fleet, issued, kept);
    SumOfCredits(kept.Keys);
    UnionCount(Online(fleet), kept.Keys);
  }

  lemma KeptCredits(fleet: Fleet, issued: map<string, real>, kept: map<string, real>)
    requires forall n :: n in issued ==> issued[n] == CAPACITY
    requires kept == issued - Online(fleet)
    requires fleet.Keys == Online(fleet) + issued.Keys
    ensures kept == Credits(kept.Keys)
    ensures kept.Keys !! Online(fleet) && |Online(fleet) + kept.Keys| == |fleet|
  {
  }

  lemma Counts(s: Sched, r: Report, t: Sched, load: nat)
    requires Steady(s, load)
    requires Tick(s, r, t)
    ensures r.diff == 0.0 && r.next == r.intensity == load as real
    ensures r.capacity + Sum(s.issued - Online(s.fleet)) == |s.fleet| as real * CAPACITY
  {
    NoTrend(s, r, load);
    FleetWorth(s.fleet, s.issued);
  }

  /** What a tick does to a steady fleet, by its size alone. */
  lemma SteadyTick(s: Sched, r: Report, t: Sched, load: nat)
    requires Steady(s, load)
    requires Tick(s, r, t) && !r.failed
    ensures r.added != {} <==> TooFew(|s.fleet|, load)
    ensures r.added != {} ==> TooFew(|s.fleet| + |r.added| - 1, load) && !TooFew(|s.fleet| + |r.added|, load)
    ensures r.shrunk.Some? <==> TooMany(|s.fleet|, load)
    ensures r.shrunk.Some? ==> Online(s.fleet) == s.fleet.Keys
  {
    Counts(s, r, t, load);
    AddsExactly(s, r, t, 0);
    AddsExactly(s, r, t, |r.added|);
    if r.added != {} {
      AddsExactly(s, r, t, |r.added| - 1);
    }
    SpareIff(s.fleet, r.capacity, load);
    OnlineAtMost(s.fleet);
  }

  lemma OnlineAtMost(fleet: Fleet)
    ensures |Online(fleet)| <= |fleet|
    ensures |Online(fleet)| == |fleet| ==> Online(fleet) == fleet.Keys
  {
    SubsetSize(Online(fleet), fleet.Keys);
  }

  lemma SubsetSize(x: set<string>, y: set<string>)
    requires x <= y
    ensures |x| <= |y|
    ensures |x| == |y| ==> x == y
  {
    assert y == x + (y - x);
  }

  lemma SpareIff(fleet: Fleet, capacity: real, load: nat)
    requires FleetLaw(fleet) && capacity == CapacityOf(fleet)
    ensures Spare(capacity, |Online(fleet)|, load as real) <==> TooMany(|Online(fleet)|, load)
  {
    LawfulCapacity(fleet);
    if |Online(fleet)| > 0 {
      ShareOf(capacity, |Online(fleet)|);
    }
  }

  /** How many ticks a fleet of n workers is away from fitting. */
  function Rank(n: int, load: nat): int {
    if Fits(n, load) then 0 else if TooFew(n, load) then 1 else n - 1
  }

  /** What a tick leaves online or awaited. */
  lemma KeysAfter(s: Sched, r: Report, t: Sched)
    requires forall n :: n in s.issued ==> s.issued[n] == CAPACITY
    requires s.fleet.Keys == Online(s.fleet) + s.issued.Keys
    requires Grows(s, r, t) && Shrinks(s, r, t)
    requires r.shrunk.Some? ==> Online(s.fleet) == s.fleet.Keys
    ensures Online(t.fleet) + t.issued.Keys ==
            s.fleet.Keys + r.added - (if r.shrunk.Some? then {r.shrunk.value} else {})
    ensures r.added == {} && Online(s.fleet) == s.fleet.Keys ==> t.issued.Keys == {}
    ensures t.issued == Credits(t.issued.Keys)
  {
    OnlineAfterShrink(s, r, t);
    IssuedAfter(s, r, t);
    KeysOf(s.fleet.Keys, r.added, r.shrunk, Online(s.fleet), s.issued.Keys, Online(t.fleet), t.issued.Keys);
  }

  lemma GrownKeys(s: Sched, r: Report, t: Sched)
    requires Shrinks(s, r, t)
    ensures t.fleet.Keys == s.fleet.Keys + r.added
  {
  }

  /** Which workers the next tick finds. */
  lemma NextKeys(t: Sched, s': Sched, keys: set<string>)
    requires t.issued == Credits(t.issued.Keys)
    requires Online(t.fleet) + t.issued.Keys == keys
    requires t.issued.Keys <= t.fleet.Keys
    requires Survivors(t, s')
    ensures s'.fleet.Keys == keys
    ensures s'.fleet.Keys == Online(s'.fleet) + s'.issued.Keys
    ensures forall n :: n in s'.issued ==> s'.issued[n] == CAPACITY
    ensures t.issued.Keys == {} ==> Online(s'.fleet) == s'.fleet.Keys
  {
  }

  lemma KeysOf(keys: set<string>, added: set<string>, shrunk: Option<string>,
      online: set<string>, issued: set<string>, online': set<string>, issued': set<string>)
    requires keys == online + issued
    requires online' == online - (if shrunk.Some? then {shrunk.value} else {})
    requires issued' == (issued - online) + added
    requires added !! keys
    requires shrunk.Some? ==> online == keys && added == {}
    ensures online' + issued' == keys + added - (if shrunk.Some? then {shrunk.value} else {})
    ensures added == {} && online == keys ==> issued' == {}
  {
  }

  lemma IssuedExist(s: Sched, r: Report, t: Sched)
    requires s.issued.Keys <= s.fleet.Keys
    requires Grows(s, r, t) && t.fleet.Keys == s.fleet.Keys + r.added
    ensures t.issued.Keys <= t.fleet.Keys
  {
  }

  lemma NextFleet(s: Sched, r: Report, t: Sched, s': Sched, load: nat)
    requires SteadyKeys(s, load)
    requires Grows(s, r, t) && Shrinks(s, r, t)
    requires r.shrunk.Some? ==> Online(s.fleet) == s.fleet.Keys
    requires Survivors(t, s')
    ensures s'.fleet.Keys == s.fleet.Keys + r.added - (if r.shrunk.Some? then {r.shrunk.value} else {})
    ensures s'.fleet.Keys == Online(s'.fleet) + s'.issued.Keys
    ensures forall n :: n in s'.issued ==> s'.issued[n] == CAPACITY
    ensures r.added == {} && Online(s.fleet) == s.fleet.Keys ==> Online(s'.fleet) == s'.fleet.Keys
  {
    GrownKeys(s, r, t);
    IssuedExist(s, r, t);
    KeysAfter(s, r, t);
    NextKeys(t, s', s.fleet.Keys + r.added - (if r.shrunk.Some? then {r.shrunk.value} else {}));
  }

  lemma NextCount(keys: set<string>, fleet: Fleet, added: set<string>, shrunk: Option<string>)
    requires added !! keys
    requires shrunk.Some? ==> shrunk.value in keys && added == {}
    requires fleet.Keys == keys + added - (if shrunk.Some? then {shrunk.value} else {})
    ensures |fleet| == |keys| + |added| - (if shrunk.Some? then 1 else 0)
    ensures added == {} && shrunk == None ==> fleet.Keys == keys
    ensures added == {} <==> |added| == 0
  {
  }

  /** The next tick finds a steady fleet again, nearer to the fit unless it fitted already. */
  lemma SteadyStep(s: Sched, r: Report, t: Sched, s': Sched, load: nat)
    requires Steady(s, load)
    requires Tick(s, r, t) && !r.failed
    requires Between(t, s', load)
    ensures Steady(s', load)
    ensures Fits(|s.fleet|, load) ==> r.added == {} && r.shrunk == None && s'.fleet.Keys == s.fleet.Keys
    ensures !Fits(|s.fleet|, load) ==> Rank(|s'.fleet|, load) < Rank(|s.fleet|, load)
    ensures |s'.fleet| == |s.fleet| + |r.added| - (if r.shrunk.Some? then 1 else 0)
  {
    SteadyTick(s, r, t, load);
    NextFleet(s, r, t, s', load);
    SteadySize(s, r, s', load);
    NoTrend(s, r, load);
  }

  lemma SteadySize(s: Sched, r: Report, s': Sched, load: nat)
    requires SteadyKeys(s, load)
    requires r.added !! s.fleet.Keys && (r.shrunk.Some? ==> r.shrunk.value in s.fleet)
    requires r.added != {} <==> TooFew(|s.fleet|, load)
    requires r.added != {} ==> TooFew(|s.fleet| + |r.added| - 1, load) && !TooFew(|s.fleet| + |r.added|, load)
    requires r.shrunk.Some? <==> TooMany(|s.fleet|, load)
    requires r.shrunk.Some? ==> Online(s.fleet) == s.fleet.Keys && r.added == {}
    requires s'.fleet.Keys == s.fleet.Keys + r.added - (if r.shrunk.Some? then {r.shrunk.value} else {})
    requires r.added == {} && Online(s.fleet) == s.fleet.Keys ==> Online(s'.fleet) == s'.fleet.Keys
    ensures Needed(Online(s'.fleet) == s'.fleet.Keys, |s'.fleet|, load)
    ensures Fits(|s.fleet|, load) ==> r.added == {} && r.shrunk == None && s'.fleet.Keys == s.fleet.Keys
    ensures !Fits(|s.fleet|, load) ==> Rank(|s'.fleet|, load) < Rank(|s.fleet|, load)
    ensures |s'.fleet| == |s.fleet| + |r.added| - (if r.shrunk.Some? then 1 else 0)
  {
    NextCount(s.fleet.Keys, s'.fleet, r.added, r.shrunk);
    SizeStep(|s.fleet|, |r.added|, if r.shrunk.Some? then 1 else 0, |s'.fleet|,
      Online(s.fleet) == s.fleet.Keys, Online(s'.fleet) == s'.fleet.Keys, load);
  }

  /** The arithmetic of a tick: growth stops at the fit, shrinking goes one at a time. */
  lemma SizeStep(n: nat, added: nat, gone: nat, n': int, all: bool, all': bool, load: nat)
    requires Needed(all, n, load)
    requires added > 0 <==> TooFew(n, load)
    requires added > 0 ==> TooFew(n + added - 1, load) && !TooFew(n + added, load)
    requires gone == if TooMany(n, load) then 1 else 0
    requires added == 0 && all ==> all'
    requires n' == n + added - gone
    ensures Needed(all', n', load)
    ensures Fits(n, load) ==> added == 0 && gone == 0
    ensures !Fits(n, load) ==> Rank(n', load) < Rank(n, load)
  {
  }

  /** Together with the workers there are, the free ports are enough for the load. */
  predicate Enough(s: Sched, ports: nat, load: nat) {
    !TooFew(|s.fleet| + ports, load)
  }

  /** With enough ports a tick does not fail. */
  lemma NeverStuck(s: Sched, r: Report, t: Sched, ports: nat, load: nat)
    requires Steady(s, load)
    requires Tick(s, r, t) && Answered(r, ports)
    requires Enough(s, ports, load)
    ensures !r.failed
  {
    Counts(s, r, t, load);
    CreditSum(s, r, t);
    Covered(|s.fleet|, |r.added|, load);
  }

  lemma Covered(n: nat, added: nat, load: nat)
    ensures !TooFew(n + added, load) <==> n as real * CAPACITY + added as real * CAPACITY >= load as real
  {
  }

  /** One turn of a run: a tick, and what the next one finds. */
  ghost predicate Turn(s: Sched, ports: nat, r: Report, t: Sched, s': Sched, load: nat) {
    && Tick(s, r, t)
    && Answered(r, ports)
    && Between(t, s', load)
  }

  /** A worker holds one port; a worker that is gone has given its port back. */
  ghost predicate PortsHeld(ss: seq<Sched>, ps: seq<nat>)
    requires |ss| == |ps|
  {
    forall i :: 0 < i < |ss| ==> ps[i] + |ss[i].fleet| == ps[i - 1] + |ss[i - 1].fleet|
  }

  /** A run of ticks under a constant load: tick i takes ss[i] to ts[i], and ps[i] ports are free when it starts. */
  ghost predicate Ticks(ss: seq<Sched>, ps: seq<nat>, rs: seq<Report>, ts: seq<Sched>, load: nat) {
    && |ss| == |ps| == |rs| + 1
    && |ts| == |rs|
    && PortsHeld(ss, ps)
    && forall i :: 0 <= i < |rs| ==> TurnAt(ss, ps, rs, ts, load, i)
  }

  ghost predicate TurnAt(ss: seq<Sched>, ps: seq<nat>, rs: seq<Report>, ts: seq<Sched>, load: nat, i: int)
    requires |ss| == |ps| == |rs| + 1 && |ts| == |rs|
    requires 0 <= i < |rs|
  {
    Turn(ss[i], ps[i], rs[i], ts[i], ss[i + 1], load)
  }

  lemma {:induction false} PortsKept(ss: seq<Sched>, ps: seq<nat>, k: nat)
    requires |ss| == |ps| && PortsHeld(ss, ps)
    requires k < |ss|
    ensures ps[k] + |ss[k].fleet| == ps[0] + |ss[0].fleet|
  {
    if k > 0 {
      PortsKept(ss, ps, k - 1);
    }
  }

  /** With enough ports a turn leads from a steady fleet to a steady fleet that is nearer to the fit. */
  lemma Advance(s: Sched, ports: nat, r: Report, t: Sched, s': Sched, load: nat)
    requires Steady(s, load) && Enough(s, ports, load)
    requires Turn(s, ports, r, t, s', load)
    ensures Steady(s', load) && !r.failed
    ensures Fits(|s.fleet|, load) ==> r.added == {} && r.shrunk == None && s'.fleet.Keys == s.fleet.Keys
    ensures !Fits(|s.fleet|, load) ==> Rank(|s'.fleet|, load) < Rank(|s.fleet|, load)
  {
    NeverStuck(s, r, t, ports, load);
    SteadyStep(s, r, t, s', load);
  }

  lemma {:induction false} Approach(ss: seq<Sched>, ps: seq<nat>, rs: seq<Report>, ts: seq<Sched>, load: nat, k: nat)
    requires Ticks(ss, ps, rs, ts, load)
    requires Steady(ss[0], load) && Enough(ss[0], ps[0], load)
    requires k < |ss|
    ensures Steady(ss[k], load)
    ensures Fits(|ss[k].fleet|, load) || Rank(|ss[k].fleet|, load) <= Rank(|ss[0].fleet|, load) - k
  {
    if k > 0 {
      Approach(ss, ps, rs, ts, load, k - 1);
      PortsKept(ss, ps, k - 1);
      assert TurnAt(ss, ps, rs, ts, load, k - 1);
      Advance(ss[k - 1], ps[k - 1], rs[k - 1], ts[k - 1], ss[k], load);
    }
  }

  /** A fleet that is online, with enough ports, converges within as many ticks as it has workers, and is then left
      alone: from there on nothing is added, nothing is taken away, and the workers stay the same. */
  lemma Converges(ss: seq<Sched>, ps: seq<nat>, rs: seq<Report>, ts: seq<Sched>, load: nat, k: nat)
    requires Ticks(ss, ps, rs, ts, load)
    requires Steady(ss[0], load) && Online(ss[0].fleet) == ss[0].fleet.Keys
    requires Enough(ss[0], ps[0], load)
    requires |ss[0].fleet| <= k < |rs|
    ensures Fits(|ss[k].fleet|, load)
    ensures !rs[k].failed && rs[k].added == {} && rs[k].shrunk == None
    ensures ss[k + 1].fleet.Keys == ss[k].fleet.Keys
  {
    Approach(ss, ps, rs, ts, load, k);
    RankSpent(|ss[0].fleet|, |ss[k].fleet|, load, k);
    PortsKept(ss, ps, k);
    assert TurnAt(ss, ps, rs, ts, load, k);
    Advance(ss[k], ps[k], rs[k], ts[k], ss[k + 1], load);
  }

  lemma RankSpent(n: nat, n': nat, load: nat, k: nat)
    requires 1 <= n <= k && n' >= 1
    requires Fits(n', load) || Rank(n', load) <= Rank(n, load) - k
    ensures Fits(n', load)
  {
  }

  /** A fleet that is online comes to fit the load if and only if there are enough ports. */
  lemma ConvergesIff(ss: seq<Sched>, ps: seq<nat>, rs: seq<Report>, ts: seq<Sched>, load: nat, k: nat)
    requires Ticks(ss, ps, rs, ts, load)
    requires Steady(ss[0], load) && Online(ss[0].fleet) == ss[0].fleet.Keys
    requires |ss[0].fleet| <= k < |rs|
    ensures Fits(|ss[k].fleet|, load) <==> Enough(ss[0], ps[0], load)
  {
    if Enough(ss[0], ps[0], load) {
      Converges(ss, ps, rs, ts, load, k);
    } else {
      PortsKept(ss, ps, k);
      NoFitAbove(|ss[k].fleet|, ps[k], load);
    }
  }

  lemma NoFitAbove(n: nat, ports: nat, load: nat)
    ensures TooFew(n + ports, load) ==> !Fits(n, load)
  {
  }

  /** The tick right after a scale-up already fits: it neither scales again nor shrinks, whichever of
      the awaited workers are online by then. */
  lemma ScaleUpIsFinal(s: Sched, ports: nat, r: Report, t: Sched,
                       s': Sched, ports': nat, r': Report, t': Sched, load: nat)
    requires Steady(s, load) && Enough(s, ports, load)
    requires Turn(s, ports, r, t, s', load) && r.added != {}
    requires ports' + |s'.fleet| == ports + |s.fleet|
    requires Tick(s', r', t') && Answered(r', ports')
    ensures !r.failed && !r'.failed
    ensures Fits(|s'.fleet|, load)
    ensures r'.added == {} && r'.shrunk == None
  {
    NeverStuck(s, r, t, ports, load);
    SteadyTick(s, r, t, load);
    SteadyStep(s, r, t, s', load);
    NeverStuck(s', r', t', ports', load);
    SteadyTick(s', r', t', load);
  }
}
