// Under a constant load and with enough ports a tick is always possible, so runs of every length exist, and what
// Convergence proves about them is about something.
module SteadyRuns {
  import opened Autoscaler
  import opened Convergence
  import opened Ledger
  import opened Sums
  import opened Wrappers

  lemma {:induction false} LongerThanAll(used: set<string>) returns (m: nat)
    ensures forall s :: s in used ==> |s| < m
    decreases |used|
  {
    if used == {} {
      m := 0;
    } else {
      var s :| s in used;
      var k := LongerThanAll(used - {s});
      m := if k > |s| then k else |s| + 1;
    }
  }

  /** There are always k names that are not in use. */
  lemma {:induction false} FreshNames(used: set<string>, k: nat) returns (names: set<string>)
    ensures |names| == k && names !! used
  {
    if k == 0 {
      names := {};
    } else {
      var before := FreshNames(used, k - 1);
      var m := LongerThanAll(used + before);
      var n := seq(m, _ => 'a');
      assert n !in used + before;
      names := before + {n};
    }
  }

  /** The least number of further workers that covers the load. */
  lemma {:induction false} EnoughWorkers(n: nat, load: nat) returns (k: nat)
    ensures !TooFew(n + k, load)
    ensures k > 0 ==> TooFew(n + k - 1, load)
    decreases load - n
  {
    if TooFew(n, load) {
      k := EnoughWorkers(n + 1, load);
      k := k + 1;
    } else {
      k := 0;
    }
  }

  lemma GrowthExists(s: Sched, ports: nat, load: nat) returns (names: set<string>, issued: map<string, real>)
    requires Steady(s, load) && Enough(s, ports, load)
    ensures |names| <= ports
    ensures names !! s.fleet.Keys && names !! (s.issued - Online(s.fleet)).Keys
    ensures issued == (s.issued - Online(s.fleet)) + Credits(names)
    ensures var total := CapacityOf(s.fleet) + Sum(issued);
            total >= load as real && (names != {} ==> total - CAPACITY < load as real)
  {
    var kept := s.issued - Online(s.fleet);
    var k := EnoughWorkers(|s.fleet|, load);
    names := FreshNames(s.fleet.Keys + kept.Keys, k);
    issued := kept + Credits(names);
    LeastIsEnough(|s.fleet|, k, ports, load);
    FleetWorth(s.fleet, s.issued);
    SumUnion(kept, Credits(names));
    SumOfCredits(names);
    Worth(|s.fleet|, k, load);
  }

  lemma LeastIsEnough(n: nat, k: nat, ports: nat, load: nat)
    requires k > 0 ==> TooFew(n + k - 1, load)
    requires !TooFew(n + ports, load)
    ensures k <= ports
  {
  }

  lemma Worth(n: nat, k: nat, load: nat)
    ensures !TooFew(n + k, load) ==> n as real * CAPACITY + k as real * CAPACITY >= load as real
    ensures k > 0 && TooFew(n + k - 1, load) ==> n as real * CAPACITY + k as real * CAPACITY - CAPACITY < load as real
  {
  }

  lemma MeasuresSteady(s: Sched, r: Report, load: nat)
    requires s.request == load && s.last == load as real
    requires r.capacity == CapacityOf(s.fleet) && r.intensity == r.next == load as real && r.diff == 0.0
    ensures Measures(s, r)
  {
  }

  lemma ShrinksSome(s: Sched, r: Report) returns (shrunk: Option<string>, fleet: Fleet)
    requires !r.failed && r.diff == 0.0
    ensures forall issued, request, last ::
              Shrinks(s, r.(shrunk := shrunk), Sched(fleet, request, issued, last))
  {
    shrunk, fleet := None, Drained(s.fleet) + NewWorkers(r.added);
    if r.added == {} && Spare(r.capacity, |Online(s.fleet)|, r.intensity) {
      var n :| n in Online(s.fleet);
      shrunk, fleet := Some(n), fleet[n := fleet[n].(online := false)];
    }
  }

  /** From every steady state with enough ports some tick leads on. */
  lemma TickExists(s: Sched, ports: nat, load: nat) returns (r: Report, t: Sched)
    requires Steady(s, load) && Enough(s, ports, load)
    ensures Tick(s, r, t) && Answered(r, ports) && !r.failed
  {
    var names, issued := GrowthExists(s, ports, load);
    var e := Report(CapacityOf(s.fleet), load as real, 0.0, load as real, names, false, None);
    var shrunk, fleet := ShrinksSome(s, e);
    r, t := e.(shrunk := shrunk), Sched(fleet, 0, issued, load as real);
    MeasuresSteady(s, r, load);
    assert Grows(s, r, t);
    assert Shrinks(s, r, t);
  }

  lemma LawAfter(s: Sched, r: Report, t: Sched)
    requires FleetLaw(s.fleet) && r.added !! s.fleet.Keys
    requires Shrinks(s, r, t)
    ensures FleetLaw(t.fleet)
  {
  }

  lemma SurvivorsExist(t: Sched, fleet: Fleet, load: nat)
    requires fleet == map n | n in t.fleet && (t.fleet[n].online || n in t.issued) :: t.fleet[n]
    ensures Survivors(t, Sched(fleet, load, t.issued, t.last))
    ensures FleetLaw(t.fleet) ==> FleetLaw(fleet)
  {
  }

  /** From what a tick leaves, the next one can find a state, for instance with every awaited worker still offline. */
  lemma NextExists(s: Sched, r: Report, t: Sched, load: nat) returns (s': Sched)
    requires FleetLaw(s.fleet)
    requires Tick(s, r, t)
    ensures Between(t, s', load)
  {
    LawAfter(s, r, t);
    var fleet := map n | n in t.fleet && (t.fleet[n].online || n in t.issued) :: t.fleet[n];
    SurvivorsExist(t, fleet, load);
    s' := Sched(fleet, load, t.issued, t.last);
  }

  /** Turn i of a run is turn i + 1 of the longer run. */
  lemma TurnShifts(s: Sched, ports: nat, r: Report, t: Sched,
                   ss: seq<Sched>, ps: seq<nat>, rs: seq<Report>, ts: seq<Sched>, load: nat, i: nat)
    requires |ss| == |ps| == |rs| + 1 && |ts| == |rs| && i < |rs|
    requires TurnAt(ss, ps, rs, ts, load, i)
    ensures TurnAt([s] + ss, [ports] + ps, [r] + rs, [t] + ts, load, i + 1)
  {
    var ss', ps', rs', ts' := [s] + ss, [ports] + ps, [r] + rs, [t] + ts;
    assert ss'[i + 1] == ss[i] && ss'[i + 2] == ss[i + 1] && ps'[i + 1] == ps[i];
    assert rs'[i + 1] == rs[i] && ts'[i + 1] == ts[i];
  }

  lemma PortsPrepended(s: Sched, ports: nat, ss: seq<Sched>, ps: seq<nat>)
    requires |ss| == |ps| > 0 && PortsHeld(ss, ps)
    requires ps[0] + |ss[0].fleet| == ports + |s.fleet|
    ensures PortsHeld([s] + ss, [ports] + ps)
  {
  }

  lemma Prepended(s: Sched, ports: nat, r: Report, t: Sched,
                  ss: seq<Sched>, ps: seq<nat>, rs: seq<Report>, ts: seq<Sched>, load: nat)
    requires Ticks(ss, ps, rs, ts, load)
    requires Turn(s, ports, r, t, ss[0], load)
    requires ps[0] + |ss[0].fleet| == ports + |s.fleet|
    ensures Ticks([s] + ss, [ports] + ps, [r] + rs, [t] + ts, load)
  {
    var ss', ps', rs', ts' := [s] + ss, [ports] + ps, [r] + rs, [t] + ts;
    assert TurnAt(ss', ps', rs', ts', load, 0);
    forall i | 1 <= i < |rs'| ensures TurnAt(ss', ps', rs', ts', load, i) {
      TurnShifts(s, ports, r, t, ss, ps, rs, ts, load, i - 1);
    }
    PortsPrepended(s, ports, ss, ps);
  }

  /** Runs of every length exist from every steady state with enough ports. */
  lemma {:induction false} RunExists(s: Sched, ports: nat, load: nat, k: nat)
      returns (ss: seq<Sched>, ps: seq<nat>, rs: seq<Report>, ts: seq<Sched>)
    requires Steady(s, load) && Enough(s, ports, load)
    ensures Ticks(ss, ps, rs, ts, load)
    ensures |rs| == k && ss[0] == s && ps[0] == ports
    decreases k
  {
    if k == 0 {
      ss, ps, rs, ts := [s], [ports], [], [];
    } else {
      var r, t := TickExists(s, ports, load);
      var s' := NextExists(s, r, t, load);
      SteadyStep(s, r, t, s', load);
      var ports' := ports + |s.fleet| - |s'.fleet|;
      ss, ps, rs, ts := RunExists(s', ports', load, k - 1);
      Prepended(s, ports, r, t, ss, ps, rs, ts, load);
      ss, ps, rs, ts := [s] + ss, [ports] + ps, [r] + rs, [t] + ts;
    }
  }

  /** One online worker, just scanned, under any load: a steady state to start from. */
  lemma SteadyExists(load: nat) returns (s: Sched)
    ensures Steady(s, load) && Online(s.fleet) == s.fleet.Keys && |s.fleet| == 1
  {
    var fleet: Fleet := map["worker-1" := NewWorker().(online := true)];
    s := Sched(fleet, load, map[], load as real);
    assert fleet.Keys == {"worker-1"};
    assert |fleet| == |fleet.Keys|;
    assert Online(fleet) == {"worker-1"};
  }

  /** One worker under any constant load its ports are enough for: some run fits after one tick. */
  lemma FitIsReached(ports: nat, load: nat) returns (ss: seq<Sched>, ps: seq<nat>, rs: seq<Report>, ts: seq<Sched>)
    requires !TooFew(1 + ports, load)
    ensures Ticks(ss, ps, rs, ts, load)
    ensures |ss| > 1 && |ss[0].fleet| == 1 && ps[0] == ports
    ensures Fits(|ss[1].fleet|, load)
  {
    var s := SteadyExists(load);
    ss, ps, rs, ts := RunExists(s, ports, load, 2);
    Converges(ss, ps, rs, ts, load, 1);
  }
}
