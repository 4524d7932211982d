// Whole calls are runs of the ledger machine: what a dispatch or a tick does when nobody interferes is what
// its critical sections do one after the other. So every law of the machine holds across them too.
module WholeCalls {
  import opened Autoscaler
  import opened Config
  import opened Fairness
  import opened Ledger
  import opened Wrappers

  /** The state after the steps es, taken from s. */
  function RunFrom(s: State, es: seq<Event>): Option<State>
    decreases es
  {
    if es == [] then Some(s)
    else if Enabled(s, es[0]) then RunFrom(Apply(s, es[0]), es[1..])
    else None
  }

  lemma Shifted(before: seq<Event>, es: seq<Event>)
    requires es != []
    ensures before + [es[0]] + es[1..] == before + es
  {
  }

  /** Steps taken from a state some run leads to continue that run. */
  lemma {:induction false} RunContinues(before: seq<Event>, s: State, es: seq<Event>, t: State)
    requires Exec(before) == Some(s)
    requires RunFrom(s, es) == Some(t)
    ensures Exec(before + es) == Some(t)
    decreases es
  {
    if es == [] {
      assert before + es == before;
    } else {
      ExecSnoc(before, s, es[0]);
      RunContinues(before + [es[0]], Apply(s, es[0]), es[1..], t);
      Shifted(before, es);
    }
  }

  lemma {:induction false} RunJoins(s: State, es: seq<Event>, u: State, fs: seq<Event>, t: State)
    requires RunFrom(s, es) == Some(u) && RunFrom(u, fs) == Some(t)
    ensures RunFrom(s, es + fs) == Some(t)
    decreases es
  {
    if es == [] {
      assert es + fs == fs;
    } else {
      assert (es + fs)[0] == es[0] && (es + fs)[1..] == es[1..] + fs;
      RunJoins(Apply(s, es[0]), es[1..], u, fs, t);
    }
  }

  lemma RunOne(s: State, e: Event)
    requires Enabled(s, e)
    ensures RunFrom(s, [e]) == Some(Apply(s, e))
  {
    assert [e][1..] == [];
  }

  // ----- a dispatch -----

  /** A dispatch is a pick, a flush and a pick, or a flush that found nothing. */
  lemma DispatchIsRun(s: State, after: Fleet, batch: int, picked: Option<string>) returns (es: seq<Event>, t: State)
    requires Dispatched(s.fleet, after, batch, picked)
    requires 1 <= batch <= BATCH
    ensures RunFrom(s, es) == Some(t)
    ensures t.fleet == after && t.issued == s.issued
    ensures t.request == s.request + if picked.Some? then batch else 0
    ensures t.inflight == s.inflight + if picked.Some? then multiset{picked.value} else multiset{}
    ensures picked.Some? ==>
              es == [Pick(picked.value, batch)] || es == [Flush(ToRefill(s.fleet)), Pick(picked.value, batch)]
    ensures picked == None ==> es == [Flush({})]
  {
    if exists n :: n in s.fleet && Pickable(s.fleet[n]) {
      var pick := Pick(picked.value, batch);
      RunOne(s, pick);
      es, t := [pick], Apply(s, pick);
    } else {
      var flush := Flush(ToRefill(s.fleet));
      var u := Apply(s, flush);
      RunOne(s, flush);
      es, t := [flush], u;
      if Online(s.fleet) != {} {
        var pick := Pick(picked.value, batch);
        RunOne(u, pick);
        RunJoins(s, [flush], u, [pick], Apply(u, pick));
        es, t := [flush] + [pick], Apply(u, pick);
      } else {
        NothingToFlush(s.fleet);
      }
    }
  }

  lemma NothingToFlush(fleet: Fleet)
    requires Online(fleet) == {}
    ensures ToRefill(fleet) == {} && Flushed(fleet) == fleet
  {
    forall n | n in fleet ensures !fleet[n].online {
      assert n !in Online(fleet);
    }
  }

  // ----- a tick -----

  /** Asking for a worker: it is registered, then noted. */
  lemma OneIssued(s: State, n: string) returns (t: State)
    requires n !in s.used && n !in s.returned
    ensures RunFrom(s, [Register(n), Issue(n)]) == Some(t)
    ensures t == s.(fleet := s.fleet[n := NewWorker()], issued := s.issued[n := CAPACITY], used := s.used + {n})
  {
    var u := Apply(s, Register(n));
    t := Apply(u, Issue(n));
    RunOne(u, Issue(n));
    assert [Register(n), Issue(n)][1..] == [Issue(n)];
    assert (s.returned + {n}) - {n} == s.returned;
  }

  lemma {:induction false} GrowthIsRun(s: State, names: set<string>) returns (es: seq<Event>, t: State)
    requires s.returned <= s.used && names !! s.used
    ensures RunFrom(s, es) == Some(t)
    ensures t == s.(fleet := s.fleet + NewWorkers(names), issued := s.issued + Credits(names), used := s.used + names)
    decreases names
  {
    if names == {} {
      es, t := [], s;
      assert s.fleet + NewWorkers({}) == s.fleet && s.issued + Credits({}) == s.issued && s.used + {} == s.used;
    } else {
      var n :| n in names;
      var u := OneIssued(s, n);
      es, t := GrowthIsRun(u, names - {n});
      RunJoins(s, [Register(n), Issue(n)], u, es, t);
      es := [Register(n), Issue(n)] + es;
      GrowthOrder(s, n, names);
    }
  }

  lemma GrowthOrder(s: State, n: string, names: set<string>)
    requires n in names
    ensures s.fleet[n := NewWorker()] + NewWorkers(names - {n}) == s.fleet + NewWorkers(names)
    ensures s.issued[n := CAPACITY] + Credits(names - {n}) == s.issued + Credits(names)
    ensures s.used + {n} + (names - {n}) == s.used + names
  {
  }

  /** A tick is a scan, then two steps for each worker it adds, then at most one worker going offline. */
  lemma TickIsRun(s: State, last: real, r: Report, t: Sched) returns (es: seq<Event>, u: State)
    requires s.returned <= s.used && s.fleet.Keys <= s.used
    requires Tick(Sched(s.fleet, s.request, s.issued, last), r, t)
    requires r.added !! s.used
    ensures RunFrom(s, es) == Some(u)
    ensures u.fleet == t.fleet && u.issued == t.issued && u.request == t.request
    ensures u.used == s.used + r.added && u.inflight == s.inflight
  {
    var scan := Scan(s.request);
    var scanned := Apply(s, scan);
    RunOne(s, scan);
    var grow, grown := GrowthIsRun(scanned, r.added);
    RunJoins(s, [scan], scanned, grow, grown);
    es, u := [scan] + grow, grown;
    if r.shrunk.Some? {
      var flip := Flip(r.shrunk.value, false);
      RunOne(grown, flip);
      RunJoins(s, es, grown, [flip], Apply(grown, flip));
      es, u := es + [flip], Apply(grown, flip);
    }
  }

  /** A tick taken in any run leaves a state the run could have reached, so all its laws hold there. */
  lemma TickKeepsLaws(before: seq<Event>, s: State, last: real, r: Report, t: Sched)
    requires Exec(before) == Some(s)
    requires Tick(Sched(s.fleet, s.request, s.issued, last), r, t)
    requires r.added !! s.used
    ensures FleetLaw(t.fleet)
    ensures forall n :: n in t.issued ==> t.issued[n] == CAPACITY
    ensures forall n :: n in t.fleet ==> t.fleet[n].workload == s.inflight[n]
  {
    IssuedLedger(before, s);
    WeightLedger(before, s);
    forall n | n in s.fleet ensures n in s.used {
      assert WeightOk(before, s, n);
    }
    var es, u := TickIsRun(s, last, r, t);
    RunContinues(before, s, es, u);
    BatchLedger(before + es, u);
    IssuedLedger(before + es, u);
    WorkloadLedger(before + es, u);
    forall n | n in t.fleet ensures t.fleet[n].workload == s.inflight[n] {
      assert WorkloadOk(before + es, u, n);
    }
  }

  // ----- a tick whose parts are apart -----

  /** A worker goes offline or is removed. */
  predicate Loses(e: Event) {
    e.Remove? || (e.Flip? && !e.online)
  }

  function Losses(fs: seq<Event>): nat {
    if fs == [] then 0 else Losses(fs[..|fs| - 1]) + if Loses(fs[|fs| - 1]) then 1 else 0
  }

  lemma LossStep(s: State, e: Event)
    requires Enabled(s, e) && s.fleet.Keys <= s.used
    ensures |Online(Apply(s, e).fleet)| >= |Online(s.fleet)| - if Loses(e) then 1 else 0
  {
    var before, after := Online(s.fleet), Online(Apply(s, e).fleet);
    if Loses(e) {
      assert before - {e.name} <= after;
      SizeAfterRemoval(before, e.name);
      AtLeast(before - {e.name}, after);
    } else {
      assert before <= after;
      AtLeast(before, after);
    }
  }

  lemma AtLeast(x: set<string>, y: set<string>)
    requires x <= y
    ensures |x| <= |y|
  {
    assert y == x + (y - x);
  }

  lemma {:induction false} OnlineAfterLosses(es: seq<Event>, s: State, fs: seq<Event>, u: State)
    requires Exec(es) == Some(s) && Exec(es + fs) == Some(u)
    ensures |Online(u.fleet)| >= |Online(s.fleet)| - Losses(fs)
    decreases |fs|
  {
    if fs == [] {
      assert es + fs == es;
    } else {
      var gs := fs[..|fs| - 1];
      assert (es + fs)[..|es + fs| - 1] == es + gs;
      OnlineAfterLosses(es, s, gs, Exec(es + gs).value);
      IssuedLedger(es + gs, Exec(es + gs).value);
      LossStep(Exec(es + gs).value, fs[|fs| - 1]);
    }
  }

  /** Other steps may fall between the scan of a tick, at s, and its shrink of n, at u. Each worker they take costs one
      worker's capacity, and the last online worker is safe as long as they leave two of those the scan saw. */
  lemma ShrinkApart(es: seq<Event>, s: State, fs: seq<Event>, u: State, n: string, intensity: real)
    requires Exec(es) == Some(s) && Exec(es + fs) == Some(u)
    requires Spare(CapacityOf(s.fleet), |Online(s.fleet)|, intensity) && intensity >= 0.0
    requires Enabled(u, Flip(n, false))
    ensures var left := |Online(Apply(u, Flip(n, false)).fleet)|;
            && (left + Losses(fs)) as real * CAPACITY > intensity
            && (Losses(fs) + 2 <= |Online(s.fleet)| ==> left > 0)
  {
    BatchLedger(es, s);
    SpareMeansTwo(s.fleet, CapacityOf(s.fleet), intensity);
    OnlineAfterLosses(es, s, fs, u);
    IssuedLedger(es + fs, u);
    LossStep(u, Flip(n, false));
  }

  /** The bound is sharp: where two workers are online, one loss in between lets the shrink take the last one. */
  lemma LastOneTaken(es: seq<Event>, s: State, a: string, b: string) returns (t: State)
    requires Exec(es) == Some(s)
    requires a != b && Online(s.fleet) == {a, b}
    ensures Exec(es + [Flip(a, false)] + [Flip(b, false)]) == Some(t)
    ensures Losses([Flip(a, false)]) == 1 && Online(t.fleet) == {}
  {
    assert a in Online(s.fleet) && b in Online(s.fleet);
    var u := Apply(s, Flip(a, false));
    ExecSnoc(es, s, Flip(a, false));
    ExecSnoc(es + [Flip(a, false)], u, Flip(b, false));
    t := Apply(u, Flip(b, false));
    assert Losses([Flip(a, false)][..0]) == 0;
    forall n | n in t.fleet ensures !t.fleet[n].online {
      assert n in Online(s.fleet) <==> n == a || n == b;
    }
  }
}
