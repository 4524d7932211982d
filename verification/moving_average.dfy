// The integer moving average of a worker's latency.
module MovingAverage {
  import opened Config
  import opened Ledger
  import opened Wrappers

  function Average(avg: int, latency: int): int {
    TruncDiv(avg * 3 + latency, 4)
  }

  /** The latencies reported for n in a run, oldest first. */
  function Samples(es: seq<Event>, n: string): seq<int> {
    if es == [] then []
    else
      var e := es[|es| - 1];
      Samples(es[..|es| - 1], n) + if e.Finish? && e.name == n then [e.latency] else []
  }

  ghost predicate Within(xs: seq<int>, lo: int, hi: int) {
    forall i :: 0 <= i < |xs| ==> lo <= xs[i] <= hi
  }

  lemma AverageStep(s: State, e: Event, n: string)
    requires Enabled(s, e)
    requires n in s.fleet && n in s.used
    requires e != Remove(n)
    ensures n in Apply(s, e).fleet
    ensures Apply(s, e).fleet[n].avegLatency ==
            if e.Finish? && e.name == n then Average(s.fleet[n].avegLatency, e.latency) else s.fleet[n].avegLatency
  {
  }

  /** The average lies between any bounds on the initial value and every latency reported, of any sign. */
  lemma {:induction false} AverageBounded(es: seq<Event>, s: State, n: string, lo: int, hi: int)
    requires Exec(es) == Some(s)
    requires n in s.fleet
    requires lo <= BATCH_LATENCY <= hi
    requires Within(Samples(es, n), lo, hi)
    ensures lo <= s.fleet[n].avegLatency <= hi
  {
    var e, r := es[|es| - 1], Exec(es[..|es| - 1]).value;
    var before := Samples(es[..|es| - 1], n);
    assert forall i :: 0 <= i < |before| ==> before[i] == Samples(es, n)[i];
    if n in r.fleet {
      AverageBounded(es[..|es| - 1], r, n, lo, hi);
      IssuedLedger(es[..|es| - 1], r);
      AverageStep(r, e, n);
      if e.Finish? && e.name == n {
        assert Samples(es, n)[|before|] == e.latency;
      }
    }
  }

  lemma LateStep(s: State, e: Event, n: string)
    requires Enabled(s, e) && s.fleet.Keys <= s.used
    ensures var t := Apply(s, e);
            n in t.fleet ==>
              if n in s.fleet then
                t.fleet[n].lateLatency == if e.Finish? && e.name == n then e.latency else s.fleet[n].lateLatency
              else n !in s.used && !e.Finish? && t.fleet[n].lateLatency == BATCH_LATENCY
  {
  }

  /** The latest latency of a worker is that of its last report, or the batch latency it began with. */
  lemma {:induction false} LatestReported(es: seq<Event>, s: State, n: string)
    requires Exec(es) == Some(s)
    requires n in s.fleet
    ensures var xs := Samples(es, n);
            s.fleet[n].lateLatency == if xs == [] then BATCH_LATENCY else xs[|xs| - 1]
  {
    var before, e := es[..|es| - 1], es[|es| - 1];
    var r := Exec(before).value;
    IssuedLedger(before, r);
    LateStep(r, e, n);
    if n in r.fleet {
      LatestReported(before, r, n);
    } else {
      NoSamples(before, r, n);
    }
  }

  lemma {:induction false} NoSamples(es: seq<Event>, s: State, n: string)
    requires Exec(es) == Some(s)
    ensures n !in s.used ==> Samples(es, n) == [] && n !in s.fleet
  {
    if es != [] {
      NoSamples(es[..|es| - 1], Exec(es[..|es| - 1]).value, n);
    }
  }

  /** The average after k reports of the same latency. */
  function Settle(avg: int, latency: int, k: nat): int
    decreases k
  {
    if k == 0 then avg else Settle(Average(avg, latency), latency, k - 1)
  }

  /** The averages that the same latency no longer moves: it, and up to three units below it. */
  lemma FixedPoints(avg: int, latency: int)
    requires avg >= 0 && latency >= 0
    ensures Average(avg, latency) == avg <==> latency - 3 <= avg <= latency
  {
  }

  lemma Closer(avg: int, latency: int)
    requires avg >= 0 && latency >= 0
    ensures avg > latency ==> latency <= Average(avg, latency) < avg
    ensures avg < latency - 3 ==> avg < Average(avg, latency) <= latency - 3
  {
  }

  lemma {:induction false} Fixed(avg: int, latency: int, k: nat)
    requires Average(avg, latency) == avg
    ensures Settle(avg, latency, k) == avg
  {
    if k > 0 {
      Fixed(avg, latency, k - 1);
    }
  }

  /** Where a constant latency leads: exactly there from above, three units short from below. */
  function RestingPoint(avg: int, latency: int): int {
    if avg >= latency then latency else if avg <= latency - 3 then latency - 3 else avg
  }

  lemma {:induction false} Settles(avg: int, latency: int, k: nat)
    requires avg >= 0 && latency >= 0
    requires k >= avg - latency && k >= latency - avg
    ensures Settle(avg, latency, k) == RestingPoint(avg, latency)
    decreases k
  {
    FixedPoints(avg, latency);
    if latency - 3 <= avg <= latency {
      Fixed(avg, latency, k);
    } else {
      Closer(avg, latency);
      Settles(Average(avg, latency), latency, k - 1);
    }
  }

  lemma LastStep(before: seq<Event>, e: Event, t: State, n: string) returns (u: State)
    requires Exec(before + [e]) == Some(t)
    ensures Exec(before) == Some(u)
    ensures n in u.fleet && e != Remove(n) ==>
              && n in t.fleet
              && t.fleet[n].avegLatency ==
                 if e.Finish? && e.name == n then Average(u.fleet[n].avegLatency, e.latency) else u.fleet[n].avegLatency
  {
    assert (before + [e])[..|before + [e]| - 1] == before;
    u := Exec(before).value;
    IssuedLedger(before, u);
    if n in u.fleet && e != Remove(n) {
      AverageStep(u, e, n);
    }
  }

  lemma SamplesSnoc(gs: seq<Event>, e: Event, n: string, latency: int)
    requires Within(Samples(gs + [e], n), latency, latency)
    ensures Within(Samples(gs, n), latency, latency)
    ensures e.Finish? && e.name == n ==> e.latency == latency && |Samples(gs + [e], n)| == |Samples(gs, n)| + 1
    ensures !(e.Finish? && e.name == n) ==> Samples(gs + [e], n) == Samples(gs, n)
  {
    var before, after := Samples(gs, n), Samples(gs + [e], n);
    assert (gs + [e])[..|gs + [e]| - 1] == gs;
    assert forall i :: 0 <= i < |before| ==> before[i] == after[i];
    if e.Finish? && e.name == n {
      assert after[|before|] == e.latency;
    }
  }

  /** One more step, where the reports for n have moved its average by Settle so far. */
  lemma SettleStep(before: seq<Event>, u: State, gs: seq<Event>, e: Event, t: State, n: string, avg: int, latency: int)
    requires Exec(before) == Some(u) && Exec(before + [e]) == Some(t)
    requires e != Remove(n) && Within(Samples(gs + [e], n), latency, latency)
    requires n in u.fleet && u.fleet[n].avegLatency == Settle(avg, latency, |Samples(gs, n)|)
    ensures n in t.fleet
    ensures t.fleet[n].avegLatency == Settle(avg, latency, |Samples(gs + [e], n)|)
  {
    var r := LastStep(before, e, t, n);
    SamplesSnoc(gs, e, n, latency);
    SettleSnoc(avg, latency, |Samples(gs, n)|);
  }

  lemma Split(es: seq<Event>, fs: seq<Event>)
    requires fs != []
    ensures fs == fs[..|fs| - 1] + [fs[|fs| - 1]]
    ensures es + fs == (es + fs[..|fs| - 1]) + [fs[|fs| - 1]]
  {
  }

  /** When every report for n in the steps fs is the same latency, they move its average by Settle. */
  lemma {:induction false} SettleInRun(es: seq<Event>, s: State, fs: seq<Event>, t: State, n: string, latency: int)
    requires Exec(es) == Some(s) && Exec(es + fs) == Some(t)
    requires n in s.fleet && Remove(n) !in fs
    requires Within(Samples(fs, n), latency, latency)
    ensures n in t.fleet
    ensures t.fleet[n].avegLatency == Settle(s.fleet[n].avegLatency, latency, |Samples(fs, n)|)
    decreases |fs|
  {
    if fs == [] {
      assert es + fs == es;
    } else {
      var gs, e := fs[..|fs| - 1], fs[|fs| - 1];
      Split(es, fs);
      var u := LastStep(es + gs, e, t, n);
      SamplesSnoc(gs, e, n, latency);
      SettleInRun(es, s, gs, u, n, latency);
      SettleStep(es + gs, u, gs, e, t, n, s.fleet[n].avegLatency, latency);
    }
  }

  lemma {:induction false} SettleSnoc(avg: int, latency: int, k: nat)
    ensures Settle(avg, latency, k + 1) == Average(Settle(avg, latency, k), latency)
    decreases k
  {
    if k > 0 {
      SettleSnoc(Average(avg, latency), latency, k - 1);
    }
  }

  /** Enough reports of one latency bring the average of a running worker to rest. */
  lemma ConstantLatencySettles(es: seq<Event>, s: State, fs: seq<Event>, t: State, n: string, latency: int)
    requires Exec(es) == Some(s) && Exec(es + fs) == Some(t)
    requires n in s.fleet && Remove(n) !in fs
    requires Within(Samples(fs, n), latency, latency)
    requires s.fleet[n].avegLatency >= 0 && latency >= 0
    requires |Samples(fs, n)| >= s.fleet[n].avegLatency - latency
    requires |Samples(fs, n)| >= latency - s.fleet[n].avegLatency
    ensures n in t.fleet
    ensures t.fleet[n].avegLatency == RestingPoint(s.fleet[n].avegLatency, latency)
  {
    SettleInRun(es, s, fs, t, n, latency);
    Settles(s.fleet[n].avegLatency, latency, |Samples(fs, n)|);
  }
}
