// One autoscaler tick as a relation between the state it finds and the state it leaves, and what
// follows over many ticks. Floating-point values are real numbers here.
module Autoscaler {
  import opened Config
  import opened Ledger
  import opened Sums
  import opened Wrappers

  datatype Sched = Sched(fleet: Fleet, request: int, issued: map<string, real>, last: real)

  /** What a tick computed and did. */
  datatype Report = Report(
    capacity: real,
    intensity: real,
    diff: real,
    next: real,
    added: set<string>,     // workers it asked for and got
    failed: bool,           // whether asking for one more worker failed
    shrunk: Option<string>) // the worker it took offline

  function Seconds(d: int): real {
    d as real / SECOND as real
  }

  // ----- capacity -----

  function Capacities(fleet: Fleet): map<string, real> {
    map n | n in fleet && fleet[n].online :: fleet[n].capacity
  }

  function Latencies(fleet: Fleet): map<string, int> {
    map n | n in fleet && fleet[n].online :: fleet[n].avegLatency
  }

  function Batches(fleet: Fleet): map<string, int> {
    map n | n in fleet && fleet[n].online ::
      if fleet[n].workCount > 0 then TruncDiv(fleet[n].accBatch, fleet[n].workCount) else fleet[n].maxBatch
  }

  predicate AnySaturated(fleet: Fleet) {
    exists n :: n in fleet && fleet[n].maxBatch > 0 && Saturated(fleet[n])
  }

  /** Throughput of a saturated fleet; a zero average latency, an infinity in floating point, gives 0. */
  function SaturatedCapacity(accBatch: int, accLatency: int, count: nat): real {
    if count == 0 || TruncDiv(accLatency, count) == 0 then 0.0
    else accBatch as real / Seconds(TruncDiv(accLatency, count))
  }

  ghost function CapacityOf(fleet: Fleet): real {
    if Online(fleet) == {} then 0.0
    else if !AnySaturated(fleet) then Sum(Capacities(fleet))
    else SaturatedCapacity(IntSum(Batches(fleet)), IntSum(Latencies(fleet)), |Online(fleet)|)
  }

  /** Taking one average worker away would leave more than the intensity; false when none is online. */
  predicate Spare(capacity: real, count: nat, intensity: real) {
    count > 0 && capacity - capacity / count as real > intensity
  }

  function NewWorkers(names: set<string>): Fleet {
    map n | n in names :: NewWorker()
  }

  function Credits(names: set<string>): map<string, real> {
    map n | n in names :: CAPACITY
  }

  // ----- a tick -----

  ghost predicate Measures(s: Sched, r: Report) {
    && r.capacity == CapacityOf(s.fleet)
    && r.intensity == s.request as real / Seconds(TICK_INTERVAL)
    && r.diff == (r.intensity - s.last) / Seconds(TICK_INTERVAL) * Seconds(ISSUE_LATENCY)
    && r.next == r.intensity + r.diff
  }

  /** Workers are added until the issued capacity covers the estimate, and none beyond that. */
  ghost predicate Grows(s: Sched, r: Report, t: Sched) {
    var kept := s.issued - Online(s.fleet);
    var total := r.capacity + Sum(t.issued);
    && r.added !! s.fleet.Keys
    && r.added !! kept.Keys
    && t.issued == kept + Credits(r.added)
    && t.request == 0
    && t.last == r.intensity
    && (r.failed <==> total < r.next)
    && (r.added != {} ==> total - CAPACITY < r.next)
  }

  ghost predicate Shrinks(s: Sched, r: Report, t: Sched) {
    var grown := Drained(s.fleet) + NewWorkers(r.added);
    && (r.shrunk.Some? <==>
          !r.failed && r.added == {} && r.diff <= 0.0 && Spare(r.capacity, |Online(s.fleet)|, r.intensity))
    && (r.shrunk.Some? ==> r.shrunk.value in s.fleet)
    && t.fleet == if r.shrunk.Some? then grown[r.shrunk.value := grown[r.shrunk.value].(online := false)] else grown
  }

  /** A tick takes a port for each worker it adds and, when every pod is accepted, fails only when none is left. */
  predicate Answered(r: Report, ports: nat) {
    |r.added| <= ports && (r.failed ==> |r.added| == ports)
  }

  ghost predicate Tick(s: Sched, r: Report, t: Sched) {
    Measures(s, r) && Grows(s, r, t) && Shrinks(s, r, t)
  }

  // ----- one tick -----

  /** The tick's arithmetic in numbers: a tick is a second, and a worker takes six to come online. */
  lemma EstimateInNumbers(s: Sched, r: Report, t: Sched)
    requires Tick(s, r, t)
    ensures r.intensity == s.request as real == t.last
    ensures r.diff == 6.0 * (r.intensity - s.last)
    ensures r.next == r.intensity + r.diff
  {
  }

  /** The estimate extends the line through the last two intensities by the time a worker takes to come online. */
  lemma Extrapolates(s: Sched, r: Report, p: real, q: real)
    requires Measures(s, r)
    requires r.intensity == p && s.last == p - q * Seconds(TICK_INTERVAL)
    ensures r.next == p + q * Seconds(ISSUE_LATENCY)
  {
  }

  /** A rising load is expected to rise on and never shrinks the fleet. */
  lemma RisingLoad(s: Sched, r: Report, t: Sched)
    requires Tick(s, r, t)
    requires r.intensity > s.last
    ensures r.next > r.intensity && r.shrunk == None
  {
  }

  /** A load that does not rise shrinks the fleet exactly if one worker fewer would still exceed it; nothing is added
      in that case, whatever has been issued. */
  lemma ShrinksIff(s: Sched, r: Report, t: Sched)
    requires Tick(s, r, t) && FleetLaw(s.fleet)
    requires forall n :: n in s.issued ==> s.issued[n] == CAPACITY
    ensures r.shrunk.Some? <==>
            && r.intensity <= s.last
            && Online(s.fleet) != {}
            && (|Online(s.fleet)| - 1) as real * CAPACITY > r.intensity
  {
    LawfulCapacity(s.fleet);
    SpareInWorkers(r.capacity, |Online(s.fleet)|, r.intensity);
    Trend(s, r);
    if r.intensity <= s.last && Spare(r.capacity, |Online(s.fleet)|, r.intensity) {
      NothingToAdd(s, r, t);
    }
    if Online(s.fleet) != {} {
      var n :| n in Online(s.fleet);
      assert |Online(s.fleet)| == |Online(s.fleet) - {n}| + 1;
    }
    ShrinksWhen(s, r, t);
  }

  lemma ShrinksWhen(s: Sched, r: Report, t: Sched)
    requires Shrinks(s, r, t)
    ensures r.shrunk.Some? <==>
            !r.failed && r.added == {} && r.diff <= 0.0 && Spare(r.capacity, |Online(s.fleet)|, r.intensity)
  {
  }

  lemma Trend(s: Sched, r: Report)
    requires Measures(s, r)
    ensures r.diff <= 0.0 <==> r.intensity <= s.last
    ensures r.intensity <= s.last ==> r.next <= r.intensity
  {
  }

  lemma SpareInWorkers(capacity: real, count: nat, intensity: real)
    requires capacity == count as real * CAPACITY
    ensures Spare(capacity, count, intensity) <==> count > 0 && (count - 1) as real * CAPACITY > intensity
    ensures Spare(capacity, count, intensity) ==> capacity > intensity
  {
    if count > 0 {
      ShareOf(capacity, count);
    }
  }

  /** What is online covers the estimate by itself. */
  lemma NothingToAdd(s: Sched, r: Report, t: Sched)
    requires Grows(s, r, t) && r.capacity > r.next
    requires forall n :: n in s.issued ==> s.issued[n] == CAPACITY
    ensures r.added == {} && !r.failed
  {
    KeptWorth(s);
    CreditSum(s, r, t);
    assert r.added != {} ==> |r.added| as real >= 1.0;
  }

  lemma KeptWorth(s: Sched)
    requires forall n :: n in s.issued ==> s.issued[n] == CAPACITY
    ensures Sum(s.issued - Online(s.fleet)) >= 0.0
  {
    var kept := s.issued - Online(s.fleet);
    assert kept == Credits(kept.Keys);
    SumOfCredits(kept.Keys);
  }

  /** A saturated fleet serves its batches in its mean latency, counted in nanoseconds. */
  lemma SaturatedThroughput(accBatch: int, accLatency: int, count: nat)
    requires count > 0 && TruncDiv(accLatency, count) != 0
    ensures SaturatedCapacity(accBatch, accLatency, count) * (TruncDiv(accLatency, count) as real) ==
            accBatch as real * 1_000_000_000.0
  {
    var mean := TruncDiv(accLatency, count) as real;
    assert (accBatch as real / (mean / 1_000_000_000.0)) * mean == accBatch as real * 1_000_000_000.0;
  }

  /** A worker counts with its mean batch, and with its maximum if it had none. */
  lemma BatchOfWorker(fleet: Fleet, n: string, b: int)
    requires n in fleet && fleet[n].online
    ensures fleet[n].workCount > 0 && b >= 0 && fleet[n].accBatch == b * fleet[n].workCount ==> Batches(fleet)[n] == b
    ensures fleet[n].workCount == 0 ==> Batches(fleet)[n] == fleet[n].maxBatch
    ensures Latencies(fleet)[n] == fleet[n].avegLatency && Capacities(fleet)[n] == fleet[n].capacity
  {
    if fleet[n].workCount > 0 && b >= 0 && fleet[n].accBatch == b * fleet[n].workCount {
      ExactMean(b, fleet[n].workCount);
    }
  }

  lemma ExactMean(b: nat, count: int)
    requires count > 0
    ensures TruncDiv(b * count, count) == b
  {
    var q := b * count / count;
    assert q * count <= b * count < (q + 1) * count;
    assert q == b;
  }

  /** Unsaturated capacity counts the online workers. */
  lemma LawfulCapacity(fleet: Fleet)
    requires FleetLaw(fleet)
    ensures !AnySaturated(fleet)
    ensures CapacityOf(fleet) == Sum(Capacities(fleet)) == |Online(fleet)| as real * CAPACITY
  {
    forall n | n in fleet ensures !Saturated(fleet[n]) {
      LawfulNotSaturated(fleet[n]);
    }
    assert Capacities(fleet).Keys == Online(fleet);
    SumConstant(Capacities(fleet), CAPACITY);
    KeyCount(Capacities(fleet));
    TimesIsProduct(|Online(fleet)|, CAPACITY);
  }

  lemma KeyCount(m: map<string, real>)
    ensures |m| == |m.Keys|
  {
  }

  lemma SumOfCredits(names: set<string>)
    ensures Sum(Credits(names)) == |names| as real * CAPACITY
  {
    SumConstant(Credits(names), CAPACITY);
    TimesIsProduct(|names|, CAPACITY);
    assert Credits(names).Keys == names;
    KeyCount(Credits(names));
  }

  /** Issued capacity counts every worker that is online or still awaited exactly once. */
  lemma CountedOnce(s: Sched, r: Report, t: Sched)
    requires Tick(s, r, t)
    requires FleetLaw(s.fleet)
    requires forall n :: n in s.issued ==> s.issued[n] == CAPACITY
    ensures t.issued.Keys !! Online(s.fleet)
    ensures r.capacity + Sum(t.issued) == |Online(s.fleet) + t.issued.Keys| as real * CAPACITY
  {
    LawfulCapacity(s.fleet);
    CountedFrom(s, r, t);
  }

  lemma CountedFrom(s: Sched, r: Report, t: Sched)
    requires Grows(s, r, t)
    requires forall n :: n in s.issued ==> s.issued[n] == CAPACITY
    requires r.capacity == |Online(s.fleet)| as real * CAPACITY
    ensures t.issued.Keys !! Online(s.fleet)
    ensures r.capacity + Sum(t.issued) == |Online(s.fleet) + t.issued.Keys| as real * CAPACITY
  {
    IssuedAfter(s, r, t);
    SumOfCredits(t.issued.Keys);
    UnionCount(Online(s.fleet), t.issued.Keys);
  }

  lemma UnionCount(x: set<string>, y: set<string>)
    requires x !! y
    ensures |x + y| as real * CAPACITY == |x| as real * CAPACITY + |y| as real * CAPACITY
  {
  }

  lemma IssuedAfter(s: Sched, r: Report, t: Sched)
    requires Grows(s, r, t)
    requires forall n :: n in s.issued ==> s.issued[n] == CAPACITY
    ensures t.issued.Keys == (s.issued.Keys - Online(s.fleet)) + r.added
    ensures t.issued.Keys !! Online(s.fleet)
    ensures t.issued == Credits(t.issued.Keys)
  {
  }

  lemma CreditSum(s: Sched, r: Report, t: Sched)
    requires Grows(s, r, t)
    ensures Sum(t.issued) == Sum(s.issued - Online(s.fleet)) + |r.added| as real * CAPACITY
  {
    SumUnion(s.issued - Online(s.fleet), Credits(r.added));
    SumOfCredits(r.added);
  }

  /** A tick that does not fail adds exactly as many workers as the estimate calls for. */
  lemma AddsExactly(s: Sched, r: Report, t: Sched, k: nat)
    requires Tick(s, r, t)
    requires !r.failed
    ensures r.capacity + Sum(s.issued - Online(s.fleet)) + k as real * CAPACITY >= r.next <==> k >= |r.added|
  {
    CreditSum(s, r, t);
    if r.added != {} && k < |r.added| {
      assert (k + 1) as real <= |r.added| as real;
    }
  }

  lemma OnlineAfterShrink(s: Sched, r: Report, t: Sched)
    requires r.added !! s.fleet.Keys
    requires Shrinks(s, r, t)
    ensures Online(t.fleet) == Online(s.fleet) - (if r.shrunk.Some? then {r.shrunk.value} else {})
    ensures forall n :: n in Online(t.fleet) ==>
              n in s.fleet && n in t.fleet && t.fleet[n].capacity == s.fleet[n].capacity
  {
  }

  lemma ShareOf(capacity: real, count: nat)
    requires count > 0
    requires capacity == count as real * CAPACITY
    ensures capacity / count as real == CAPACITY
  {
  }

  /** A tick never takes the last online worker, and what stays online exceeds the present load. */
  lemma ShrinkSafety(s: Sched, r: Report, t: Sched)
    requires Tick(s, r, t)
    requires FleetLaw(s.fleet)
    requires s.request >= 0
    ensures r.added == {} || r.shrunk == None
    ensures Online(s.fleet) != {} ==> Online(t.fleet) != {}
    ensures r.shrunk.Some? ==> Sum(Capacities(t.fleet)) > r.intensity >= r.next
    ensures r.shrunk.Some? ==> |Online(s.fleet)| >= 2
  {
    OnlineAfterShrink(s, r, t);
    if r.shrunk.Some? {
      assert r.intensity >= 0.0;
      SpareMeansTwo(s.fleet, r.capacity, r.intensity);
      RemainingCapacity(s.fleet, t.fleet, r.shrunk.value);
    }
  }

  lemma SpareMeansTwo(fleet: Fleet, capacity: real, intensity: real)
    requires FleetLaw(fleet) && capacity == CapacityOf(fleet)
    requires Spare(capacity, |Online(fleet)|, intensity)
    requires intensity >= 0.0
    ensures |Online(fleet)| >= 2
    ensures (|Online(fleet)| - 1) as real * CAPACITY > intensity
  {
    LawfulCapacity(fleet);
    ShareOf(capacity, |Online(fleet)|);
  }

  lemma RemainingCapacity(fleet: Fleet, after: Fleet, n: string)
    requires FleetLaw(fleet)
    requires Online(after) == Online(fleet) - {n}
    requires forall k :: k in Online(after) ==> k in after && after[k].capacity == CAPACITY
    requires |Online(fleet)| >= 2
    ensures Sum(Capacities(after)) >= (|Online(fleet)| - 1) as real * CAPACITY
    ensures Online(after) != {}
  {
    SizeAfterRemoval(Online(fleet), n);
    assert Capacities(after) == Credits(Online(after));
    SumOfCredits(Online(after));
  }

  lemma SizeAfterRemoval(x: set<string>, n: string)
    ensures |x - {n}| >= |x| - 1
  {
  }
}
