// Dispatch calls taken one at a time over a fixed set of online workers.
module Fairness {
  import opened Ledger
  import opened Wrappers

  /** What one complete call of distributeWorker does, whichever worker the map order offers. */
  ghost predicate Dispatched(before: Fleet, after: Fleet, batch: int, picked: Option<string>) {
    if exists n :: n in before && Pickable(before[n]) then TookFrom(before, after, batch, picked)
    else if Online(before) != {} then TookFrom(Flushed(before), after, batch, picked)
    else picked == None && after == before
  }

  ghost predicate TookFrom(fleet: Fleet, after: Fleet, batch: int, picked: Option<string>) {
    && picked.Some?
    && picked.value in fleet
    && Pickable(fleet[picked.value])
    && after == fleet[picked.value := Picked(fleet[picked.value], batch)]
  }

  /** Between two calls anything may happen that leaves the online set and the weights alone. */
  ghost predicate SameWeights(f: Fleet, g: Fleet) {
    && f.Keys == g.Keys
    && forall n :: n in f ==>
         f[n].online == g[n].online && f[n].weight == g[n].weight && f[n].maxWeight == g[n].maxWeight
  }

  ghost predicate FullWeights(f: Fleet) {
    forall n :: n in f && f[n].online ==> f[n].weight == f[n].maxWeight > 0
  }

  /** Call i takes fs[i] to gs[i] and picks ps[i]. */
  ghost predicate Calls(fs: seq<Fleet>, gs: seq<Fleet>, ps: seq<string>) {
    && |fs| == |ps| + 1
    && |gs| == |ps|
    && forall i :: 0 <= i < |ps| ==> Call(fs[i], gs[i], ps[i], fs[i + 1])
  }

  ghost predicate Call(f: Fleet, g: Fleet, p: string, next: Fleet) {
    && (exists batch: int :: Dispatched(f, g, batch, Some(p)))
    && SameWeights(g, next)
  }

  /** Every online worker has been refilled the same number of times, r. */
  ghost predicate EvenLaw(f: Fleet, g: Fleet, picks: multiset<string>, r: nat) {
    && Online(g) == Online(f)
    && forall n :: n in Online(f) ==> n in f && n in g && EvenWorker(f[n], g[n], picks[n], r)
  }

  ghost predicate EvenWorker(start: Worker, now: Worker, picks: nat, r: nat) {
    && now.maxWeight == start.maxWeight > 0
    && picks + now.weight == now.maxWeight * (1 + r)
    && 0 <= now.weight <= now.maxWeight
  }

  lemma TookStep(f: Fleet, g: Fleet, h: Fleet, picks: multiset<string>, r: nat, batch: int, n: string)
    requires EvenLaw(f, g, picks, r)
    requires TookFrom(g, h, batch, Some(n))
    ensures EvenLaw(f, h, picks + multiset{n}, r)
  {
  }

  lemma FlushStep(f: Fleet, g: Fleet, picks: multiset<string>, r: nat)
    requires EvenLaw(f, g, picks, r)
    requires forall n :: n in g ==> !Pickable(g[n])
    ensures EvenLaw(f, Flushed(g), picks, r + 1)
  {
  }

  lemma SameStep(f: Fleet, g: Fleet, h: Fleet, picks: multiset<string>, r: nat)
    requires EvenLaw(f, g, picks, r)
    requires SameWeights(g, h)
    ensures EvenLaw(f, h, picks, r)
  {
  }

  lemma CallStep(f: Fleet, g: Fleet, h: Fleet, p: string, next: Fleet, picks: multiset<string>, r: nat)
      returns (r': nat)
    requires EvenLaw(f, g, picks, r)
    requires Call(g, h, p, next)
    ensures EvenLaw(f, next, picks + multiset{p}, r')
  {
    var batch: int :| Dispatched(g, h, batch, Some(p));
    if exists n :: n in g && Pickable(g[n]) {
      r' := r;
      TookStep(f, g, h, picks, r', batch, p);
    } else {
      FlushStep(f, g, picks, r);
      r' := r + 1;
      TookStep(f, Flushed(g), h, picks, r', batch, p);
    }
    SameStep(f, h, next, picks + multiset{p}, r');
  }

  lemma {:induction false} Even(fs: seq<Fleet>, gs: seq<Fleet>, ps: seq<string>) returns (r: nat)
    requires Calls(fs, gs, ps)
    requires FullWeights(fs[0])
    ensures EvenLaw(fs[0], fs[|ps|], multiset(ps), r)
    decreases |ps|
  {
    if ps == [] {
      r := 0;
    } else {
      var k := |ps| - 1;
      r := Even(fs[..k + 1], gs[..k], ps[..k]);
      assert Call(fs[k], gs[k], ps[k], fs[k + 1]);
      r := CallStep(fs[0], fs[k], gs[k], ps[k], fs[k + 1], multiset(ps[..k]), r);
      assert ps == ps[..k] + [ps[k]];
    }
  }

  /** Workers of equal weight share the calls: their pick counts never differ by more than that weight. */
  lemma FairShare(fs: seq<Fleet>, gs: seq<Fleet>, ps: seq<string>, a: string, b: string)
    requires Calls(fs, gs, ps)
    requires FullWeights(fs[0])
    requires a in Online(fs[0]) && b in Online(fs[0])
    requires fs[0][a].maxWeight == fs[0][b].maxWeight
    ensures multiset(ps)[a] - multiset(ps)[b] <= fs[0][a].maxWeight
    ensures multiset(ps)[b] - multiset(ps)[a] <= fs[0][a].maxWeight
  {
    var r := Even(fs, gs, ps);
    var last := fs[|ps|];
    assert EvenWorker(fs[0][a], last[a], multiset(ps)[a], r);
    assert EvenWorker(fs[0][b], last[b], multiset(ps)[b], r);
  }

  /** Over whole rounds the share is exact: once every online worker is out of weight, picks are equal. */
  lemma ExactShare(fs: seq<Fleet>, gs: seq<Fleet>, ps: seq<string>, a: string, b: string)
    requires Calls(fs, gs, ps)
    requires FullWeights(fs[0])
    requires a in Online(fs[0]) && b in Online(fs[0])
    requires fs[0][a].maxWeight == fs[0][b].maxWeight
    requires forall n :: n in fs[|ps|] ==> !Pickable(fs[|ps|][n])
    ensures multiset(ps)[a] == multiset(ps)[b]
  {
    var r := Even(fs, gs, ps);
    var last := fs[|ps|];
    assert EvenWorker(fs[0][a], last[a], multiset(ps)[a], r);
    assert EvenWorker(fs[0][b], last[b], multiset(ps)[b], r);
  }

  /** A call taken alone fails exactly when no worker is online. */
  lemma FailsOnlyWhenNothingIsOnline(before: Fleet, after: Fleet, batch: int, picked: Option<string>)
    requires Dispatched(before, after, batch, picked)
    ensures picked == None <==> Online(before) == {}
  {
    if n :| n in before && Pickable(before[n]) {
      assert n in Online(before);
    }
  }
}
