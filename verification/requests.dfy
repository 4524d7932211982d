// Accepting requests in batches and rewriting the one that is sent on.
module Requests {
  import opened Config
  import opened Wrappers
  import Text

  // ----- rewriting -----

  /** A client's request, rewritten in place before it is sent on. */
  class Request {
    var input: string

    constructor (input: string)
      ensures this.input == input
    {
      this.input := input;
    }
  }

  /** The input with its last field replaced by the batch size. There is a last field to replace. */
  function Rewritten(input: string, batch: nat): string
    requires Text.Fields(input) != []
  {
    var args := Text.Fields(input);
    Text.Spaced(args[|args| - 1 := Text.Itoa(batch)])
  }

  method AdjustRequest(req: Request, batch: nat)
    requires Text.Fields(req.input) != []
    modifies req
    ensures req.input == Rewritten(old(req.input), batch)
  {
    var args := Text.Fields(req.input);
    args := args[|args| - 1 := Text.Itoa(batch)];
    req.input := "";
    for i := 0 to |args|
      invariant req.input == Text.Spaced(args[..i])
    {
      assert args[..i + 1] == args[..i] + [args[i]];
      Text.SpacedSnoc(args[..i], args[i]);
      req.input := req.input + (args[i] + " ");
    }
    assert args[..|args|] == args;
  }

  lemma NumeralIsField(batch: nat)
    ensures Text.IsField(Text.Itoa(batch))
  {
  }

  /** Splitting the rewritten text gives the original fields with the last one replaced. */
  lemma RewrittenFields(input: string, batch: nat)
    requires Text.Fields(input) != []
    ensures var args := Text.Fields(input);
            Text.Fields(Rewritten(input, batch)) == args[|args| - 1 := Text.Itoa(batch)]
    ensures Text.Count(' ', Rewritten(input, batch)) == |Text.Fields(input)|
    ensures forall c :: c in Rewritten(input, batch) ==> c == ' ' || !Text.IsSpace(c)
  {
    var args := Text.Fields(input);
    Text.FieldsMeaning(input);
    NumeralIsField(batch);
    var out := args[|args| - 1 := Text.Itoa(batch)];
    forall w | w in out ensures Text.IsField(w) {
      assert w in args || w == Text.Itoa(batch);
    }
    Text.FieldsOfSpaced(out);
    Text.SpacedBlanks(out);
  }

  /** A second rewrite overrides the first. */
  lemma RewriteOverrides(input: string, batch: nat, batch': nat)
    requires Text.Fields(input) != []
    ensures Text.Fields(Rewritten(input, batch)) != []
    ensures Rewritten(Rewritten(input, batch), batch') == Rewritten(input, batch')
  {
    RewrittenFields(input, batch);
    var args := Text.Fields(input);
    var last := |args| - 1;
    assert args[last := Text.Itoa(batch)][last := Text.Itoa(batch')] == args[last := Text.Itoa(batch')];
  }

  /** The client reads the third field of a request. */
  function ClientReads(input: string): Option<int>
    requires |Text.Fields(input)| >= 3
  {
    Text.Atoi(Text.Fields(input)[2])
  }

  /** The client reads the size of every possible batch exactly if the third field is the last; the sizes are then
      all within what it accepts. */
  lemma ClientReadsBatch(input: string)
    requires |Text.Fields(input)| >= 3
    ensures forall batch: nat :: |Text.Fields(Rewritten(input, batch))| == |Text.Fields(input)|
    ensures (forall batch: nat :: 1 <= batch <= BATCH ==> ClientReads(Rewritten(input, batch)) == Some(batch))
       <==> |Text.Fields(input)| == 3
    ensures BATCH <= CLIENT_MAX_BATCH
  {
    forall batch: nat
      ensures Text.Fields(Rewritten(input, batch)) == Text.Fields(input)[|Text.Fields(input)| - 1 := Text.Itoa(batch)]
      ensures Text.Itoa(batch) != "" && (batch <= BATCH ==> Text.Atoi(Text.Itoa(batch)) == Some(batch))
    {
      RewrittenFields(input, batch);
      Text.NumeralRoundTrip(batch);
    }
    if |Text.Fields(input)| > 3 {
      assert ClientReads(Rewritten(input, 1)) == ClientReads(Rewritten(input, 2));
    }
  }

  // ----- batching -----

  /** What one turn of the accept loop meets. */
  datatype Accepted<T> = Parsed(request: T) | Malformed | Failed | Timeout

  /** The requests among what was accepted, in order. */
  function Parseds<T>(xs: seq<Accepted<T>>): seq<T> {
    if xs == [] then []
    else (if xs[0].Parsed? then [xs[0].request] else []) + Parseds(xs[1..])
  }

  lemma {:induction false} ParsedsSplit<T>(xs: seq<Accepted<T>>, ys: seq<Accepted<T>>)
    ensures Parseds(xs + ys) == Parseds(xs) + Parseds(ys)
  {
    if xs == [] {
      assert xs + ys == ys;
    } else {
      var head := if xs[0].Parsed? then [xs[0].request] else [];
      ParsedsSplit(xs[1..], ys);
      assert (xs + ys)[0] == xs[0] && (xs + ys)[1..] == xs[1..] + ys;
      assert head + (Parseds(xs[1..]) + Parseds(ys)) == (head + Parseds(xs[1..])) + Parseds(ys);
    }
  }

  lemma ParsedsOne<T>(x: Accepted<T>)
    ensures Parseds([x]) == if x.Parsed? then [x.request] else []
  {
  }

  function Flatten<T>(bs: seq<seq<T>>): seq<T> {
    if bs == [] then [] else Flatten(bs[..|bs| - 1]) + bs[|bs| - 1]
  }

  lemma FlattenSnoc<T>(bs: seq<seq<T>>, b: seq<T>)
    ensures Flatten(bs + [b]) == Flatten(bs) + b
  {
  }

  /** One round of the accept loop: at most BATCH turns, ended early by a timeout. used turns are consumed. */
  method CollectBatch<T>(incoming: seq<Accepted<T>>) returns (batch: seq<T>, used: nat)
    ensures used <= |incoming| && used <= BATCH
    ensures incoming != [] ==> used > 0
    ensures batch == Parseds(incoming[..used])
    ensures |batch| <= BATCH
    ensures used < BATCH && used < |incoming| ==> incoming[used - 1].Timeout?
    ensures forall i :: 0 <= i < used - 1 ==> !incoming[i].Timeout?
  {
    batch, used := [], 0;
    for i := 0 to BATCH
      invariant used == i <= |incoming|
      invariant batch == Parseds(incoming[..used])
      invariant |batch| <= used
      invariant forall j :: 0 <= j < used ==> !incoming[j].Timeout?
    {
      if used == |incoming| {
        return;
      }
      var next := incoming[used];
      assert incoming[..used + 1] == incoming[..used] + [next];
      ParsedsSplit(incoming[..used], [next]);
      ParsedsOne(next);
      used := used + 1;
      if next.Timeout? {
        return;
      }
      if next.Parsed? {
        batch := batch + [next.request];
      }
    }
  }

  /** One round of the accept loop takes the turns from i to k. */
  predicate IsRound<T>(incoming: seq<Accepted<T>>, i: int, k: int) {
    && 0 <= i < k <= |incoming|
    && k - i <= BATCH
    && (forall j :: i <= j < k - 1 ==> !incoming[j].Timeout?)
    && (k - i == BATCH || k == |incoming| || incoming[k - 1].Timeout?)
  }

  /** The rounds end at cuts[1], cuts[2], .. and the first begins at cuts[0]. */
  ghost predicate Rounds<T>(incoming: seq<Accepted<T>>, cuts: seq<nat>) {
    && cuts != [] && cuts[0] == 0
    && forall r :: 0 < r < |cuts| ==> IsRound(incoming, cuts[r - 1], cuts[r])
  }

  /** What the rounds hand on: the requests of each, unless there are none. */
  function HandedOn<T>(incoming: seq<Accepted<T>>, cuts: seq<nat>): seq<seq<T>> {
    if |cuts| < 2 then []
    else
      var i, k := cuts[|cuts| - 2], cuts[|cuts| - 1];
      HandedOn(incoming, cuts[..|cuts| - 1]) +
      (if 0 <= i <= k <= |incoming| && Parseds(incoming[i..k]) != [] then [Parseds(incoming[i..k])] else [])
  }

  lemma RoundsSnoc<T>(incoming: seq<Accepted<T>>, cuts: seq<nat>, k: nat)
    requires Rounds(incoming, cuts) && IsRound(incoming, cuts[|cuts| - 1], k)
    ensures Rounds(incoming, cuts + [k])
    ensures var batch := Parseds(incoming[cuts[|cuts| - 1]..k]);
            HandedOn(incoming, cuts + [k]) == HandedOn(incoming, cuts) + if batch != [] then [batch] else []
  {
    assert (cuts + [k])[..|cuts + [k]| - 1] == cuts;
  }

  /** Where one round ends, seen from the whole stream. */
  lemma RoundAt<T>(incoming: seq<Accepted<T>>, i: nat, used: nat)
    requires i < |incoming| && 0 < used <= |incoming| - i && used <= BATCH
    requires forall j :: 0 <= j < used - 1 ==> !incoming[i..][j].Timeout?
    requires used < BATCH && used < |incoming[i..]| ==> incoming[i..][used - 1].Timeout?
    ensures IsRound(incoming, i, i + used)
    ensures incoming[i..][..used] == incoming[i..i + used]
  {
    forall j | i <= j < i + used - 1 ensures !incoming[j].Timeout? {
      assert incoming[j] == incoming[i..][j - i];
    }
  }

  /** What the loop has handed on of the first turns. */
  ghost predicate Served<T>(incoming: seq<Accepted<T>>, done: nat, batches: seq<seq<T>>, accept: nat)
    requires done <= |incoming|
  {
    && Flatten(batches) == Parseds(incoming[..done])
    && (forall b :: b in batches ==> 1 <= |b| <= BATCH)
    && accept == |Parseds(incoming[..done])|
  }

  lemma ParsedUpTo<T>(incoming: seq<Accepted<T>>, done: nat, k: nat)
    requires done <= k <= |incoming|
    ensures Parseds(incoming[..k]) == Parseds(incoming[..done]) + Parseds(incoming[done..k])
  {
    assert incoming[..k] == incoming[..done] + incoming[done..k];
    ParsedsSplit(incoming[..done], incoming[done..k]);
  }

  lemma ServedOn<T>(incoming: seq<Accepted<T>>, done: nat, batches: seq<seq<T>>, accept: nat, k: nat, batch: seq<T>)
    requires done <= k <= |incoming| && Served(incoming, done, batches, accept)
    requires batch == Parseds(incoming[done..k]) && |batch| <= BATCH
    ensures Served(incoming, k, if batch != [] then batches + [batch] else batches, accept + |batch|)
  {
    ParsedUpTo(incoming, done, k);
    FlattenSnoc(batches, batch);
  }

  /** batches is what the rounds up to done hand on. */
  ghost predicate CutAt<T>(incoming: seq<Accepted<T>>, cuts: seq<nat>, done: nat, batches: seq<seq<T>>) {
    Rounds(incoming, cuts) && cuts[|cuts| - 1] == done && batches == HandedOn(incoming, cuts)
  }

  lemma CutOn<T>(incoming: seq<Accepted<T>>, cuts: seq<nat>, done: nat, batches: seq<seq<T>>, k: nat, batch: seq<T>)
    requires CutAt(incoming, cuts, done, batches) && IsRound(incoming, done, k)
    requires batch == Parseds(incoming[done..k])
    ensures CutAt(incoming, cuts + [k], k, if batch != [] then batches + [batch] else batches)
  {
    RoundsSnoc(incoming, cuts, k);
  }

  /** One round, and the hand-over of its batch if there is one. */
  method ServeRound<T>(incoming: seq<Accepted<T>>, done: nat, batches: seq<seq<T>>, accept: nat, ghost cuts: seq<nat>)
      returns (done': nat, batches': seq<seq<T>>, accept': nat)
    requires done < |incoming|
    requires CutAt(incoming, cuts, done, batches) && Served(incoming, done, batches, accept)
    ensures done < done' <= |incoming|
    ensures CutAt(incoming, cuts + [done'], done', batches') && Served(incoming, done', batches', accept')
  {
    var batch, used := CollectBatch(incoming[done..]);
    RoundAt(incoming, done, used);
    done', accept' := done + used, accept + |batch|;
    CutOn(incoming, cuts, done, batches, done', batch);
    ServedOn(incoming, done, batches, accept, done', batch);
    batches' := if |batch| > 0 then batches + [batch] else batches;
  }

  /** The accept loop over a whole stream: every parsed request is handed on once, in order, in a batch of a size
      between 1 and BATCH. The batches are the non-empty rounds, and these are cut only where BATCH turns are full, at a
      timeout, or at the end. */
  method Serve<T>(incoming: seq<Accepted<T>>) returns (batches: seq<seq<T>>, accept: nat, ghost cuts: seq<nat>)
    ensures Rounds(incoming, cuts) && cuts[|cuts| - 1] == |incoming|
    ensures batches == HandedOn(incoming, cuts)
    ensures Flatten(batches) == Parseds(incoming)
    ensures forall b :: b in batches ==> 1 <= |b| <= BATCH
    ensures accept == |Parseds(incoming)|
  {
    batches, accept, cuts := [], 0, [0];
    var done := 0;
    assert incoming[..0] == [];
    while done < |incoming|
      invariant done <= |incoming|
      invariant CutAt(incoming, cuts, done, batches) && Served(incoming, done, batches, accept)
    {
      done, batches, accept := ServeRound(incoming, done, batches, accept, cuts);
      cuts := cuts + [done];
    }
    assert incoming[..done] == incoming;
  }
}
