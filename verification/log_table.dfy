// The table the parser makes of a log: its columns, and one row for each end mark.
module LogTable {
  import opened RecordLog
  import opened Wrappers

  // ----- what the columns mean -----

  /** The keys of the common, or of the private, entries in order. */
  function Keys(log: seq<Entry>, private: bool): seq<string> {
    if log == [] then []
    else
      var e := log[|log| - 1];
      Keys(log[..|log| - 1], private) +
      (if !e.End? && e.Private? == private then [e.key] else [])
  }

  /** Where k first stands in s, or the length of s. */
  function FirstIndex(s: seq<string>, k: string): nat {
    if s == [] || s[0] == k then 0 else 1 + FirstIndex(s[1..], k)
  }

  ghost predicate Distinct(ks: seq<string>) {
    forall i, j :: 0 <= i < j < |ks| ==> ks[i] != ks[j]
  }

  /** The different keys of s, by first appearance. */
  ghost predicate ByAppearance(ks: seq<string>, s: seq<string>) {
    && Distinct(ks)
    && (forall k :: k in ks <==> k in s)
    && (forall i, j :: 0 <= i < j < |ks| ==> FirstIndex(s, ks[i]) < FirstIndex(s, ks[j]))
  }

  /** More frequent keys come first; equally frequent ones by first appearance. */
  predicate Outranks(s: seq<string>, a: string, b: string) {
    multiset(s)[a] > multiset(s)[b]
    || (multiset(s)[a] == multiset(s)[b] && FirstIndex(s, a) < FirstIndex(s, b))
  }

  ghost predicate ByFrequency(ks: seq<string>, s: seq<string>) {
    && Distinct(ks)
    && (forall k :: k in ks <==> k in s)
    && (forall i, j :: 0 <= i < j < |ks| ==> Outranks(s, ks[i], ks[j]))
  }

  // ----- what the rows mean -----

  /** The latest common value of k, or the empty string. */
  function LatestCommon(log: seq<Entry>, k: string): string {
    if log == [] then ""
    else
      var e := log[|log| - 1];
      if e.Common? && e.key == k then e.value else LatestCommon(log[..|log| - 1], k)
  }

  /** The latest private value of k since the last end mark, or the empty string. */
  function LatestPrivate(log: seq<Entry>, k: string): string {
    if log == [] || log[|log| - 1].End? then ""
    else
      var e := log[|log| - 1];
      if e.Private? && e.key == k then e.value else LatestPrivate(log[..|log| - 1], k)
  }

  function Defaults(log: seq<Entry>, cs: seq<string>, ps: seq<string>): seq<string> {
    seq(|cs| + |ps|, i requires 0 <= i < |cs| + |ps| => if i < |cs| then LatestCommon(log, cs[i]) else "")
  }

  function Row(log: seq<Entry>, cs: seq<string>, ps: seq<string>): seq<string> {
    seq(|cs| + |ps|, i requires 0 <= i < |cs| + |ps| =>
      if i < |cs| then LatestCommon(log, cs[i]) else LatestPrivate(log, ps[i - |cs|]))
  }

  /** One row for each end mark, about what stands before it. */
  function Rows(log: seq<Entry>, cs: seq<string>, ps: seq<string>): seq<seq<string>> {
    if log == [] then []
    else
      var before := log[..|log| - 1];
      Rows(before, cs, ps) + (if log[|log| - 1].End? then [Row(before, cs, ps)] else [])
  }

  function Ends(log: seq<Entry>): nat {
    if log == [] then 0 else Ends(log[..|log| - 1]) + if log[|log| - 1].End? then 1 else 0
  }

  /** Row r is about the log before end mark number r; there are as many rows as end marks. */
  lemma {:induction false} RowOfEnd(log: seq<Entry>, cs: seq<string>, ps: seq<string>, e: nat)
    requires e < |log| && log[e].End?
    ensures |Rows(log, cs, ps)| == Ends(log)
    ensures Ends(log[..e]) < Ends(log)
    ensures Rows(log, cs, ps)[Ends(log[..e])] == Row(log[..e], cs, ps)
  {
    var before := log[..|log| - 1];
    RowCount(before, cs, ps);
    if e < |log| - 1 {
      RowOfEnd(before, cs, ps, e);
      assert before[..e] == log[..e];
    } else {
      assert log[..e] == before;
    }
  }

  lemma {:induction false} RowCount(log: seq<Entry>, cs: seq<string>, ps: seq<string>)
    ensures |Rows(log, cs, ps)| == Ends(log)
  {
    if log != [] {
      RowCount(log[..|log| - 1], cs, ps);
    }
  }

  /** The value of a common column stands in the log with no later one, or the key has not appeared. */
  lemma {:induction false} LatestCommonMeaning(log: seq<Entry>, k: string)
    ensures
      var v := LatestCommon(log, k);
      || (v == "" && forall i :: 0 <= i < |log| ==> !(log[i].Common? && log[i].key == k))
      || exists i :: 0 <= i < |log| && log[i] == Common(k, v)
           && forall j :: i < j < |log| ==> !(log[j].Common? && log[j].key == k)
  {
    if log != [] {
      var e, before := log[|log| - 1], log[..|log| - 1];
      if e.Common? && e.key == k {
        assert log[|log| - 1] == Common(k, LatestCommon(log, k));
      } else {
        LatestCommonMeaning(before, k);
        var v := LatestCommon(log, k);
        if i :| 0 <= i < |before| && before[i] == Common(k, v)
                && forall j :: i < j < |before| ==> !(before[j].Common? && before[j].key == k) {
          assert log[i] == Common(k, v);
          forall j | i < j < |log| ensures !(log[j].Common? && log[j].key == k) {
            assert j < |before| ==> before[j] == log[j];
          }
        } else {
          forall i | 0 <= i < |log| ensures !(log[i].Common? && log[i].key == k) {
            assert i < |before| ==> before[i] == log[i];
          }
        }
      }
    }
  }

  /** The same for a private column, looking back no further than the last end mark. */
  lemma {:induction false} LatestPrivateMeaning(log: seq<Entry>, k: string)
    ensures
      var v := LatestPrivate(log, k);
      || (v == "" && exists s: nat ::
            IsSince(log, s) && forall i :: s <= i < |log| ==> !(log[i].Private? && log[i].key == k))
      || exists i :: 0 <= i < |log| && log[i] == Private(k, v)
           && forall j :: i < j < |log| ==> !log[j].End? && !(log[j].Private? && log[j].key == k)
  {
    if log == [] || log[|log| - 1].End? {
      assert IsSince(log, |log|);
    } else {
      var e, before := log[|log| - 1], log[..|log| - 1];
      var v := LatestPrivate(log, k);
      if e.Private? && e.key == k {
        assert log[|log| - 1] == Private(k, v);
      } else {
        LatestPrivateMeaning(before, k);
        if i :| 0 <= i < |before| && before[i] == Private(k, v)
                && forall j :: i < j < |before| ==> !before[j].End? && !(before[j].Private? && before[j].key == k) {
          assert log[i] == Private(k, v);
          forall j | i < j < |log| ensures !log[j].End? && !(log[j].Private? && log[j].key == k) {
            assert j < |before| ==> before[j] == log[j];
          }
        } else {
          var s: nat :| IsSince(before, s)
                        && forall i :: s <= i < |before| ==> !(before[i].Private? && before[i].key == k);
          assert IsSince(log, s) by {
            forall i | s <= i < |log| ensures !log[i].End? {
              assert i < |before| ==> before[i] == log[i];
            }
            assert s > 0 ==> log[s - 1] == before[s - 1];
          }
          forall i | s <= i < |log| ensures !(log[i].Private? && log[i].key == k) {
            assert i < |before| ==> before[i] == log[i];
          }
        }
      }
    }
  }

  /** Position s is right after the last end mark, or the start. */
  ghost predicate IsSince(log: seq<Entry>, s: nat) {
    && s <= |log|
    && (s > 0 ==> log[s - 1].End?)
    && forall i :: s <= i < |log| ==> !log[i].End?
  }

  // ----- collecting the entries and their keys -----

  lemma {:induction false} FirstIndexIn(s: seq<string>, k: string)
    ensures FirstIndex(s, k) <= |s|
    ensures k in s <==> FirstIndex(s, k) < |s|
  {
    if s != [] && s[0] != k {
      FirstIndexIn(s[1..], k);
      assert k in s <==> k in s[1..];
    }
  }

  lemma {:induction false} FirstIndexSnoc(s: seq<string>, x: string, k: string)
    ensures FirstIndex(s + [x], k) == if k in s then FirstIndex(s, k) else if k == x then |s| else |s| + 1
  {
    if s == [] {
      assert s + [x] == [x] && [x][1..] == [];
    } else {
      assert (s + [x])[0] == s[0] && (s + [x])[1..] == s[1..] + [x];
      assert k in s <==> k == s[0] || k in s[1..];
      FirstIndexSnoc(s[1..], x, k);
    }
  }

  lemma AppearanceSnoc(ks: seq<string>, s: seq<string>, x: string)
    requires ByAppearance(ks, s)
    ensures ByAppearance(if x in ks then ks else ks + [x], s + [x])
  {
    forall k ensures FirstIndex(s + [x], k) == if k in s then FirstIndex(s, k) else if k == x then |s| else |s| + 1 {
      FirstIndexSnoc(s, x, k);
    }
    forall i | 0 <= i < |ks| ensures ks[i] in s && FirstIndex(s, ks[i]) < |s| {
      assert ks[i] in ks;
      FirstIndexIn(s, ks[i]);
    }
  }

  lemma KeysSnoc(log: seq<Entry>, e: Entry, private: bool)
    ensures Keys(log + [e], private) ==
            Keys(log, private) + (if !e.End? && e.Private? == private then [e.key] else [])
  {
  }

  /** The dictionaries the parser fills while it reads. */
  ghost predicate Collected(log: seq<Entry>, cs: seq<string>, ps: seq<string>, count: map<string, nat>) {
    && ByAppearance(cs, Keys(log, false))
    && ByAppearance(ps, Keys(log, true))
    && (forall k :: k in count <==> k in ps)
    && (forall k :: k in count ==> count[k] == multiset(Keys(log, true))[k])
  }

  /** Counting one more private key. */
  lemma CountSnoc(keys: seq<string>, ps: seq<string>, count: map<string, nat>, k: string)
    requires ByAppearance(ps, keys)
    requires forall x :: x in count <==> x in ps
    requires forall x :: x in count ==> count[x] == multiset(keys)[x]
    ensures
      var count' := count[k := if k in count then count[k] + 1 else 1];
      forall x :: x in count' ==> count'[x] == multiset(keys + [k])[x]
  {
  }

  /** A common key goes into its dictionary. */
  method NoteCommon(ghost log: seq<Entry>, k: string, ghost v: string, cs: seq<string>, ghost ps: seq<string>,
                    ghost count: map<string, nat>)
      returns (cs': seq<string>)
    requires Collected(log, cs, ps, count)
    ensures Collected(log + [Common(k, v)], cs', ps, count)
  {
    KeysSnoc(log, Common(k, v), false);
    KeysSnoc(log, Common(k, v), true);
    AppearanceSnoc(cs, Keys(log, false), k);
    assert Keys(log, true) + [] == Keys(log, true);
    cs' := if k in cs then cs else cs + [k];
  }

  /** A private key goes into its dictionary or is counted there. */
  method NotePrivate(ghost log: seq<Entry>, k: string, ghost v: string, ghost cs: seq<string>, ps: seq<string>,
                     count: map<string, nat>)
      returns (ps': seq<string>, count': map<string, nat>)
    requires Collected(log, cs, ps, count)
    ensures Collected(log + [Private(k, v)], cs, ps', count')
  {
    KeysSnoc(log, Private(k, v), false);
    KeysSnoc(log, Private(k, v), true);
    AppearanceSnoc(ps, Keys(log, true), k);
    CountSnoc(Keys(log, true), ps, count, k);
    assert Keys(log, false) + [] == Keys(log, false);
    if k in count {
      ps', count' := ps, count[k := count[k] + 1];
    } else {
      ps', count' := ps + [k], count[k := 1];
    }
  }

  lemma NoteEnd(log: seq<Entry>, cs: seq<string>, ps: seq<string>, count: map<string, nat>)
    requires Collected(log, cs, ps, count)
    ensures Collected(log + [End], cs, ps, count)
  {
    KeysSnoc(log, End, false);
    KeysSnoc(log, End, true);
    assert Keys(log, false) + [] == Keys(log, false);
    assert Keys(log, true) + [] == Keys(log, true);
  }

  /** One entry goes into the log and its key into its dictionary. */
  method Note(log: seq<Entry>, e: Entry, cs: seq<string>, ps: seq<string>, count: map<string, nat>)
      returns (cs': seq<string>, ps': seq<string>, count': map<string, nat>)
    requires Collected(log, cs, ps, count)
    ensures Collected(log + [e], cs', ps', count')
  {
    cs', ps', count' := cs, ps, count;
    match e {
      case Common(k, v) =>
        cs' := NoteCommon(log, k, v, cs, ps, count);
      case Private(k, v) =>
        ps', count' := NotePrivate(log, k, v, cs, ps, count);
      case End =>
        NoteEnd(log, cs, ps, count);
    }
  }

  lemma {:induction false} LinesEntriesSnoc(ls: seq<string>, l: string)
    ensures LinesEntries(ls + [l]) == LinesEntries(ls) + LineEntries(l)
  {
    EntriesSplit(ls, [l]);
    assert LinesEntries([l]) == LineEntries(l) + LinesEntries([l][1..]);
  }

  lemma NextLine(lines: seq<string>, i: nat)
    requires i < |lines|
    ensures LinesEntries(lines[..i + 1]) == LinesEntries(lines[..i]) + LineEntries(lines[i])
  {
    assert lines[..i + 1] == lines[..i] + [lines[i]];
    LinesEntriesSnoc(lines[..i], lines[i]);
  }

  /** In order, and no later than line n. */
  ghost predicate InOrder(numbers: seq<nat>, n: nat) {
    && (forall a :: 0 <= a < |numbers| ==> numbers[a] <= n)
    && forall a, b :: 0 <= a < b < |numbers| ==> numbers[a] <= numbers[b]
  }

  /** What one line has, in line number n. */
  method CollectLine(items: seq<Entry>, n: nat, log: seq<Entry>, numbers: seq<nat>, cs: seq<string>, ps: seq<string>,
                     count: map<string, nat>)
      returns (log': seq<Entry>, numbers': seq<nat>, cs': seq<string>, ps': seq<string>, count': map<string, nat>)
    requires |numbers| == |log| && InOrder(numbers, n)
    requires Collected(log, cs, ps, count)
    ensures log' == log + items
    ensures |numbers'| == |log'| && InOrder(numbers', n)
    ensures Collected(log', cs', ps', count')
  {
    log', numbers', cs', ps', count' := log, numbers, cs, ps, count;
    for j := 0 to |items|
      invariant log' == log + items[..j]
      invariant |numbers'| == |log'| && InOrder(numbers', n)
      invariant Collected(log', cs', ps', count')
    {
      cs', ps', count' := Note(log', items[j], cs', ps', count');
      log', numbers' := log' + [items[j]], numbers' + [n];
    }
  }

  /** The reading loop. numbers holds the line of each entry; it is already in order, so that sorting the
      entries by line leaves them as they are. */
  method Collect(lines: seq<string>)
      returns (log: seq<Entry>, numbers: seq<nat>, cs: seq<string>, ps: seq<string>, count: map<string, nat>)
    ensures log == LinesEntries(lines)
    ensures |numbers| == |log| && InOrder(numbers, |lines|)
    ensures Collected(log, cs, ps, count)
  {
    log, numbers, cs, ps, count := [], [], [], [], map[];
    for i := 0 to |lines|
      invariant log == LinesEntries(lines[..i])
      invariant |numbers| == |log| && InOrder(numbers, i)
      invariant Collected(log, cs, ps, count)
    {
      log, numbers, cs, ps, count := CollectLine(LineEntries(lines[i]), i + 1, log, numbers, cs, ps, count);
      NextLine(lines, i);
    }
    assert lines[..|lines|] == lines;
  }

  // ----- ordering the private columns -----

  ghost predicate Sorted(ks: seq<string>, s: seq<string>) {
    forall i, j :: 0 <= i < j < |ks| ==> Outranks(s, ks[i], ks[j])
  }

  /** Stable and by decreasing count. */
  method SortByCount(ks: seq<string>, count: map<string, nat>, ghost s: seq<string>) returns (sorted: seq<string>)
    requires ByAppearance(ks, s)
    requires forall k :: k in ks ==> k in count && count[k] == multiset(s)[k]
    ensures ByFrequency(sorted, s)
  {
    sorted := [];
    for i := 0 to |ks|
      invariant Sorted(sorted, s)
      invariant forall k :: k in sorted <==> k in ks[..i]
    {
      sorted := Insert(sorted, ks[i], count, s, ks, i);
      assert ks[..i + 1] == ks[..i] + [ks[i]];
    }
    assert ks[..|ks|] == ks;
    forall i, j | 0 <= i < j < |sorted| ensures sorted[i] != sorted[j] {
      assert Outranks(s, sorted[i], sorted[j]);
    }
  }

  /** The next key goes behind all that are at least as frequent. */
  method Insert(sorted: seq<string>, k: string, count: map<string, nat>,
                ghost s: seq<string>, ghost ks: seq<string>, ghost i: nat)
      returns (r: seq<string>)
    requires ByAppearance(ks, s) && i < |ks| && k == ks[i]
    requires forall x :: x in ks ==> x in count && count[x] == multiset(s)[x]
    requires Sorted(sorted, s)
    requires forall x :: x in sorted <==> x in ks[..i]
    ensures Sorted(r, s)
    ensures forall x :: x in r <==> x in sorted || x == k
  {
    Earlier(sorted, s, ks, i);
    var p := 0;
    while p < |sorted| && count[sorted[p]] >= count[k]
      invariant p <= |sorted|
      invariant forall j :: 0 <= j < p ==> count[sorted[j]] >= count[k]
    {
      p := p + 1;
    }
    r := sorted[..p] + [k] + sorted[p..];
    forall j | 0 <= j < p ensures Outranks(s, sorted[j], k) {
      assert sorted[j] in ks;
    }
    forall j | p <= j < |sorted| ensures Outranks(s, k, sorted[j]) {
      assert j > p ==> Outranks(s, sorted[p], sorted[j]);
      assert sorted[p] in ks && sorted[j] in ks;
    }
    Inserted(sorted, s, k, p);
    assert sorted == sorted[..p] + sorted[p..];
  }

  /** Keys already placed appeared before the next one. */
  lemma Earlier(sorted: seq<string>, s: seq<string>, ks: seq<string>, i: nat)
    requires ByAppearance(ks, s) && i < |ks|
    requires forall x :: x in sorted <==> x in ks[..i]
    ensures forall x :: x in sorted ==> x in ks && FirstIndex(s, x) < FirstIndex(s, ks[i])
  {
  }

  lemma Inserted(sorted: seq<string>, s: seq<string>, k: string, p: nat)
    requires Sorted(sorted, s) && p <= |sorted|
    requires forall j :: 0 <= j < p ==> Outranks(s, sorted[j], k)
    requires forall j :: p <= j < |sorted| ==> Outranks(s, k, sorted[j])
    ensures Sorted(sorted[..p] + [k] + sorted[p..], s)
  {
  }

  // ----- filling the rows -----

  ghost predicate AtPositions(ks: seq<string>, offset: nat, pos: map<string, nat>) {
    forall i :: 0 <= i < |ks| ==> ks[i] in pos && pos[ks[i]] == offset + i
  }

  /** Where each key has its column, counted from offset. */
  method Positions(ks: seq<string>, offset: nat) returns (pos: map<string, nat>)
    requires Distinct(ks)
    ensures AtPositions(ks, offset, pos)
  {
    pos := map[];
    for i := 0 to |ks|
      invariant forall j :: 0 <= j < i ==> ks[j] in pos && pos[ks[j]] == offset + j
    {
      pos := pos[ks[i] := offset + i];
    }
  }

  lemma {:induction false} KeyOf(log: seq<Entry>, i: nat)
    requires i < |log| && !log[i].End?
    ensures log[i].key in Keys(log, log[i].Private?)
  {
    if i < |log| - 1 {
      KeyOf(log[..|log| - 1], i);
    }
  }

  lemma LatestSnoc(log: seq<Entry>, e: Entry, k: string)
    ensures LatestCommon(log + [e], k) == if e.Common? && e.key == k then e.value else LatestCommon(log, k)
    ensures LatestPrivate(log + [e], k) ==
            if e.End? then "" else if e.Private? && e.key == k then e.value else LatestPrivate(log, k)
  {
  }

  lemma RowStart(cs: seq<string>, ps: seq<string>)
    ensures Row([], cs, ps) == Defaults([], cs, ps)
    ensures forall i :: 0 <= i < |cs| + |ps| ==> Defaults([], cs, ps)[i] == ""
  {
    forall k ensures LatestCommon([], k) == LatestPrivate([], k) == "" {
    }
    assert Row([], cs, ps) == Defaults([], cs, ps);
  }

  lemma RowCommon(log: seq<Entry>, cs: seq<string>, ps: seq<string>, j: nat, v: string)
    requires Distinct(cs) && j < |cs|
    ensures Row(log + [Common(cs[j], v)], cs, ps) == Row(log, cs, ps)[j := v]
    ensures Defaults(log + [Common(cs[j], v)], cs, ps) == Defaults(log, cs, ps)[j := v]
  {
    var e := Common(cs[j], v);
    forall i | 0 <= i < |cs| + |ps|
      ensures Row(log + [e], cs, ps)[i] == Row(log, cs, ps)[j := v][i]
      ensures Defaults(log + [e], cs, ps)[i] == Defaults(log, cs, ps)[j := v][i]
    {
      LatestSnoc(log, e, if i < |cs| then cs[i] else ps[i - |cs|]);
    }
  }

  lemma RowPrivate(log: seq<Entry>, cs: seq<string>, ps: seq<string>, j: nat, v: string)
    requires Distinct(ps) && j < |ps|
    ensures Row(log + [Private(ps[j], v)], cs, ps) == Row(log, cs, ps)[|cs| + j := v]
    ensures Defaults(log + [Private(ps[j], v)], cs, ps) == Defaults(log, cs, ps)
  {
    var e := Private(ps[j], v);
    forall i | 0 <= i < |cs| + |ps|
      ensures Row(log + [e], cs, ps)[i] == Row(log, cs, ps)[|cs| + j := v][i]
      ensures Defaults(log + [e], cs, ps)[i] == Defaults(log, cs, ps)[i]
    {
      LatestSnoc(log, e, if i < |cs| then cs[i] else ps[i - |cs|]);
    }
  }

  lemma RowEnd(log: seq<Entry>, cs: seq<string>, ps: seq<string>)
    ensures Row(log + [End], cs, ps) == Defaults(log + [End], cs, ps) == Defaults(log, cs, ps)
  {
    forall i | 0 <= i < |cs| + |ps|
      ensures Row(log + [End], cs, ps)[i] == Defaults(log + [End], cs, ps)[i] == Defaults(log, cs, ps)[i]
    {
      LatestSnoc(log, End, if i < |cs| then cs[i] else ps[i - |cs|]);
    }
  }

  lemma RowsSnoc(log: seq<Entry>, e: Entry, cs: seq<string>, ps: seq<string>)
    ensures Rows(log + [e], cs, ps) == Rows(log, cs, ps) + if e.End? then [Row(log, cs, ps)] else []
  {
  }

  /** What one entry does to the rows, the current row and the defaults. */
  method Place(e: Entry, cs: seq<string>, ps: seq<string>, commonPos: map<string, nat>, privatePos: map<string, nat>,
               rows: seq<seq<string>>, row: seq<string>, default: seq<string>, ghost log: seq<Entry>)
      returns (rows': seq<seq<string>>, row': seq<string>, default': seq<string>)
    requires Distinct(cs) && Distinct(ps)
    requires AtPositions(cs, 0, commonPos) && AtPositions(ps, |cs|, privatePos)
    requires !e.End? ==> e.key in if e.Common? then cs else ps
    requires rows == Rows(log, cs, ps) && row == Row(log, cs, ps) && default == Defaults(log, cs, ps)
    ensures rows' == Rows(log + [e], cs, ps)
    ensures row' == Row(log + [e], cs, ps)
    ensures default' == Defaults(log + [e], cs, ps)
  {
    rows', row', default' := rows, row, default;
    RowsSnoc(log, e, cs, ps);
    match e {
      case End =>
        RowEnd(log, cs, ps);
        rows' := rows + [row];
        row' := default;
      case Common(k, v) =>
        ghost var j :| 0 <= j < |cs| && cs[j] == k;
        RowCommon(log, cs, ps, j, v);
        default' := default[commonPos[k] := v];
        row' := row[commonPos[k] := v];
      case Private(k, v) =>
        ghost var j :| 0 <= j < |ps| && ps[j] == k;
        RowPrivate(log, cs, ps, j, v);
        row' := row[privatePos[k] := v];
    }
  }

  method BuildRows(log: seq<Entry>, cs: seq<string>, ps: seq<string>) returns (rows: seq<seq<string>>)
    requires Distinct(cs) && Distinct(ps)
    requires forall k :: k in Keys(log, false) ==> k in cs
    requires forall k :: k in Keys(log, true) ==> k in ps
    ensures rows == Rows(log, cs, ps)
  {
    var commonPos := Positions(cs, 0);
    var privatePos := Positions(ps, |cs|);
    var default := seq(|cs| + |ps|, i => "");
    var row := default;
    rows := [];
    RowStart(cs, ps);
    assert default == Defaults([], cs, ps);
    assert log[..0] == [];
    for i := 0 to |log|
      invariant rows == Rows(log[..i], cs, ps)
      invariant row == Row(log[..i], cs, ps)
      invariant default == Defaults(log[..i], cs, ps)
    {
      if !log[i].End? {
        KeyOf(log, i);
      }
      assert log[..i + 1] == log[..i] + [log[i]];
      rows, row, default := Place(log[i], cs, ps, commonPos, privatePos, rows, row, default, log[..i]);
    }
    assert log[..|log|] == log;
  }

  /** The whole parser: columns and rows of a text. */
  method ParseKeys(text: string) returns (fields: seq<string>, rows: seq<seq<string>>)
    ensures exists cs, ps ::
              && fields == cs + ps
              && ByAppearance(cs, Keys(Parse(text), false))
              && ByFrequency(ps, Keys(Parse(text), true))
              && rows == Rows(Parse(text), cs, ps)
  {
    var log, numbers, cs, privates, count := Collect(Lines(Newlines(text)));
    var ps := SortByCount(privates, count, Keys(log, true));
    fields := cs + ps;
    rows := BuildRows(log, cs, ps);
  }
}
