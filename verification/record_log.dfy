// The log format shared by the recorder, which prints it, and the parser, which matches it line by line.
module RecordLog {
  import opened Wrappers
  import Text

  /** One thing a log says. */
  datatype Entry = Common(key: string, value: string) | Private(key: string, value: string) | End

  // ----- printing -----

  function Print(e: Entry): string {
    match e
    case Common(k, v) => "<" + k + " : " + v + ">\n"
    case Private(k, v) => "[" + k + " : " + v + "]\n"
    case End => "%%==%%\n"
  }

  function PrintAll(es: seq<Entry>): string {
    if es == [] then "" else Print(es[0]) + PrintAll(es[1..])
  }

  lemma {:induction false} PrintSnoc(es: seq<Entry>, e: Entry)
    ensures PrintAll(es + [e]) == PrintAll(es) + Print(e)
  {
    if es == [] {
      assert es + [e] == [e] && [e][1..] == [];
    } else {
      assert (es + [e])[0] == es[0] && (es + [e])[1..] == es[1..] + [e];
      PrintSnoc(es[1..], e);
    }
  }

  lemma PrintNext(file: string, es: seq<Entry>, e: Entry)
    ensures file + PrintAll(es) + Print(e) == file + PrintAll(es + [e])
  {
    PrintSnoc(es, e);
  }

  class Recorder {
    var file: string

    /** The file is opened for appending. */
    constructor (contents: string)
      ensures file == contents
    {
      file := contents;
    }

    method AddPrivate(key: string, value: string)
      modifies this
      ensures file == old(file) + Print(Private(key, value))
    {
      file := file + ("[" + key + " : " + value + "]\n");
    }

    method AddPublic(key: string, value: string)
      modifies this
      ensures file == old(file) + Print(Common(key, value))
    {
      file := file + ("<" + key + " : " + value + ">\n");
    }

    method End()
      modifies this
      ensures file == old(file) + Print(Entry.End)
    {
      file := file + "%%==%%\n";
    }
  }

  // ----- matching: a backtracking matcher for the parser's two patterns -----

  datatype Piece =
    | Lit(c: char) // this character
    | Sep          // a colon or an equals sign
    | OptSpace     // a blank if possible
    | Word         // a group: as few characters as possible, at least one, no separator

  datatype Hit = Hit(groups: seq<string>, rest: string)

  predicate IsSep(c: char) {
    c == ':' || c == '='
  }

  predicate Accepts(p: Piece, c: char) {
    (p.Lit? && p.c == c) || (p.Sep? && IsSep(c))
  }

  /** The first match of the pieces at the start of s, in the order a backtracking matcher tries. */
  function MatchAt(ps: seq<Piece>, s: string): (r: Option<Hit>)
    ensures r.Some? ==> |r.value.rest| <= |s|
    ensures r.Some? && ps != [] && ps[0].Lit? ==> |r.value.rest| < |s|
    decreases |ps|, 1, 0
  {
    if ps == [] then Some(Hit([], s))
    else
      match ps[0]
      case OptSpace =>
        if s != "" && s[0] == ' ' && MatchAt(ps[1..], s[1..]).Some?
        then MatchAt(ps[1..], s[1..])
        else MatchAt(ps[1..], s)
      case Word => MatchWord(ps[1..], s, 1)
      case _ => if s != "" && Accepts(ps[0], s[0]) then MatchAt(ps[1..], s[1..]) else None
  }

  /** A group of at least k characters, then the pieces. */
  function MatchWord(ps: seq<Piece>, s: string, k: nat): (r: Option<Hit>)
    requires k >= 1
    ensures r.Some? ==> |r.value.rest| <= |s|
    decreases |ps|, 2, |s| - k
  {
    if k > |s| || IsSep(s[k - 1]) then None
    else
      match MatchAt(ps, s[k..])
      case Some(hit) => Some(Hit([s[..k]] + hit.groups, hit.rest))
      case None => MatchWord(ps, s, k + 1)
  }

  /** All non-overlapping matches, from left to right. */
  function FindAll(ps: seq<Piece>, s: string): seq<seq<string>>
    requires ps != [] && ps[0].Lit?
    decreases |s|
  {
    if s == "" then []
    else
      match MatchAt(ps, s)
      case Some(hit) => [hit.groups] + FindAll(ps, hit.rest)
      case None => FindAll(ps, s[1..])
  }

  function Pattern(open: char, close: char): seq<Piece> {
    [Lit(open), OptSpace, Word, OptSpace, Sep, OptSpace, Word, OptSpace, Lit(close)]
  }

  const COMMON_KEY := Pattern('<', '>')
  const PRIVATE_KEY := Pattern('[', ']')
  const END_ITEM := "%%==%%"

  predicate Contains(s: string, t: string) {
    exists i :: 0 <= i <= |s| && t <= s[i..]
  }

  // ----- what a match is -----

  /** The texts a piece stands for. */
  ghost predicate StandsFor(p: Piece, part: string) {
    match p
    case Lit(c) => part == [c]
    case Sep => part == ":" || part == "="
    case OptSpace => part == "" || part == " "
    case Word => part != "" && ':' !in part && '=' !in part
  }

  /** The parts that stand for groups. */
  function Grouped(ps: seq<Piece>, parts: seq<string>): seq<string>
    requires |ps| == |parts|
  {
    if ps == [] then [] else (if ps[0].Word? then [parts[0]] else []) + Grouped(ps[1..], parts[1..])
  }

  /** s begins with these parts, one for each piece, and this is what the match reports. */
  ghost predicate Cut(ps: seq<Piece>, s: string, parts: seq<string>, hit: Hit) {
    && |parts| == |ps|
    && (forall i :: 0 <= i < |ps| ==> StandsFor(ps[i], parts[i]))
    && s == Text.Concat(parts) + hit.rest
    && hit.groups == Grouped(ps, parts)
  }

  lemma CutCons(p: Piece, ps: seq<Piece>, part: string, s: string, parts: seq<string>, hit: Hit)
    requires StandsFor(p, part) && Cut(ps, s, parts, hit)
    ensures Cut([p] + ps, part + s, [part] + parts,
                Hit((if p.Word? then [part] else []) + hit.groups, hit.rest))
  {
    var all := [part] + parts;
    assert all[1..] == parts && ([p] + ps)[1..] == ps;
    assert part + (Text.Concat(parts) + hit.rest) == (part + Text.Concat(parts)) + hit.rest;
  }

  lemma CutTail(ps: seq<Piece>, s: string, parts: seq<string>, hit: Hit) returns (t: string, rest: Hit)
    requires ps != [] && Cut(ps, s, parts, hit)
    ensures s == parts[0] + t && rest.rest == hit.rest
    ensures Cut(ps[1..], t, parts[1..], rest)
  {
    t, rest := Text.Concat(parts[1..]) + hit.rest, Hit(Grouped(ps[1..], parts[1..]), hit.rest);
    assert s == parts[0] + t;
  }

  /** Whatever the matcher reports is a match. */
  lemma {:induction false} MatchSound(ps: seq<Piece>, s: string, hit: Hit) returns (parts: seq<string>)
    requires MatchAt(ps, s) == Some(hit)
    ensures Cut(ps, s, parts, hit)
    decreases |ps|, 1, 0
  {
    if ps == [] {
      parts := [];
    } else if ps[0].Word? {
      parts := WordSound(ps, s, 1, hit);
    } else {
      var n := if ps[0].OptSpace? && !(s != "" && s[0] == ' ' && MatchAt(ps[1..], s[1..]).Some?) then 0 else 1;
      parts := MatchSound(ps[1..], s[n..], hit);
      assert s == s[..n] + s[n..] && ps == [ps[0]] + ps[1..];
      CutCons(ps[0], ps[1..], s[..n], s[n..], parts, hit);
      assert [] + hit.groups == hit.groups;
      parts := [s[..n]] + parts;
    }
  }

  lemma {:induction false} WordSound(ps: seq<Piece>, s: string, k: nat, hit: Hit) returns (parts: seq<string>)
    requires ps != [] && ps[0].Word?
    requires 1 <= k && forall j :: 0 <= j < k - 1 && j < |s| ==> !IsSep(s[j])
    requires MatchWord(ps[1..], s, k) == Some(hit)
    ensures Cut(ps, s, parts, hit)
    decreases |ps|, 0, |s| - k
  {
    match MatchAt(ps[1..], s[k..])
    case Some(h) =>
      parts := MatchSound(ps[1..], s[k..], h);
      assert s == s[..k] + s[k..] && ps == [ps[0]] + ps[1..];
      CutCons(ps[0], ps[1..], s[..k], s[k..], parts, h);
      parts := [s[..k]] + parts;
    case None =>
      parts := WordSound(ps, s, k + 1, hit);
  }

  /** Where there is a match the matcher reports one. */
  lemma {:induction false} MatchComplete(ps: seq<Piece>, s: string, parts: seq<string>, hit: Hit)
    requires Cut(ps, s, parts, hit)
    ensures MatchAt(ps, s).Some?
    decreases |ps|, 1, 0
  {
    if ps != [] {
      var t, rest := CutTail(ps, s, parts, hit);
      assert s[|parts[0]|..] == t;
      MatchComplete(ps[1..], t, parts[1..], rest);
      if ps[0].Word? {
        assert forall j :: 0 <= j < |parts[0]| ==> s[j] == parts[0][j] && s[j] in parts[0];
        WordComplete(ps[1..], s, |parts[0]|, 1);
      }
    }
  }

  lemma {:induction false} WordComplete(ps: seq<Piece>, s: string, n: nat, k: nat)
    requires 1 <= k <= n <= |s|
    requires forall j :: 0 <= j < n ==> !IsSep(s[j])
    requires MatchAt(ps, s[n..]).Some?
    ensures MatchWord(ps, s, k).Some?
    ensures |MatchWord(ps, s, k).value.groups| > 0 && |MatchWord(ps, s, k).value.groups[0]| <= n
    decreases n - k
  {
    if k < n {
      WordComplete(ps, s, n, k + 1);
    }
  }

  predicate Blank(b: string) {
    b == "" || b == " "
  }

  /** A key and a value in brackets, with at most one blank at each side of each. */
  function Written(open: char, close: char, bs: seq<string>, sep: string, k: string, v: string): string
    requires |bs| == 4
  {
    [open] + (bs[0] + (k + (bs[1] + (sep + (bs[2] + (v + (bs[3] + [close])))))))
  }

  /** s begins with a pair in brackets, around a colon or an equals sign, and goes on with rest. */
  ghost predicate Bracketed(open: char, close: char, s: string, k: string, v: string, rest: string) {
    exists bs: seq<string>, sep :: SpacedBy(bs, sep, k, v) && s == Written(open, close, bs, sep, k, v) + rest
  }

  ghost predicate SpacedBy(bs: seq<string>, sep: string, k: string, v: string) {
    && |bs| == 4
    && (forall b :: b in bs ==> Blank(b))
    && (sep == ":" || sep == "=")
    && k != "" && v != ""
    && (forall c :: c in k + v ==> c != ':' && c != '=')
  }

  lemma ConcatCons(a: string, parts: seq<string>)
    ensures Text.Concat([a] + parts) == a + Text.Concat(parts)
  {
    assert ([a] + parts)[1..] == parts;
  }

  lemma OneByOne<T>(a: T, b: T, c: T, d: T, s: seq<T>)
    ensures [a, b, c, d] + s == [a] + ([b] + ([c] + ([d] + s)))
  {
  }

  lemma ConcatFour(a: string, b: string, c: string, d: string, parts: seq<string>)
    ensures Text.Concat([a, b, c, d] + parts) == a + (b + (c + (d + Text.Concat(parts))))
  {
    OneByOne(a, b, c, d, parts);
    ConcatCons(a, [b] + ([c] + ([d] + parts)));
    ConcatCons(b, [c] + ([d] + parts));
    ConcatCons(c, [d] + parts);
    ConcatCons(d, parts);
  }

  lemma ConcatNine(a: string, b: string, c: string, d: string, e: string, f: string, g: string, h: string, i: string)
    ensures Text.Concat([a, b, c, d, e, f, g, h, i]) == a + (b + (c + (d + (e + (f + (g + (h + i)))))))
  {
    assert [a, b, c, d, e, f, g, h, i] == [a, b, c, d] + ([e, f, g, h] + [i]);
    ConcatFour(a, b, c, d, [e, f, g, h] + [i]);
    ConcatFour(e, f, g, h, [i]);
    assert [i] == [i] + [];
    ConcatCons(i, []);
    assert i + "" == i;
  }

  lemma GroupedFrom(ps: seq<Piece>, parts: seq<string>, i: nat)
    requires i < |ps| == |parts|
    ensures Grouped(ps[i..], parts[i..]) ==
            (if ps[i].Word? then [parts[i]] else []) + Grouped(ps[i + 1..], parts[i + 1..])
  {
    assert ps[i..][1..] == ps[i + 1..] && parts[i..][1..] == parts[i + 1..];
  }

  lemma {:induction false} NoGroups(ps: seq<Piece>, parts: seq<string>, i: nat, n: nat)
    requires i <= n <= |ps| == |parts|
    requires forall j :: i <= j < n ==> !ps[j].Word?
    ensures Grouped(ps[i..], parts[i..]) == Grouped(ps[n..], parts[n..])
    decreases n - i
  {
    if i < n {
      NoGroups(ps, parts, i + 1, n);
      GroupedFrom(ps, parts, i);
    }
  }

  lemma OneGroup(ps: seq<Piece>, parts: seq<string>, i: nat, j: nat)
    requires i <= j < |ps| == |parts|
    requires forall k :: i <= k < |ps| ==> (ps[k].Word? <==> k == j)
    ensures Grouped(ps[i..], parts[i..]) == [parts[j]]
  {
    NoGroups(ps, parts, j + 1, |ps|);
    GroupedFrom(ps, parts, j);
    NoGroups(ps, parts, i, j);
  }

  lemma TwoGroups(ps: seq<Piece>, parts: seq<string>, i: nat, j: nat)
    requires i < j < |ps| == |parts|
    requires forall k :: 0 <= k < |ps| ==> (ps[k].Word? <==> k == i || k == j)
    ensures Grouped(ps[0..], parts[0..]) == [parts[i], parts[j]]
  {
    OneGroup(ps, parts, i + 1, j);
    GroupedFrom(ps, parts, i);
    NoGroups(ps, parts, 0, i);
  }

  lemma GroupedNine(open: char, close: char, parts: seq<string>)
    requires |parts| == 9
    ensures Grouped(Pattern(open, close), parts) == [parts[2], parts[6]]
  {
    TwoGroups(Pattern(open, close), parts, 2, 6);
    assert Pattern(open, close)[0..] == Pattern(open, close) && parts[0..] == parts;
  }

  lemma PartsFit(open: char, close: char, bs: seq<string>, sep: string, k: string, v: string)
    requires SpacedBy(bs, sep, k, v)
    ensures
      var ps, parts := Pattern(open, close), [[open], bs[0], k, bs[1], sep, bs[2], v, bs[3], [close]];
      forall i :: 0 <= i < |ps| ==> StandsFor(ps[i], parts[i])
  {
    assert Blank(bs[0]) && Blank(bs[1]) && Blank(bs[2]) && Blank(bs[3]);
    assert forall c :: c in k || c in v ==> c in k + v;
  }

  /** The pattern finds a pair in brackets exactly where there is one, and nothing else. */
  lemma PatternMeaning(open: char, close: char, s: string)
    ensures MatchAt(Pattern(open, close), s).Some? <==> exists k, v, rest :: Bracketed(open, close, s, k, v, rest)
    ensures MatchAt(Pattern(open, close), s).Some? ==>
              var hit := MatchAt(Pattern(open, close), s).value;
              |hit.groups| == 2 && Bracketed(open, close, s, hit.groups[0], hit.groups[1], hit.rest)
  {
    var ps := Pattern(open, close);
    if MatchAt(ps, s).Some? {
      var hit := MatchAt(ps, s).value;
      var parts := MatchSound(ps, s, hit);
      GroupedNine(open, close, parts);
      CutWritten(open, close, s, parts, hit.rest);
    }
    if k, v, rest :| Bracketed(open, close, s, k, v, rest) {
      var bs, sep :| SpacedBy(bs, sep, k, v) && s == Written(open, close, bs, sep, k, v) + rest;
      var parts := WrittenCut(open, close, s, bs, sep, k, v, rest);
      MatchComplete(ps, s, parts, Hit([k, v], rest));
    }
  }

  lemma CutWritten(open: char, close: char, s: string, parts: seq<string>, rest: string)
    requires |parts| == 9
    requires Cut(Pattern(open, close), s, parts, Hit(Grouped(Pattern(open, close), parts), rest))
    ensures Bracketed(open, close, s, parts[2], parts[6], rest)
  {
    var ps, bs := Pattern(open, close), [parts[1], parts[3], parts[5], parts[7]];
    assert StandsFor(ps[0], parts[0]) && StandsFor(ps[1], parts[1]) && StandsFor(ps[2], parts[2]);
    assert StandsFor(ps[3], parts[3]) && StandsFor(ps[4], parts[4]) && StandsFor(ps[5], parts[5]);
    assert StandsFor(ps[6], parts[6]) && StandsFor(ps[7], parts[7]) && StandsFor(ps[8], parts[8]);
    assert SpacedBy(bs, parts[4], parts[2], parts[6]);
    ConcatNine(parts[0], parts[1], parts[2], parts[3], parts[4], parts[5], parts[6], parts[7], parts[8]);
    assert parts == [parts[0], parts[1], parts[2], parts[3], parts[4], parts[5], parts[6], parts[7], parts[8]];
  }

  lemma WrittenCut(open: char, close: char, s: string, bs: seq<string>, sep: string, k: string, v: string,
                   rest: string) returns (parts: seq<string>)
    requires SpacedBy(bs, sep, k, v)
    requires s == Written(open, close, bs, sep, k, v) + rest
    ensures Cut(Pattern(open, close), s, parts, Hit([k, v], rest))
  {
    parts := [[open], bs[0], k, bs[1], sep, bs[2], v, bs[3], [close]];
    GroupedNine(open, close, parts);
    PartsFit(open, close, bs, sep, k, v);
    ConcatNine([open], bs[0], k, bs[1], sep, bs[2], v, bs[3], [close]);
  }

  // ----- parsing a text -----

  /** Universal newlines: a carriage return, with or without a line feed, reads as a line feed. */
  function Newlines(text: string): string {
    if text == "" then ""
    else if text[0] == '\r' then "\n" + Newlines(if |text| > 1 && text[1] == '\n' then text[2..] else text[1..])
    else [text[0]] + Newlines(text[1..])
  }

  function LineEnd(text: string): nat
    ensures LineEnd(text) <= |text|
    ensures text != "" ==> LineEnd(text) > 0
  {
    if text == "" then 0 else if text[0] == '\n' then 1 else 1 + LineEnd(text[1..])
  }

  /** The lines of a text, each with its line feed. */
  function Lines(text: string): seq<string>
    decreases |text|
  {
    if text == "" then [] else [text[..LineEnd(text)]] + Lines(text[LineEnd(text)..])
  }

  function Pairs(private: bool, hits: seq<seq<string>>): seq<Entry> {
    if hits == [] then []
    else
      (if |hits[0]| != 2 then []
       else if private then [Private(hits[0][0], hits[0][1])]
       else [Common(hits[0][0], hits[0][1])])
      + Pairs(private, hits[1..])
  }

  /** An end mark makes the rest of its line invalid; otherwise common pairs come before private ones. */
  function LineEntries(line: string): seq<Entry> {
    if Contains(line, END_ITEM) then [End]
    else Pairs(false, FindAll(COMMON_KEY, line)) + Pairs(true, FindAll(PRIVATE_KEY, line))
  }

  function LinesEntries(lines: seq<string>): seq<Entry> {
    if lines == [] then [] else LineEntries(lines[0]) + LinesEntries(lines[1..])
  }

  function Parse(text: string): seq<Entry> {
    LinesEntries(Lines(Newlines(text)))
  }

  // ----- round trip -----

  predicate IsSpecial(c: char) {
    c in ":=<>[]\n\r"
  }

  /** A key or a value that survives: not empty, no blank at its edges, no special character. */
  predicate Clean(w: string) {
    w != "" && w[0] != ' ' && w[|w| - 1] != ' ' && forall c :: c in w ==> !IsSpecial(c)
  }

  predicate CleanEntry(e: Entry) {
    e.End? || (Clean(e.key) && Clean(e.value))
  }

  lemma OptThenFails(p: Piece, ps: seq<Piece>, s: string)
    requires p.Lit? || p.Sep?
    requires s != "" && !Accepts(p, s[0])
    requires s[0] == ' ' ==> |s| > 1 && !Accepts(p, s[1])
    ensures MatchAt([OptSpace, p] + ps, s) == None
  {
  }

  /** Inside a clean word the pieces after the group cannot match. */
  lemma NotInside(p: Piece, ps: seq<Piece>, w: string, t: string, j: nat)
    requires p == Sep || (p.Lit? && IsSpecial(p.c))
    requires Clean(w) && j < |w|
    ensures MatchAt([OptSpace, p] + ps, (w + t)[j..]) == None
  {
    var s := (w + t)[j..];
    assert s[0] == w[j] && w[j] in w;
    if s[0] == ' ' {
      assert s[1] == w[j + 1] && w[j + 1] in w;
    }
    OptThenFails(p, ps, s);
  }

  lemma {:induction false} LazyWord(p: Piece, ps: seq<Piece>, w: string, t: string, hit: Hit, k: nat)
    requires p == Sep || (p.Lit? && IsSpecial(p.c))
    requires Clean(w) && 1 <= k <= |w|
    requires MatchAt([OptSpace, p] + ps, t) == Some(hit)
    ensures MatchWord([OptSpace, p] + ps, w + t, k) == Some(Hit([w] + hit.groups, hit.rest))
    decreases |w| - k
  {
    assert (w + t)[k - 1] == w[k - 1] && w[k - 1] in w;
    if k == |w| {
      assert (w + t)[k..] == t && (w + t)[..k] == w;
    } else {
      NotInside(p, ps, w, t, k);
      LazyWord(p, ps, w, t, hit, k + 1);
    }
  }

  /** A blank that is there is taken, since the pieces behind it match. */
  lemma OptMatches(ps: seq<Piece>, b: string, t: string, hit: Hit)
    requires Blank(b) && t != "" && t[0] != ' '
    requires MatchAt(ps, t) == Some(hit)
    ensures MatchAt([OptSpace] + ps, b + t) == Some(hit)
  {
    assert ([OptSpace] + ps)[1..] == ps;
    if b == "" {
      assert b + t == t;
    } else {
      assert (b + t)[1..] == t;
    }
  }

  /** The value part: a word, then the closing bracket. */
  lemma MatchValue(close: char, v: string, d: string, tail: string)
    requires IsSpecial(close) && Clean(v) && Blank(d)
    ensures MatchAt([Word, OptSpace, Lit(close)], v + (d + ([close] + tail))) == Some(Hit([v], tail))
  {
    var ps := [Word, OptSpace, Lit(close)];
    var t := [close] + tail;
    assert ps[1..] == [OptSpace, Lit(close)] + [] == [OptSpace] + [Lit(close)];
    assert [Lit(close)][1..] == [] && t[1..] == tail;
    assert MatchAt([Lit(close)], t) == Some(Hit([], tail));
    OptMatches([Lit(close)], d, t, Hit([], tail));
    LazyWord(Lit(close), [], v, d + t, Hit([], tail), 1);
    assert [v] + [] == [v];
  }

  function Line(open: char, close: char, k: string, v: string): string {
    [open] + k + " : " + v + [close] + "\n"
  }

  lemma SepThen(ps: seq<Piece>, sep: string, t: string)
    requires sep == ":" || sep == "="
    ensures MatchAt([Sep] + ps, sep + t) == MatchAt(ps, t)
  {
    assert ([Sep] + ps)[1..] == ps && (sep + t)[1..] == t;
  }

  /** The separator with its blanks, and what is behind it. */
  lemma MatchSeparated(ps: seq<Piece>, b: string, sep: string, c: string, value: string, hit: Hit)
    requires Blank(b) && Blank(c) && (sep == ":" || sep == "=")
    requires value != "" && value[0] != ' ' && MatchAt(ps, value) == Some(hit)
    ensures MatchAt([OptSpace, Sep] + ([OptSpace] + ps), b + (sep + (c + value))) == Some(hit)
  {
    OptMatches(ps, c, value, hit);
    var after, t := [OptSpace] + ps, sep + (c + value);
    SepThen(after, sep, c + value);
    OptMatches([Sep] + after, b, t, hit);
    assert [OptSpace, Sep] + after == [OptSpace] + ([Sep] + after);
  }

  /** A pair of clean words is read as it is, however it is spaced, with a colon or an equals sign. */
  lemma CleanPair(open: char, close: char, bs: seq<string>, sep: string, k: string, v: string, tail: string)
    requires IsSpecial(close)
    requires SpacedBy(bs, sep, k, v) && Clean(k) && Clean(v)
    ensures MatchAt(Pattern(open, close), Written(open, close, bs, sep, k, v) + tail) == Some(Hit([k, v], tail))
  {
    assert Blank(bs[0]) && Blank(bs[1]) && Blank(bs[2]) && Blank(bs[3]);
    var value := v + (bs[3] + ([close] + tail));
    MatchValue(close, v, bs[3], tail);
    assert value[0] == v[0];
    var ps := [Word, OptSpace, Lit(close)];
    MatchSeparated(ps, bs[1], sep, bs[2], value, Hit([v], tail));
    var rest := bs[1] + (sep + (bs[2] + value));
    LazyWord(Sep, [OptSpace] + ps, k, rest, Hit([v], tail), 1);
    assert [k] + [v] == [k, v];
    var word := [Word] + ([OptSpace, Sep] + ([OptSpace] + ps));
    assert word[1..] == [OptSpace, Sep] + ([OptSpace] + ps);
    assert MatchAt(word, k + rest) == Some(Hit([k, v], tail));
    assert (k + rest)[0] == k[0];
    OptMatches(word, bs[0], k + rest, Hit([k, v], tail));
    OpenThen(open, close, [OptSpace] + word, bs[0] + (k + rest));
    WrittenRegrouped(open, close, bs, sep, k, v, tail);
  }

  lemma OpenThen(open: char, close: char, ps: seq<Piece>, s: string)
    requires Pattern(open, close) == [Lit(open)] + ps
    ensures MatchAt(Pattern(open, close), [open] + s) == MatchAt(ps, s)
  {
    assert ([Lit(open)] + ps)[1..] == ps && ([open] + s)[1..] == s;
  }

  lemma WrittenRegrouped(open: char, close: char, bs: seq<string>, sep: string, k: string, v: string, tail: string)
    requires |bs| == 4
    ensures Written(open, close, bs, sep, k, v) + tail ==
            [open] + (bs[0] + (k + (bs[1] + (sep + (bs[2] + (v + (bs[3] + ([close] + tail))))))))
  {
  }

  /** The printed line of a clean pair matches from its first character to its closing bracket. */
  lemma MatchLine(open: char, close: char, k: string, v: string)
    requires IsSpecial(close)
    requires Clean(k) && Clean(v)
    ensures MatchAt(Pattern(open, close), Line(open, close, k, v)) == Some(Hit([k, v], "\n"))
  {
    var bs := ["", " ", " ", ""];
    CleanIsWord(k);
    CleanIsWord(v);
    CleanPair(open, close, bs, ":", k, v, "\n");
    PlainLine(open, close, k, v);
  }

  lemma CleanIsWord(w: string)
    requires Clean(w)
    ensures forall c :: c in w ==> c != ':' && c != '='
  {
    forall c | c in w ensures c != ':' && c != '=' {
      assert !IsSpecial(c);
    }
  }

  lemma PlainLine(open: char, close: char, k: string, v: string)
    ensures Written(open, close, ["", " ", " ", ""], ":", k, v) + "\n" == Line(open, close, k, v)
  {
    assert " : " == " " + ":" + " ";
  }

  /** The pattern matches at i and nowhere before. */
  ghost predicate FirstMatch(ps: seq<Piece>, s: string, i: nat) {
    && i < |s|
    && MatchAt(ps, s[i..]).Some?
    && forall j :: 0 <= j < i ==> MatchAt(ps, s[j..]).None?
  }

  /** The search takes the leftmost match and goes on behind it. */
  lemma {:induction false} FindAllMeaning(ps: seq<Piece>, s: string)
    requires ps != [] && ps[0].Lit?
    ensures FindAll(ps, s) == [] <==> forall i :: 0 <= i < |s| ==> MatchAt(ps, s[i..]).None?
    ensures forall i: nat :: FirstMatch(ps, s, i) ==>
              FindAll(ps, s) == [MatchAt(ps, s[i..]).value.groups] + FindAll(ps, MatchAt(ps, s[i..]).value.rest)
    decreases |s|
  {
    if s != "" {
      assert s[0..] == s;
      if MatchAt(ps, s).None? {
        FindAllMeaning(ps, s[1..]);
        assert forall i :: 1 <= i < |s| ==> s[1..][i - 1..] == s[i..];
        assert forall i :: 0 <= i < |s| - 1 ==> s[1..][i..] == s[i + 1..];
        forall i: nat | FirstMatch(ps, s, i)
          ensures FindAll(ps, s) == [MatchAt(ps, s[i..]).value.groups] + FindAll(ps, MatchAt(ps, s[i..]).value.rest) {
          assert FirstMatch(ps, s[1..], i - 1);
        }
      }
    }
  }

  lemma {:induction false} FoundPairs(open: char, close: char, s: string)
    ensures forall h :: h in FindAll(Pattern(open, close), s) ==> |h| == 2
    decreases |s|
  {
    if s != "" {
      PatternMeaning(open, close, s);
      match MatchAt(Pattern(open, close), s)
      case Some(hit) => FoundPairs(open, close, hit.rest);
      case None => FoundPairs(open, close, s[1..]);
    }
  }

  lemma {:induction false} PairsOf(private: bool, hits: seq<seq<string>>)
    requires forall h :: h in hits ==> |h| == 2
    ensures |Pairs(private, hits)| == |hits|
    ensures forall i :: 0 <= i < |hits| ==>
              Pairs(private, hits)[i] ==
              if private then Private(hits[i][0], hits[i][1]) else Common(hits[i][0], hits[i][1])
  {
    if hits != [] {
      PairsOf(private, hits[1..]);
    }
  }

  /** A line with an end mark anywhere says only that; of any other, first come the pairs found in angle brackets,
      each as a common entry, then those in square brackets, each as a private one. */
  lemma LineMeaning(line: string)
    ensures (exists i :: 0 <= i <= |line| && "%%==%%" <= line[i..]) ==> LineEntries(line) == [End]
    ensures (forall i :: 0 <= i <= |line| ==> !("%%==%%" <= line[i..])) ==>
              var cs, ps := FindAll(COMMON_KEY, line), FindAll(PRIVATE_KEY, line);
              && |LineEntries(line)| == |cs| + |ps|
              && (forall i :: 0 <= i < |cs| ==> |cs[i]| == 2 && LineEntries(line)[i] == Common(cs[i][0], cs[i][1]))
              && (forall i :: 0 <= i < |ps| ==>
                    |ps[i]| == 2 && LineEntries(line)[|cs| + i] == Private(ps[i][0], ps[i][1]))
  {
    if !Contains(line, END_ITEM) {
      FoundPairs('<', '>', line);
      FoundPairs('[', ']', line);
      PairsOf(false, FindAll(COMMON_KEY, line));
      PairsOf(true, FindAll(PRIVATE_KEY, line));
    }
  }

  lemma {:induction false} FindNone(open: char, close: char, s: string)
    requires open !in s
    ensures FindAll(Pattern(open, close), s) == []
    decreases |s|
  {
    if s != "" {
      assert s[0] in s;
      FindNone(open, close, s[1..]);
    }
  }

  lemma FindLine(open: char, close: char, k: string, v: string)
    requires IsSpecial(open) && IsSpecial(close) && open != '\n'
    requires Clean(k) && Clean(v)
    ensures FindAll(Pattern(open, close), Line(open, close, k, v)) == [[k, v]]
  {
    MatchLine(open, close, k, v);
    FindNone(open, close, "\n");
  }

  lemma LineChars(open: char, close: char, k: string, v: string, c: char)
    requires Clean(k) && Clean(v)
    requires IsSpecial(c) && c != open && c != close && c != ':' && c != '\n'
    ensures c !in Line(open, close, k, v)
  {
  }

  lemma NoEndMark(s: string)
    ensures Contains(s, END_ITEM) ==> '=' in s
  {
    if i :| 0 <= i <= |s| && END_ITEM <= s[i..] {
      assert END_ITEM[2] == s[i..][2] == s[i + 2];
    }
  }

  /** A printed line parses back to what was printed. */
  lemma LineRoundTrip(e: Entry)
    requires CleanEntry(e)
    ensures LineEntries(Print(e)) == [e]
  {
    match e
    case Common(k, v) =>
      var s := Line('<', '>', k, v);
      assert Print(e) == s;
      LineChars('<', '>', k, v, '=');
      NoEndMark(s);
      FindLine('<', '>', k, v);
      LineChars('<', '>', k, v, '[');
      FindNone('[', ']', s);
      OnePair(false, k, v);
    case Private(k, v) =>
      var s := Line('[', ']', k, v);
      assert Print(e) == s;
      LineChars('[', ']', k, v, '=');
      NoEndMark(s);
      FindLine('[', ']', k, v);
      LineChars('[', ']', k, v, '<');
      FindNone('<', '>', s);
      OnePair(true, k, v);
    case End =>
      assert END_ITEM <= Print(e)[0..];
  }

  lemma OnePair(private: bool, k: string, v: string)
    ensures Pairs(private, [[k, v]]) == [if private then Private(k, v) else Common(k, v)]
    ensures Pairs(private, []) == []
  {
  }

  // ----- the text as a whole -----

  /** A line: its only line feed is its last character, and it has no carriage return. */
  predicate IsLine(l: string) {
    l != "" && l[|l| - 1] == '\n' && (forall i :: 0 <= i < |l| - 1 ==> l[i] != '\n') && '\r' !in l
  }

  lemma PrintIsLine(e: Entry)
    requires CleanEntry(e)
    ensures IsLine(Print(e))
  {
    match e
    case Common(k, v) =>
      assert Print(e) == Line('<', '>', k, v);
      BracketLine('<', '>', k, v);
    case Private(k, v) =>
      assert Print(e) == Line('[', ']', k, v);
      BracketLine('[', ']', k, v);
    case End =>
  }

  lemma BracketLine(open: char, close: char, k: string, v: string)
    requires Clean(k) && Clean(v)
    requires open != '\n' && close != '\n' && open != '\r' && close != '\r'
    ensures IsLine(Line(open, close, k, v))
  {
    var inner := [open] + k + " : " + v + [close];
    assert forall c :: c in k || c in v ==> c != '\n' && c != '\r';
    assert forall c :: c in inner ==> c != '\n' && c != '\r';
    var l := inner + "\n";
    assert Line(open, close, k, v) == l;
    forall i | 0 <= i < |l| - 1 ensures l[i] != '\n' {
      assert l[i] == inner[i] && inner[i] in inner;
    }
  }

  lemma {:induction false} LineEndOf(l: string, rest: string)
    requires IsLine(l)
    ensures LineEnd(l + rest) == |l|
    decreases |l|
  {
    assert (l + rest)[0] == l[0];
    if |l| > 1 {
      assert (l + rest)[1..] == l[1..] + rest;
      LineEndOf(l[1..], rest);
    }
  }

  lemma LinesCons(l: string, rest: string)
    requires IsLine(l)
    ensures Lines(l + rest) == [l] + Lines(rest)
  {
    LineEndOf(l, rest);
    assert (l + rest)[..|l|] == l && (l + rest)[|l|..] == rest;
  }

  lemma {:induction false} NewlinesPrefix(s: string, rest: string)
    requires '\r' !in s
    ensures Newlines(s + rest) == s + Newlines(rest)
  {
    if s == "" {
      assert s + rest == rest;
    } else {
      assert s[0] in s;
      assert (s + rest)[1..] == s[1..] + rest;
      NewlinesPrefix(s[1..], rest);
      assert [s[0]] + (s[1..] + Newlines(rest)) == s + Newlines(rest);
    }
  }

  lemma {:induction false} PrintedParses(es: seq<Entry>)
    requires forall e :: e in es ==> CleanEntry(e)
    ensures Newlines(PrintAll(es)) == PrintAll(es)
    ensures LinesEntries(Lines(PrintAll(es))) == es
  {
    if es != [] {
      var e, rest := es[0], PrintAll(es[1..]);
      assert CleanEntry(e);
      PrintIsLine(e);
      PrintedParses(es[1..]);
      NewlinesPrefix(Print(e), rest);
      LinesCons(Print(e), rest);
      LineRoundTrip(e);
      assert ([Print(e)] + Lines(rest))[1..] == Lines(rest);
      assert [e] + es[1..] == es;
    }
  }

  /** Everything the recorder prints, for any sequence of calls with clean keys and values, parses back
      to exactly that sequence. */
  lemma RoundTrip(es: seq<Entry>)
    requires forall e :: e in es ==> CleanEntry(e)
    ensures Parse(PrintAll(es)) == es
  {
    PrintedParses(es);
  }

  // ----- what lines are -----

  /** These texts, each with this ending. */
  function Ended(ls: seq<string>, ending: string): string {
    if ls == [] then "" else ls[0] + (ending + Ended(ls[1..], ending))
  }

  ghost predicate IsPlain(l: string) {
    '\n' !in l && '\r' !in l
  }

  lemma {:induction false} EndingsRead(ls: seq<string>, ending: string)
    requires forall l :: l in ls ==> IsPlain(l)
    requires ending == "\n" || ending == "\r\n" || ending == "\r"
    ensures Newlines(Ended(ls, ending)) == Ended(ls, "\n")
    ensures ending == "\r" ==> Ended(ls, ending) == "" || Ended(ls, ending)[0] != '\n'
  {
    if ls != [] {
      var l, rest := ls[0], Ended(ls[1..], ending);
      assert IsPlain(l);
      EndingsRead(ls[1..], ending);
      NewlinesPrefix(l, ending + rest);
      EndingRead(ending, rest);
      assert l != "" ==> (l + (ending + rest))[0] == l[0] && l[0] in l;
    }
  }

  lemma EndingRead(ending: string, rest: string)
    requires ending == "\n" || ending == "\r\n" || ending == "\r"
    requires ending == "\r" ==> rest == "" || rest[0] != '\n'
    ensures Newlines(ending + rest) == "\n" + Newlines(rest)
  {
    var s := ending + rest;
    assert s[|ending|..] == rest;
  }

  lemma {:induction false} LinesOfEnded(ls: seq<string>)
    requires forall l :: l in ls ==> IsPlain(l)
    ensures |Lines(Ended(ls, "\n"))| == |ls|
    ensures forall i :: 0 <= i < |ls| ==> Lines(Ended(ls, "\n"))[i] == ls[i] + "\n"
  {
    if ls != [] {
      var l, rest := ls[0] + "\n", Ended(ls[1..], "\n");
      assert IsPlain(ls[0]);
      LinesOfEnded(ls[1..]);
      LinesCons(l, rest);
      assert ls[0] + ("\n" + rest) == l + rest;
    }
  }

  /** Whether lines end in a line feed, a carriage return or both, they are read as the same lines. */
  lemma SameLines(ls: seq<string>, ending: string)
    requires forall l :: l in ls ==> IsPlain(l)
    requires ending == "\n" || ending == "\r\n" || ending == "\r"
    ensures Lines(Newlines(Ended(ls, ending))) == seq(|ls|, i requires 0 <= i < |ls| => ls[i] + "\n")
  {
    EndingsRead(ls, ending);
    LinesOfEnded(ls);
  }

  // ----- appending to a file -----

  /** The file is empty or its last line is complete. */
  predicate Complete(text: string) {
    text == "" || text[|text| - 1] == '\n'
  }

  lemma Assoc<T>(a: seq<T>, b: seq<T>, c: seq<T>)
    ensures a + (b + c) == (a + b) + c
  {
  }

  lemma {:induction false} NewlinesSplit(text: string, more: string)
    requires Complete(text)
    ensures Newlines(text + more) == Newlines(text) + Newlines(more)
    ensures Complete(Newlines(text))
    decreases |text|
  {
    if text == "" {
      assert text + more == more;
    } else {
      var n := if text[0] == '\r' && |text| > 1 && text[1] == '\n' then 2 else 1;
      assert (text + more)[n..] == text[n..] + more;
      NewlinesSplit(text[n..], more);
      var c, rest, tail := if text[0] == '\r' then '\n' else text[0], Newlines(text[n..]), Newlines(more);
      assert Newlines(text) == [c] + rest;
      assert Newlines(text + more) == [c] + Newlines(text[n..] + more);
      Assoc([c], rest, tail);
    }
  }

  lemma {:induction false} LineEndSplit(text: string, more: string)
    requires text != "" && text[|text| - 1] == '\n'
    ensures LineEnd(text + more) == LineEnd(text)
    decreases |text|
  {
    if text[0] != '\n' {
      assert (text + more)[1..] == text[1..] + more;
      LineEndSplit(text[1..], more);
    }
  }

  lemma {:induction false} LinesSplit(text: string, more: string)
    requires Complete(text)
    ensures Lines(text + more) == Lines(text) + Lines(more)
    decreases |text|
  {
    if text == "" {
      assert text + more == more;
    } else {
      LineEndSplit(text, more);
      var n := LineEnd(text);
      assert (text + more)[..n] == text[..n] && (text + more)[n..] == text[n..] + more;
      LinesSplit(text[n..], more);
    }
  }

  lemma {:induction false} EntriesSplit(ls: seq<string>, ms: seq<string>)
    ensures LinesEntries(ls + ms) == LinesEntries(ls) + LinesEntries(ms)
  {
    if ls == [] {
      assert ls + ms == ms;
    } else {
      var head, rest, tail := LineEntries(ls[0]), LinesEntries(ls[1..]), LinesEntries(ms);
      assert (ls + ms)[0] == ls[0] && (ls + ms)[1..] == ls[1..] + ms;
      EntriesSplit(ls[1..], ms);
      Assoc(head, rest, tail);
    }
  }

  /** Appending to a file of complete lines, whatever they are, adds exactly the new entries to what parses. */
  lemma AppendRoundTrip(file: string, es: seq<Entry>)
    requires Complete(file)
    requires forall e :: e in es ==> CleanEntry(e)
    ensures Parse(file + PrintAll(es)) == Parse(file) + es
  {
    PrintedParses(es);
    NewlinesSplit(file, PrintAll(es));
    LinesSplit(Newlines(file), PrintAll(es));
    EntriesSplit(Lines(Newlines(file)), Lines(PrintAll(es)));
  }
}
