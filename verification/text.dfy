// Decimal numerals and whitespace splitting, as the Go standard library does them.
module Text {
  import opened Wrappers

  // ----- strconv.Itoa, strconv.ParseUint, strconv.Atoi -----

  const MAX_UINT64 := 0xFFFF_FFFF_FFFF_FFFF
  const MAX_INT64 := 0x7FFF_FFFF_FFFF_FFFF

  predicate IsDigit(c: char) {
    '0' <= c <= '9'
  }

  function DigitChar(d: nat): char
    requires d < 10
  {
    '0' + d as char
  }

  function DigitValue(c: char): nat
    requires IsDigit(c)
  {
    c as nat - '0' as nat
  }

  /** The decimal numeral of a non-negative number, without leading zeros. */
  function Itoa(n: nat): (s: string)
    ensures s != "" && forall c :: c in s ==> IsDigit(c)
  {
    if n < 10 then [DigitChar(n)] else Itoa(n / 10) + [DigitChar(n % 10)]
  }

  function ItoaInt(n: int): string {
    if n < 0 then "-" + Itoa(-n) else Itoa(n)
  }

  /** The number a string of digits denotes. */
  function Value(s: string): nat
    requires forall c :: c in s ==> IsDigit(c)
  {
    if s == "" then 0 else 10 * Value(s[..|s| - 1]) + DigitValue(s[|s| - 1])
  }

  /** Base 10, 64 bits: only digits, and no value above the largest unsigned word. */
  function ParseUint(s: string): Option<nat> {
    if s == "" || exists c :: c in s && !IsDigit(c) then None
    else if Value(s) > MAX_UINT64 then None
    else Some(Value(s))
  }

  /** An optional sign before the digits, and the signed 64-bit range. */
  function Atoi(s: string): Option<int> {
    var negative := s != "" && s[0] == '-';
    var digits := if s != "" && (s[0] == '-' || s[0] == '+') then s[1..] else s;
    if digits == "" || exists c :: c in digits && !IsDigit(c) then None
    else if Value(digits) > (if negative then MAX_INT64 + 1 else MAX_INT64) then None
    else Some(if negative then -(Value(digits) as int) else Value(digits))
  }

  lemma {:induction false} ValueOfItoa(n: nat)
    ensures Value(Itoa(n)) == n
  {
    if n < 10 {
      assert [DigitChar(n)][..0] == "";
    } else {
      ValueOfItoa(n / 10);
      assert Itoa(n)[..|Itoa(n)| - 1] == Itoa(n / 10);
    }
  }

  /** Printing and parsing a number within the word size gives the number back. */
  lemma NumeralRoundTrip(n: nat)
    ensures n <= MAX_UINT64 ==> ParseUint(Itoa(n)) == Some(n)
    ensures n <= MAX_INT64 ==> Atoi(Itoa(n)) == Some(n)
  {
    ValueOfItoa(n);
    assert IsDigit(Itoa(n)[0]);
  }

  function Power(k: nat): (r: nat)
    ensures r > 0
  {
    if k == 0 then 1 else 10 * Power(k - 1)
  }

  lemma {:induction false} DivideOn(n: nat, k: nat)
    ensures n / 10 / Power(k) == n / Power(k + 1)
  {
    if k > 0 {
      DivideOn(n, k - 1);
    }
    Divided(n, Power(k));
  }

  lemma Divided(n: nat, p: nat)
    requires p > 0
    ensures n / 10 / p == n / (10 * p)
  {
    var q, m := n / 10 / p, n / 10;
    var r := m - q * p;
    assert m == q * p + r && 0 <= r < p;
    var t := n - 10 * m;
    assert n == 10 * (q * p + r) + t && 0 <= 10 * r + t < 10 * p;
    assert n == q * (10 * p) + (10 * r + t);
    Quotient(n, 10 * p, q, 10 * r + t);
  }

  lemma Quotient(n: nat, d: nat, q: nat, r: nat)
    requires n == q * d + r && r < d
    ensures n / d == q
  {
    var x := n / d - q;
    assert x * d == r - n % d;
    assert (x >= 1 ==> x * d >= d) && (x <= -1 ==> x * d + d <= 0);
  }

  /** The k-th digit from the right is that of the k-th power of ten, and only 0 begins with a zero. */
  lemma {:induction false} NumeralMeaning(n: nat)
    ensures forall k {:trigger Power(k)} :: 0 <= k < |Itoa(n)| ==>
              Itoa(n)[|Itoa(n)| - 1 - k] as int == '0' as int + n / Power(k) % 10
    ensures Itoa(n)[0] == '0' <==> n == 0
  {
    var s := Itoa(n);
    if n >= 10 {
      var t := Itoa(n / 10);
      NumeralMeaning(n / 10);
      forall k {:trigger Power(k)} | 0 <= k < |s| ensures s[|s| - 1 - k] as int == '0' as int + n / Power(k) % 10 {
        if k > 0 {
          DivideOn(n, k - 1);
          assert s[|s| - 1 - k] == t[|t| - 1 - (k - 1)];
        }
      }
    } else {
      assert n / 1 == n;
    }
  }

  lemma ItoaInjective(m: nat, n: nat)
    requires Itoa(m) == Itoa(n)
    ensures m == n
  {
    ValueOfItoa(m);
    ValueOfItoa(n);
  }

  /** The same with a sign. */
  lemma SignedRoundTrip(n: int)
    ensures -MAX_INT64 - 1 <= n <= MAX_INT64 ==> Atoi(ItoaInt(n)) == Some(n)
  {
    if n >= 0 {
      NumeralRoundTrip(n);
    } else {
      ValueOfItoa(-n);
      assert ("-" + Itoa(-n))[1..] == Itoa(-n);
    }
  }

  // ----- strings.Fields -----

  predicate IsSpace(c: char) {
    || 9 as char <= c <= 13 as char
    || c == ' ' || c == 0x85 as char || c == 0xA0 as char || c == 0x1680 as char
    || 0x2000 as char <= c <= 0x200a as char
    || c == 0x2028 as char || c == 0x2029 as char || c == 0x202f as char
    || c == 0x205f as char || c == 0x3000 as char
  }

  /** A field: not empty and without whitespace. */
  predicate IsField(f: string) {
    f != "" && forall c :: c in f ==> !IsSpace(c)
  }

  function Pending(f: string): seq<string> {
    if f == "" then [] else [f]
  }

  /** Split s, where f is the part of the current field already read. */
  function FieldsAfter(f: string, s: string): seq<string>
    decreases s
  {
    if s == "" then Pending(f)
    else if IsSpace(s[0]) then Pending(f) + FieldsAfter("", s[1..])
    else FieldsAfter(f + [s[0]], s[1..])
  }

  function Fields(s: string): seq<string> {
    FieldsAfter("", s)
  }

  function Concat(fs: seq<string>): string {
    if fs == [] then "" else fs[0] + Concat(fs[1..])
  }

  function NonSpaces(s: string): string {
    if s == "" then "" else (if IsSpace(s[0]) then "" else [s[0]]) + NonSpaces(s[1..])
  }

  lemma {:induction false} FieldsAfterMeaning(f: string, s: string)
    requires forall c :: c in f ==> !IsSpace(c)
    ensures forall g :: g in FieldsAfter(f, s) ==> IsField(g)
    ensures Concat(FieldsAfter(f, s)) == f + NonSpaces(s)
    decreases s
  {
    if s == "" {
      assert f != "" ==> Concat([f]) == f + Concat([f][1..]);
    } else if IsSpace(s[0]) {
      FieldsAfterMeaning("", s[1..]);
      if f != "" {
        var rest := FieldsAfter("", s[1..]);
        assert ([f] + rest)[1..] == rest;
      } else {
        assert [] + FieldsAfter("", s[1..]) == FieldsAfter("", s[1..]);
      }
    } else {
      FieldsAfterMeaning(f + [s[0]], s[1..]);
      assert f + [s[0]] + NonSpaces(s[1..]) == f + ([s[0]] + NonSpaces(s[1..]));
    }
  }

  /** The fields are whitespace-free words and hold every other character, in order. */
  lemma FieldsMeaning(s: string)
    ensures forall g :: g in Fields(s) ==> IsField(g)
    ensures Concat(Fields(s)) == NonSpaces(s)
  {
    FieldsAfterMeaning("", s);
  }

  lemma {:induction false} FieldsAfterWord(f: string, w: string, s: string)
    requires forall c :: c in w ==> !IsSpace(c)
    ensures FieldsAfter(f, w + s) == FieldsAfter(f + w, s)
    decreases w
  {
    if w == "" {
      assert w + s == s && f + w == f;
    } else {
      assert (w + s)[1..] == w[1..] + s;
      FieldsAfterWord(f + [w[0]], w[1..], s);
      assert f + [w[0]] + w[1..] == f + w;
    }
  }

  lemma {:induction false} FieldsAfterSplit(f: string, a: string, c: char, b: string)
    requires IsSpace(c)
    ensures FieldsAfter(f, a + [c] + b) == FieldsAfter(f, a) + Fields(b)
    decreases a
  {
    var s := a + [c] + b;
    if a == "" {
      assert s == [c] + b && s[1..] == b;
    } else {
      assert s[0] == a[0] && s[1..] == a[1..] + [c] + b;
      if IsSpace(a[0]) {
        FieldsAfterSplit("", a[1..], c, b);
        assert Pending(f) + (FieldsAfter("", a[1..]) + Fields(b)) == Pending(f) + FieldsAfter("", a[1..]) + Fields(b);
      } else {
        FieldsAfterSplit(f + [a[0]], a[1..], c, b);
      }
    }
  }

  /** A text splits at each white space, and a word without any is one field: that determines the fields. */
  lemma FieldsSplit(a: string, c: char, b: string)
    ensures IsSpace(c) ==> Fields(a + [c] + b) == Fields(a) + Fields(b)
    ensures IsField(a) ==> Fields(a) == [a]
    ensures Fields("") == []
  {
    if IsSpace(c) {
      FieldsAfterSplit("", a, c, b);
    }
    if IsField(a) {
      FieldsAfterWord("", a, "");
      assert a + "" == a && "" + a == a;
    }
  }

  /** Each word followed by one blank. */
  function Spaced(ws: seq<string>): string {
    if ws == [] then "" else ws[0] + " " + Spaced(ws[1..])
  }

  lemma {:induction false} FieldsOfSpaced(ws: seq<string>)
    requires forall w :: w in ws ==> IsField(w)
    ensures Fields(Spaced(ws)) == ws
  {
    if ws != [] {
      var w, rest := ws[0], " " + Spaced(ws[1..]);
      assert IsField(w);
      assert ws[0] + " " + Spaced(ws[1..]) == w + rest;
      FieldsAfterWord("", w, rest);
      assert "" + w == w;
      assert rest[1..] == Spaced(ws[1..]);
      FieldsOfSpaced(ws[1..]);
      assert ws == [w] + ws[1..];
    }
  }

  lemma {:induction false} SpacedSnoc(ws: seq<string>, w: string)
    ensures Spaced(ws + [w]) == Spaced(ws) + (w + " ")
  {
    if ws == [] {
      assert ws + [w] == [w] && [w][1..] == [];
      assert Spaced([w]) == w + " " + "";
    } else {
      assert (ws + [w])[1..] == ws[1..] + [w];
      SpacedSnoc(ws[1..], w);
      assert Spaced(ws + [w]) == ws[0] + " " + (Spaced(ws[1..]) + (w + " "));
    }
  }

  function Count(c: char, s: string): nat {
    if s == "" then 0 else (if s[0] == c then 1 else 0) + Count(c, s[1..])
  }

  lemma {:induction false} CountSplit(c: char, s: string, t: string)
    ensures Count(c, s + t) == Count(c, s) + Count(c, t)
  {
    if s == "" {
      assert s + t == t;
    } else {
      assert (s + t)[1..] == s[1..] + t;
      CountSplit(c, s[1..], t);
    }
  }

  lemma {:induction false} NoneCounted(c: char, s: string)
    requires c !in s
    ensures Count(c, s) == 0
  {
    if s != "" {
      NoneCounted(c, s[1..]);
    }
  }

  /** Nothing stands between the words but one blank behind each. */
  lemma {:induction false} SpacedBlanks(ws: seq<string>)
    requires forall w :: w in ws ==> IsField(w)
    ensures Count(' ', Spaced(ws)) == |ws|
    ensures forall c :: c in Spaced(ws) ==> c == ' ' || !IsSpace(c)
  {
    if ws != [] {
      var w := ws[0];
      assert IsField(w);
      NoneCounted(' ', w);
      SpacedBlanks(ws[1..]);
      CountSplit(' ', w, " ");
      CountSplit(' ', w + " ", Spaced(ws[1..]));
      assert Count(' ', " ") == 1;
    }
  }
}
