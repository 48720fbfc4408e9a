/** Joined strings and decimal numbers, and how to read them back. */
module Strings {

  // ----- joining -----

  /** `parts.join(sep)` */
  function Join(sep: char, parts: seq<string>): string {
    if parts == [] then ""
    else if |parts| == 1 then parts[0]
    else parts[0] + [sep] + Join(sep, parts[1..])
  }

  ghost predicate Free(sep: char, parts: seq<string>) {
    forall p :: p in parts ==> sep !in p
  }

  lemma FirstSeparator(sep: char, x: string, r: string, y: string, t: string)
    requires sep !in x && sep !in y && x + [sep] + r == y + [sep] + t
    ensures x == y && r == t
  {
    var a, b := x + [sep] + r, y + [sep] + t;
    assert a[|x|] == sep && b[|x|] == sep;
    assert b[|y|] == sep && a[|y|] == sep;
    assert a[..|x|] == x && b[..|y|] == y;
    assert a[|x| + 1..] == r && b[|y| + 1..] == t;
  }

  lemma JoinedHasSeparator(sep: char, parts: seq<string>)
    requires |parts| > 1
    ensures sep in Join(sep, parts)
  {
    assert Join(sep, parts)[|parts[0]|] == sep;
  }

  /** Parts without the separator can be read back from their join, and so can their number. */
  lemma {:induction false} JoinInjective(sep: char, a: seq<string>, b: seq<string>)
    requires Free(sep, a) && Free(sep, b) && a != [] && b != [] && Join(sep, a) == Join(sep, b)
    ensures a == b
    decreases |a|
  {
    assert a[0] in a && b[0] in b;
    if |a| == 1 || |b| == 1 {
      if |a| > 1 { JoinedHasSeparator(sep, a); }
      if |b| > 1 { JoinedHasSeparator(sep, b); }
      assert a == [a[0]] && b == [b[0]];
    } else {
      FirstSeparator(sep, a[0], Join(sep, a[1..]), b[0], Join(sep, b[1..]));
      JoinInjective(sep, a[1..], b[1..]);
      assert a == [a[0]] + a[1..] && b == [b[0]] + b[1..];
    }
  }

  lemma {:induction false} JoinLast(sep: char, parts: seq<string>)
    requires |parts| > 1
    ensures Join(sep, parts) == Join(sep, parts[..|parts| - 1]) + [sep] + parts[|parts| - 1]
  {
    var n := |parts| - 1;
    if n > 1 {
      JoinLast(sep, parts[1..]);
      assert parts[1..][..n - 1] == parts[..n][1..];
    }
  }

  function Count(c: char, s: string): nat {
    if s == "" then 0 else (if s[0] == c then 1 else 0) + Count(c, s[1..])
  }

  lemma {:induction false} CountAppend(c: char, s: string, t: string)
    ensures Count(c, s + t) == Count(c, s) + Count(c, t)
  {
    if s == "" {
      assert s + t == t;
    } else {
      assert (s + t)[1..] == s[1..] + t;
      CountAppend(c, s[1..], t);
    }
  }

  lemma {:induction false} CountFree(c: char, s: string)
    requires c !in s
    ensures Count(c, s) == 0
  {
    if s != "" {
      CountFree(c, s[1..]);
    }
  }

  lemma {:induction false} CountJoin(sep: char, parts: seq<string>)
    requires Free(sep, parts) && parts != []
    ensures Count(sep, Join(sep, parts)) == |parts| - 1
  {
    assert parts[0] in parts;
    CountFree(sep, parts[0]);
    if |parts| > 1 {
      CountJoin(sep, parts[1..]);
      CountAppend(sep, parts[0], [sep]);
      assert [sep][1..] == "";
      CountAppend(sep, parts[0] + [sep], Join(sep, parts[1..]));
    }
  }

  lemma ShorterTail(sep: char, d: string, t: string, e: string, u: string)
    requires d + [sep] + t == e + [sep] + u && |t| < |u|
    ensures Count(sep, u) > Count(sep, t)
  {
    var m := d + [sep] + t;
    var n := |u| - |t| - 1;
    assert m[|m| - |u|..] == u by { assert (e + [sep] + u)[|e| + 1..] == u; }
    assert m[|d|] == sep && m[|d| + 1..] == t;
    assert u == u[..n] + [sep] + t by {
      assert u[n] == m[|d|];
      assert u[n + 1..] == m[|d| + 1..];
    }
    CountAppend(sep, u[..n] + [sep], t);
    CountAppend(sep, u[..n], [sep]);
    assert [sep][1..] == "";
  }

  /** The first part may contain the separator if the number of the other parts is known. */
  lemma JoinInjectiveAfterFirst(sep: char, d: string, a: seq<string>, e: string, b: seq<string>)
    requires Free(sep, a) && Free(sep, b) && |a| == |b| > 0
    requires Join(sep, [d] + a) == Join(sep, [e] + b)
    ensures d == e && a == b
  {
    var t, u := Join(sep, a), Join(sep, b);
    assert ([d] + a)[1..] == a && ([e] + b)[1..] == b;
    assert d + [sep] + t == e + [sep] + u;
    CountJoin(sep, a);
    CountJoin(sep, b);
    if |t| < |u| { ShorterTail(sep, d, t, e, u); }
    if |u| < |t| { ShorterTail(sep, e, u, d, t); }
    assert (d + [sep] + t)[..|d|] == d && (e + [sep] + u)[..|e|] == e;
    assert (d + [sep] + t)[|d| + 1..] == t && (e + [sep] + u)[|e| + 1..] == u;
    JoinInjective(sep, a, b);
  }

  // ----- decimal numbers -----

  function DigitChar(d: int): char
    requires 0 <= d < 10
  {
    (48 + d) as char
  }

  predicate IsDigit(c: char) { '0' <= c <= '9' }

  function DigitValue(c: char): int
    requires IsDigit(c)
  {
    c as int - 48
  }

  function PrintNat(n: nat): string {
    if n < 10 then [DigitChar(n)] else PrintNat(n / 10) + [DigitChar(n % 10)]
  }

  /** `n.toString()` */
  function Print(n: int): string { if n < 0 then "-" + PrintNat(-n) else PrintNat(n) }

  predicate AllDigits(s: string) { forall c | c in s :: IsDigit(c) }

  function ParseNat(s: string): nat
    requires AllDigits(s)
  {
    if s == "" then 0 else 10 * ParseNat(s[..|s| - 1]) + DigitValue(s[|s| - 1])
  }

  /** The language of /^-?\d+$/. */
  predicate IsInteger(s: string) {
    var t := if s != "" && s[0] == '-' then s[1..] else s;
    t != "" && AllDigits(t)
  }

  /** `BigInt(s)` */
  function ParseInt(s: string): int
    requires IsInteger(s)
  {
    if s[0] == '-' then 0 - ParseNat(s[1..]) else ParseNat(s)
  }

  lemma {:induction false} PrintNatDigits(n: nat)
    ensures PrintNat(n) != "" && AllDigits(PrintNat(n)) && ParseNat(PrintNat(n)) == n
  {
    if n >= 10 {
      PrintNatDigits(n / 10);
      assert PrintNat(n)[..|PrintNat(n)| - 1] == PrintNat(n / 10);
    } else {
      assert PrintNat(n)[..0] == "";
    }
  }

  /** Printing and reading back. */
  lemma PrintParses(n: int)
    ensures IsInteger(Print(n)) && ParseInt(Print(n)) == n
    ensures forall c :: c in Print(n) ==> IsDigit(c) || c == '-'
  {
    PrintNatDigits(if n < 0 then -n else n);
    if n < 0 {
      assert Print(n)[1..] == PrintNat(-n);
    } else {
      assert Print(n)[0] in PrintNat(n);
    }
  }

  /** No leading zeros, and no minus in front of zero. */
  predicate Canonical(s: string)
    requires IsInteger(s)
  {
    if s[0] == '-' then s[1] != '0' else |s| == 1 || s[0] != '0'
  }

  lemma {:induction false} PrintNatFirst(n: nat)
    requires n > 0
    ensures PrintNat(n)[0] != '0'
  {
    if n >= 10 {
      PrintNatFirst(n / 10);
    }
  }

  lemma DigitStep(n: nat, d: nat)
    requires d < 10
    ensures (n * 10 + d) / 10 == n && (n * 10 + d) % 10 == d
  {
  }

  lemma {:induction false} ParseNatPrints(s: string)
    requires s != "" && AllDigits(s) && s[0] != '0'
    ensures ParseNat(s) > 0 && PrintNat(ParseNat(s)) == s
  {
    var n := |s| - 1;
    assert s[0] in s && s[n] in s;
    if n == 0 {
      assert s[..0] == "" && s == [s[0]];
    } else {
      ParseNatPrints(s[..n]);
      DigitStep(ParseNat(s[..n]), DigitValue(s[n]));
      assert s == s[..n] + [s[n]];
    }
  }

  lemma PrintCanonical(n: int)
    ensures IsInteger(Print(n)) && Canonical(Print(n))
  {
    PrintParses(n);
    if n != 0 { PrintNatFirst(if n < 0 then -n else n); }
  }

  /** Reading and printing gives the same spelling exactly for canonical spellings. */
  lemma ParsePrintsIff(s: string)
    requires IsInteger(s)
    ensures Print(ParseInt(s)) == s <==> Canonical(s)
  {
    var n := ParseInt(s);
    PrintParses(n);
    if Canonical(s) {
      if s[0] == '-' {
        ParseNatPrints(s[1..]);
        assert s == "-" + s[1..];
      } else if s[0] != '0' {
        ParseNatPrints(s);
      } else {
        assert s == "0" && s[..0] == "";
      }
    } else {
      PrintCanonical(n);
    }
  }
}
