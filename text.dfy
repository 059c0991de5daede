/**
 * The small pieces of Python string behaviour the model relies on:
 * `sep.join(parts)`, decimal `str(int)`, substring tests (`t in s`) and
 * `repr` of a string.
 */
module Text {

  /** `sep.join(parts)`. */
  function Join(sep: string, parts: seq<string>): string
    decreases |parts|
  {
    if |parts| == 0 then ""
    else if |parts| == 1 then parts[0]
    else parts[0] + sep + Join(sep, parts[1..])
  }

  /** Joining non-empty parts gives the empty string exactly when there are no parts. */
  lemma {:induction false} JoinEmptyIff(sep: string, parts: seq<string>)
    requires forall i :: 0 <= i < |parts| ==> parts[i] != ""
    ensures Join(sep, parts) == "" <==> parts == []
  {
    if |parts| >= 1 {
      assert |Join(sep, parts)| >= |parts[0]| > 0;
    }
  }

  /** Every part appears in the joined string. */
  lemma {:induction false} JoinContainsParts(sep: string, parts: seq<string>, k: nat)
    requires k < |parts|
    ensures Contains(Join(sep, parts), parts[k])
  {
    if |parts| == 1 {
      PrefixContained(parts[0], "");
      assert parts[0] + "" == parts[0];
    } else if k == 0 {
      PrefixContained(parts[0], sep + Join(sep, parts[1..]));
      assert parts[0] + sep + Join(sep, parts[1..]) == parts[0] + (sep + Join(sep, parts[1..]));
    } else {
      JoinContainsParts(sep, parts[1..], k - 1);
      assert parts[1..][k - 1] == parts[k];
      SuffixContains(parts[0] + sep, Join(sep, parts[1..]), parts[k]);
    }
  }

  lemma JoinPair(sep: string, a: string, b: string)
    ensures Join(sep, [a, b]) == a + sep + b
  {
    assert [a, b][1..] == [b];
  }

  lemma JoinTriple(sep: string, a: string, b: string, c: string)
    ensures Join(sep, [a, b, c]) == a + sep + b + sep + c
  {
    assert [a, b, c][1..] == [b, c];
    JoinPair(sep, b, c);
  }

  /** Python's `t in s` on strings. */
  predicate Contains(s: string, t: string) {
    exists i :: 0 <= i <= |s| - |t| && t <= s[i..]
  }

  predicate EndsWith(s: string, t: string) {
    |t| <= |s| && s[|s| - |t|..] == t
  }

  lemma PrefixContained(t: string, rest: string)
    ensures Contains(t + rest, t)
  {
    assert t <= (t + rest)[0..];
  }

  lemma SuffixContains(front: string, s: string, t: string)
    requires Contains(s, t)
    ensures Contains(front + s, t)
  {
    var i :| 0 <= i <= |s| - |t| && t <= s[i..];
    assert (front + s)[|front| + i..] == s[i..];
  }

  lemma ContainsMiddle(a: string, b: string, c: string)
    ensures Contains(a + b + c, b)
  {
    assert (a + b + c)[|a|..] == b + c;
    assert b <= (a + b + c)[|a|..];
  }

  lemma EndsWithAppended(a: string, b: string)
    ensures EndsWith(a + b, b)
  {
    assert (a + b)[|a + b| - |b|..] == b;
  }

  /** If `a + t` ends with `u` and `u` is the longer, `t` ends `u`. */
  lemma EndOfEnding(a: string, t: string, u: string)
    requires EndsWith(a + t, u) && |t| <= |u|
    ensures u[|u| - |t|..] == t
  {
    var s := a + t;
    assert s[|s| - |t|..] == t;
    assert u[|u| - |t|..] == s[|s| - |u|..][|u| - |t|..];
  }

  /** If `a + t` ends with `u` and `t` is the longer, `u` ends `t`. */
  lemma EndingOfEnd(a: string, t: string, u: string)
    requires EndsWith(a + t, u) && |u| <= |t|
    ensures t[|t| - |u|..] == u
  {
    var s := a + t;
    assert s[|s| - |u|..] == t[|t| - |u|..];
  }

  /** An ending of `t` is an ending of `a + t`. */
  lemma EndsWithExtended(a: string, t: string, u: string)
    requires EndsWith(t, u)
    ensures EndsWith(a + t, u)
  {
    assert (a + t)[|a + t| - |u|..] == t[|t| - |u|..];
  }

  /** `t` occupies `s` from position `i` on. */
  lemma ContainsAt(s: string, t: string, i: nat)
    requires i + |t| <= |s| && s[i..i + |t|] == t
    ensures Contains(s, t)
  {
    assert t <= s[i..];
  }

  // ---------------------------------------------------------------------
  // Decimal numerals: Python's `str(n)` on an int.

  predicate IsDigit(c: char) { '0' <= c <= '9' }

  predicate AllDigits(s: string) {
    forall i :: 0 <= i < |s| ==> IsDigit(s[i])
  }

  function DigitChar(d: nat): (c: char)
    requires d < 10
    ensures IsDigit(c) && c as int - '0' as int == d
  {
    "0123456789"[d]
  }

  function DigitValue(c: char): (d: nat)
    requires IsDigit(c)
    ensures d < 10
  {
    c as int - '0' as int
  }

  /** `str(n)` for a non-negative n: digits only, no leading zero. */
  function NatToString(n: nat): (s: string)
    ensures |s| >= 1 && AllDigits(s)
    ensures s[0] == '0' ==> n == 0
    decreases n
  {
    if n < 10 then [DigitChar(n)] else NatToString(n / 10) + [DigitChar(n % 10)]
  }

  /** `str(i)` for any int: a leading '-' exactly for negatives. */
  function IntToString(i: int): (s: string)
    ensures |s| >= 1
    ensures s[0] == '-' <==> i < 0
  {
    if i < 0 then "-" + NatToString(-i) else NatToString(i)
  }

  /** `int(s)` on a string of digits. */
  function ParseNat(s: string): nat
    requires |s| >= 1 && AllDigits(s)
    decreases |s|
  {
    if |s| == 1 then DigitValue(s[0])
    else ParseNat(s[..|s| - 1]) * 10 + DigitValue(s[|s| - 1])
  }

  /** `int(s)` on an optionally signed string of digits. */
  function ParseInt(s: string): (i: int)
    requires |s| >= 1
    requires s[0] == '-' ==> |s| >= 2 && AllDigits(s[1..])
    requires s[0] != '-' ==> AllDigits(s)
  {
    if s[0] == '-' then 0 - ParseNat(s[1..]) else ParseNat(s)
  }

  /** The decimal numeral of n reads back as n. */
  lemma {:induction false} ParseNatToString(n: nat)
    ensures ParseNat(NatToString(n)) == n
    decreases n
  {
    if n >= 10 {
      var s := NatToString(n);
      ParseNatToString(n / 10);
      assert s[..|s| - 1] == NatToString(n / 10);
    }
  }

  /** The decimal numeral of i reads back as i, so distinct ints print differently. */
  lemma ParseIntToString(i: int)
    ensures ParseInt(IntToString(i)) == i
  {
    if i < 0 {
      NegativeReadsBack(i);
    } else {
      var s := NatToString(i);
      ParseNatToString(i);
      assert IsDigit(s[0]);
    }
  }

  lemma NegativeReadsBack(i: int)
    requires i < 0
    ensures ParseInt(IntToString(i)) == i
  {
    var n: nat := -i;
    var digits := NatToString(n);
    assert IntToString(i) == "-" + digits;
    ParseNatToString(n);
    ParseSigned(digits);
  }

  /** A minus sign in front of a numeral negates its value. */
  lemma ParseSigned(digits: string)
    requires |digits| >= 1 && AllDigits(digits)
    ensures ParseInt("-" + digits) == 0 - ParseNat(digits)
  {
    assert ("-" + digits)[1..] == digits;
  }

  lemma IntToStringInjective(i: int, j: int)
    requires IntToString(i) == IntToString(j)
    ensures i == j
  {
    ParseIntToString(i);
    ParseIntToString(j);
  }

  // ---------------------------------------------------------------------
  // Python's repr() of a str, as `f"{x!r}"` shows it.

  /** repr uses double quotes when the text has a single quote and no double quote. */
  function ReprQuote(s: string): char {
    if '\'' in s && '"' !in s then '"' else '\''
  }

  function HexDigit(d: nat): char
    requires d < 16
  {
    "0123456789abcdef"[d]
  }

  /** How repr writes one character inside quotes `q`. */
  function ReprChar(c: char, q: char): string {
    if c == q || c == '\\' then ['\\', c]
    else if c == '\n' then "\\n"
    else if c == '\r' then "\\r"
    else if c == '\t' then "\\t"
    else if c as int < 32 || c as int == 127 then "\\x" + [HexDigit(c as int / 16), HexDigit(c as int % 16)]
    else [c]
  }

  function ReprBody(s: string, q: char): string
    decreases |s|
  {
    if s == [] then "" else ReprChar(s[0], q) + ReprBody(s[1..], q)
  }

  function Repr(s: string): (r: string)
    ensures |r| >= 2 && r[0] == ReprQuote(s) && r[|r| - 1] == ReprQuote(s)
  {
    [ReprQuote(s)] + ReprBody(s, ReprQuote(s)) + [ReprQuote(s)]
  }

  /** A printable ASCII character that repr writes as itself. */
  predicate PlainChar(c: char) {
    c != '\'' && c != '"' && c != '\\' && 32 <= c as int < 127
  }

  /** Text with only plain characters is shown by repr between single quotes, unchanged. */
  lemma {:induction false} ReprOfPlain(s: string)
    requires forall i :: 0 <= i < |s| ==> PlainChar(s[i])
    ensures Repr(s) == "'" + s + "'"
  {
    ReprBodyOfPlain(s, '\'');
  }

  lemma {:induction false} ReprBodyOfPlain(s: string, q: char)
    requires forall i :: 0 <= i < |s| ==> PlainChar(s[i])
    requires q == '\'' || q == '"'
    ensures ReprBody(s, q) == s
    decreases |s|
  {
    if s != [] {
      ReprBodyOfPlain(s[1..], q);
      assert s == [s[0]] + s[1..];
    }
  }
}
