/** Option and Result types, and the Python exceptions the modelled scripts can raise. */
module Wrappers {

  datatype Option<T> = None | Some(value: T)

  /** The Python exception classes that the modelled code raises on bad input. */
  datatype PyError = KeyError | IndexError | ValueError | AssertionError

  /** A value, or the exception Python would have raised instead. */
  datatype Result<T> = Ok(value: T) | Err(error: PyError)
}

/**
 * The few Python string operations the scripts rely on, written out:
 * `str.strip()`, `str.split(',')`, `str.rfind`, `str(int)`, `f"{n:03}"`,
 * `int(str)` in base 10, and the code-point order `sorted` uses on names.
 */
module PyText {
  import opened Wrappers

  // ---------------------------------------------------------------------
  // Whitespace and strip()

  /** `c.isspace()`: the characters `str.strip()` removes when given no argument. */
  predicate IsSpace(c: char) {
    || c == ' ' || ('\t' <= c <= '\r') || ('\U{1C}' <= c <= '\U{1F}')
    || c == '\U{85}' || c == '\U{A0}' || c == '\U{1680}'
    || ('\U{2000}' <= c <= '\U{200A}') || c == '\U{2028}' || c == '\U{2029}'
    || c == '\U{202F}' || c == '\U{205F}' || c == '\U{3000}'
  }

  /** `s.lstrip()`: the longest suffix of `s` that does not start with whitespace. */
  function LStrip(s: string): (r: string)
    ensures |r| <= |s| && r == s[|s| - |r|..]
    ensures forall i :: 0 <= i < |s| - |r| ==> IsSpace(s[i])
    ensures r != [] ==> !IsSpace(r[0])
  {
    if s != [] && IsSpace(s[0]) then
      var r := LStrip(s[1..]);
      assert forall i :: 1 <= i < |s| ==> s[i] == s[1..][i - 1];
      r
    else s
  }

  /** `s.rstrip()`: the longest prefix of `s` that does not end with whitespace. */
  function RStrip(s: string): (r: string)
    ensures |r| <= |s| && r == s[..|r|]
    ensures forall i :: |r| <= i < |s| ==> IsSpace(s[i])
    ensures r != [] ==> !IsSpace(r[|r| - 1])
  {
    if s != [] && IsSpace(s[|s| - 1]) then
      var r := RStrip(s[..|s| - 1]);
      assert forall i :: 0 <= i < |s| - 1 ==> s[i] == s[..|s| - 1][i];
      r
    else s
  }

  /** `s.strip()`. */
  function Strip(s: string): (r: string)
    ensures r != [] ==> !IsSpace(r[0]) && !IsSpace(r[|r| - 1])
  {
    RStrip(LStrip(s))
  }

  /** A string that neither starts nor ends with whitespace is its own strip(). */
  lemma StripTrimmed(s: string)
    requires s != [] ==> !IsSpace(s[0]) && !IsSpace(s[|s| - 1])
    ensures Strip(s) == s
  {
  }

  /** Whitespace around a trimmed string is exactly what strip() removes. */
  lemma {:induction false} StripPadded(pre: string, s: string, post: string)
    requires forall i :: 0 <= i < |pre| ==> IsSpace(pre[i])
    requires forall i :: 0 <= i < |post| ==> IsSpace(post[i])
    requires s != [] && !IsSpace(s[0]) && !IsSpace(s[|s| - 1])
    ensures Strip(pre + s + post) == s
  {
    LStripSpaces(pre, s + post);
    assert pre + s + post == pre + (s + post);
    RStripSpaces(s, post);
  }

  lemma {:induction false} LStripSpaces(pre: string, s: string)
    requires forall i :: 0 <= i < |pre| ==> IsSpace(pre[i])
    requires s != [] && !IsSpace(s[0])
    ensures LStrip(pre + s) == s
  {
    if pre != [] {
      assert (pre + s)[1..] == pre[1..] + s;
      LStripSpaces(pre[1..], s);
    }
  }

  lemma {:induction false} RStripSpaces(s: string, post: string)
    requires forall i :: 0 <= i < |post| ==> IsSpace(post[i])
    requires s != [] && !IsSpace(s[|s| - 1])
    ensures RStrip(s + post) == s
  {
    if post != [] {
      assert (s + post)[..|s + post| - 1] == s + post[..|post| - 1];
      RStripSpaces(s, post[..|post| - 1]);
    } else {
      assert s + post == s;
    }
  }

  // ---------------------------------------------------------------------
  // split(',') and its inverse ','.join

  /** `s.split(',')`: the fields between commas, at least one, none holding a comma. */
  function Split(s: string): (parts: seq<string>)
    ensures |parts| >= 1
    ensures forall k :: 0 <= k < |parts| ==> ',' !in parts[k]
    ensures (|parts| > 1) <==> ',' in s
  {
    if s == [] then [""]
    else if s[0] == ',' then [""] + Split(s[1..])
    else
      var rest := Split(s[1..]);
      [[s[0]] + rest[0]] + rest[1..]
  }

  /** `','.join(parts)`. */
  function Join(parts: seq<string>): string
    requires |parts| >= 1
  {
    if |parts| == 1 then parts[0] else parts[0] + "," + Join(parts[1..])
  }

  /** Joining the fields of a split gives back the string. */
  lemma {:induction false} JoinSplit(s: string)
    ensures Join(Split(s)) == s
  {
    if s != [] {
      var rest := Split(s[1..]);
      JoinSplit(s[1..]);
      if s[0] == ',' {
        JoinEmptyFirst(rest);
      } else {
        JoinCons(s[0], rest);
      }
      assert [s[0]] + s[1..] == s;
    }
  }

  lemma JoinEmptyFirst(rest: seq<string>)
    requires |rest| >= 1
    ensures Join([""] + rest) == "," + Join(rest)
  {
    assert ([""] + rest)[1..] == rest;
  }

  lemma ConsAssoc(c: char, a: string, j: string)
    ensures [c] + a + "," + j == [c] + (a + "," + j)
  {
  }

  lemma JoinCons(c: char, rest: seq<string>)
    requires |rest| >= 1
    ensures Join([[c] + rest[0]] + rest[1..]) == [c] + Join(rest)
  {
    var parts := [[c] + rest[0]] + rest[1..];
    if |rest| > 1 {
      assert parts[1..] == rest[1..];
      var j := Join(rest[1..]);
      assert Join(parts) == [c] + rest[0] + "," + j;
      assert Join(rest) == rest[0] + "," + j;
      ConsAssoc(c, rest[0], j);
    }
  }

  /** Splitting fields joined by commas gives back the fields, when none holds a comma. */
  lemma {:induction false} SplitJoin(parts: seq<string>)
    requires |parts| >= 1
    requires forall k :: 0 <= k < |parts| ==> ',' !in parts[k]
    ensures Split(Join(parts)) == parts
  {
    if |parts| == 1 {
      SplitNoComma(parts[0]);
    } else {
      SplitJoin(parts[1..]);
      SplitField(parts[0], Join(parts[1..]));
      assert [parts[0]] + parts[1..] == parts;
    }
  }

  lemma {:induction false} SplitNoComma(s: string)
    requires ',' !in s
    ensures Split(s) == [s]
  {
    if s != [] {
      SplitNoComma(s[1..]);
      assert [s[0]] + s[1..] == s;
    }
  }

  /** A comma-free field followed by a comma is the first of the split fields. */
  lemma {:induction false} SplitField(a: string, b: string)
    requires ',' !in a
    ensures Split(a + "," + b) == [a] + Split(b)
  {
    if a == [] {
      assert a + "," + b == [','] + b;
      assert (a + "," + b)[1..] == b;
    } else {
      assert (a + "," + b)[1..] == a[1..] + "," + b;
      SplitField(a[1..], b);
      assert [a[0]] + a[1..] == a;
    }
  }

  // ---------------------------------------------------------------------
  // endswith and rfind

  /** `s.endswith(suffix)`. */
  predicate EndsWith(s: string, suffix: string) {
    |suffix| <= |s| && s[|s| - |suffix|..] == suffix
  }

  // ---------------------------------------------------------------------

  /** `s.rfind(c)`: the last index holding `c`, or -1 when there is none. */
  function RFind(s: string, c: char): (r: int)
    ensures -1 <= r < |s|
    ensures r >= 0 ==> s[r] == c
    ensures forall i :: r < i < |s| ==> s[i] != c
  {
    if s == [] then -1
    else if s[|s| - 1] == c then |s| - 1
    else RFind(s[..|s| - 1], c)
  }

  // ---------------------------------------------------------------------
  // Decimal text: str(n), f"{n:03}" and int(s)

  predicate IsDigit(c: char) { '0' <= c <= '9' }

  function DigitChar(d: nat): char
    requires d < 10
  {
    "0123456789"[d]
  }

  function DigitValue(c: char): nat
    requires IsDigit(c)
  {
    (c as int - '0' as int) as nat
  }

  /** `str(n)` for a non-negative integer: its decimal digits with no leading zero. */
  function NatStr(n: nat): (s: string)
    ensures |s| >= 1 && forall i :: 0 <= i < |s| ==> IsDigit(s[i])
    ensures |s| > 1 ==> s[0] != '0'
  {
    if n < 10 then [DigitChar(n)] else NatStr(n / 10) + [DigitChar(n % 10)]
  }

  /** `str(n)` for any integer. */
  function Str(n: int): string {
    if n < 0 then "-" + NatStr(-n) else NatStr(n)
  }

  /** `f"{n:03}"` for a non-negative integer: zero-filled to at least three digits. */
  function Pad3(n: nat): (s: string)
    ensures |s| >= 3 && forall i :: 0 <= i < |s| ==> IsDigit(s[i])
    ensures n < 1000 ==> |s| == 3
  {
    var digits := NatStr(n);
    NatStrLength(n);
    if |digits| >= 3 then digits else ZeroFill(3 - |digits|) + digits
  }

  /** `k` zero characters. */
  function ZeroFill(k: nat): (z: string)
    ensures |z| == k && forall i :: 0 <= i < k ==> z[i] == '0'
  {
    if k == 0 then "" else "0" + ZeroFill(k - 1)
  }

  lemma {:induction false} NatStrLength(n: nat)
    ensures n < 10 ==> |NatStr(n)| == 1
    ensures n < 100 ==> |NatStr(n)| <= 2
    ensures n < 1000 ==> |NatStr(n)| <= 3
    ensures n >= 1000 ==> |NatStr(n)| >= 4
  {
    if n >= 10 {
      NatStrLength(n / 10);
    }
  }

  /**
   * The digit strings `int()` accepts in base 10: ASCII digits, optionally
   * grouped by single underscores that stand between two digits.
   */
  predicate IsDecimalLiteral(s: string) {
    && |s| > 0 && IsDigit(s[0]) && IsDigit(s[|s| - 1])
    && DigitsOrUnderscores(s)
    && forall i :: 0 <= i < |s| && s[i] == '_' ==> i + 1 < |s| && IsDigit(s[i + 1])
  }

  predicate DigitsOrUnderscores(s: string) {
    forall i :: 0 <= i < |s| ==> IsDigit(s[i]) || s[i] == '_'
  }

  /** The value of a run of digits and underscores, the underscores ignored. */
  function DecimalValue(s: string): nat
    requires DigitsOrUnderscores(s)
  {
    if s == [] then 0
    else if s[|s| - 1] == '_' then DecimalValue(s[..|s| - 1])
    else DecimalValue(s[..|s| - 1]) * 10 + DigitValue(s[|s| - 1])
  }

  /** `int(s)` on a string after strip(): an optional sign, then a decimal literal. */
  function ParseSigned(s: string): Option<int> {
    if |s| > 0 && (s[0] == '-' || s[0] == '+') then
      if IsDecimalLiteral(s[1..]) then
        var v: int := DecimalValue(s[1..]);
        Some(if s[0] == '-' then -v else v)
      else None
    else if IsDecimalLiteral(s) then Some(DecimalValue(s))
    else None
  }

  /** `int(s)`: None where Python raises ValueError. Surrounding whitespace is ignored. */
  function ParseInt(s: string): Option<int> {
    ParseSigned(Strip(s))
  }

  lemma {:induction false} NatStrValue(n: nat)
    ensures DecimalValue(NatStr(n)) == n
  {
    if n >= 10 {
      var s := NatStr(n);
      assert s[..|s| - 1] == NatStr(n / 10);
      NatStrValue(n / 10);
    }
  }

  lemma {:induction false} LeadingZeroValue(s: string)
    requires forall i :: 0 <= i < |s| ==> IsDigit(s[i])
    ensures DecimalValue(['0'] + s) == DecimalValue(s)
  {
    if s != [] {
      assert (['0'] + s)[..|s|] == ['0'] + s[..|s| - 1];
      LeadingZeroValue(s[..|s| - 1]);
    }
  }

  lemma {:induction false} LeadingZerosValue(k: nat, s: string)
    requires forall i :: 0 <= i < |s| ==> IsDigit(s[i])
    ensures DecimalValue(ZeroFill(k) + s) == DecimalValue(s)
  {
    if k > 0 {
      var rest := ZeroFill(k - 1) + s;
      assert ZeroFill(k) + s == ['0'] + rest;
      LeadingZeroValue(rest);
      LeadingZerosValue(k - 1, s);
    } else {
      assert ZeroFill(k) + s == s;
    }
  }

  /** A non-empty run of ASCII digits has no sign and is read as its decimal value. */
  lemma DigitsParse(s: string)
    requires |s| > 0 && forall i :: 0 <= i < |s| ==> IsDigit(s[i])
    ensures ParseSigned(s) == Some(DecimalValue(s))
  {
    assert IsDigit(s[0]) && IsDigit(s[|s| - 1]);
    assert IsDecimalLiteral(s);
  }

  /** A minus sign before a run of digits negates its value. */
  lemma NegativeParse(s: string)
    requires |s| > 0 && forall i :: 0 <= i < |s| ==> IsDigit(s[i])
    ensures ParseSigned("-" + s) == Some(-(DecimalValue(s) as int))
  {
    assert ("-" + s)[1..] == s;
    assert IsDigit(s[0]) && IsDigit(s[|s| - 1]);
    assert IsDecimalLiteral(s);
  }

  /** int(str(n)) == n: the decimal text of every integer parses back to it. */
  lemma StrRoundTrip(n: int)
    ensures ParseInt(Str(n)) == Some(n)
  {
    var m: nat := if n < 0 then -n else n;
    var digits := NatStr(m);
    NatStrValue(m);
    StripTrimmed(Str(n));
    if n < 0 {
      NegativeParse(digits);
    } else {
      DigitsParse(digits);
    }
  }

  /** int(f"{n:03}") == n: the zero-filled ordinal parses back to it. */
  lemma Pad3RoundTrip(n: nat)
    ensures ParseInt(Pad3(n)) == Some(n)
  {
    var digits := NatStr(n);
    NatStrValue(n);
    if |digits| < 3 {
      LeadingZerosValue(3 - |digits|, digits);
    }
    var s := Pad3(n);
    assert DecimalValue(s) == n;
    StripTrimmed(s);
    DigitsParse(s);
  }

  // ---------------------------------------------------------------------
  // Python's order on strings and sorting by name

  /** `a <= b` on Python strings: lexicographic by code point, a prefix first. */
  predicate StrLe(a: string, b: string) {
    a == [] || (b != [] && (a[0] < b[0] || (a[0] == b[0] && StrLe(a[1..], b[1..]))))
  }

  lemma {:induction false} StrLeTotal(a: string, b: string)
    ensures StrLe(a, b) || StrLe(b, a)
  {
    if a != [] && b != [] && a[0] == b[0] {
      StrLeTotal(a[1..], b[1..]);
    }
  }

  predicate SortedByName<T>(s: seq<(string, T)>) {
    forall i :: 0 < i < |s| ==> StrLe(s[i - 1].0, s[i].0)
  }

  function InsertByName<T>(x: (string, T), s: seq<(string, T)>): (r: seq<(string, T)>)
    requires SortedByName(s)
    ensures SortedByName(r)
    ensures multiset(r) == multiset(s) + multiset{x}
    ensures r[0] == x || (s != [] && r[0] == s[0])
  {
    if s == [] then [x]
    else if StrLe(x.0, s[0].0) then [x] + s
    else
      StrLeTotal(x.0, s[0].0);
      var tail := InsertByName(x, s[1..]);
      assert s == [s[0]] + s[1..];
      [s[0]] + tail
  }

  /** `sorted(entries, key=name)`: the same entries, ordered by name. */
  function SortByName<T>(s: seq<(string, T)>): (r: seq<(string, T)>)
    ensures SortedByName(r)
    ensures multiset(r) == multiset(s)
    ensures |r| == |s|
  {
    if s == [] then []
    else
      var r := InsertByName(s[|s| - 1], SortByName(s[..|s| - 1]));
      assert s == s[..|s| - 1] + [s[|s| - 1]];
      assert |r| == |multiset(r)|;
      r
  }

  // ---------------------------------------------------------------------
  // Writing one line per element

  /** `[f(x) for x in xs]`. */
  function Map<A, B>(f: A -> B, xs: seq<A>): (r: seq<B>)
    ensures |r| == |xs|
  {
    seq(|xs|, k requires 0 <= k < |xs| => f(xs[k]))
  }

  /** Writing one more element appends its line. */
  lemma MapSnoc<A, B>(f: A -> B, xs: seq<A>, x: A)
    ensures Map(f, xs + [x]) == Map(f, xs) + [f(x)]
  {
    assert forall k :: 0 <= k < |xs| ==> (xs + [x])[k] == xs[k];
  }
}
