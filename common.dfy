/** Value types and small sequence and text helpers shared by every module of the
    kart-race logger model. Text is modelled as `string` (a sequence of characters);
    only the ASCII behaviour of the Python and JavaScript string methods is captured. */
module Common {

  datatype Option<+T> = None | Some(value: T)

  datatype Result<+T, +E> = Ok(value: T) | Err(error: E)

  /** One cell of the results log: the "DNR" sentinel, an empty cell (pandas reads
      it as NaN, JSON as null) or a value. A missing map key stands for a missing
      column or for an empty cell, as each module says. */
  datatype Cell<+T> = DNR | Blank | Val(v: T)

  /** The placeholder every combobox of the logging forms starts with. */
  const SelectLabel: string := "-- Select --"

  predicate Distinct<T(==)>(s: seq<T>) {
    forall i, j :: 0 <= i < j < |s| ==> s[i] != s[j]
  }

  /** The players of a roster list, as a set (the keys of a dictionary built over it). */
  function RosterSet(roster: seq<string>): set<string> {
    set p | p in roster
  }

  function Min(a: int, b: int): int { if a <= b then a else b }

  function MaxReal(a: real, b: real): real { if a >= b then a else b }

  /** A total of `lo` to `hi` per item averages to a value between `lo` and `hi`. */
  lemma RatioWithin(x: int, n: nat, lo: int, hi: int)
    requires n > 0 && lo * n <= x <= hi * n
    ensures lo as real <= x as real / n as real <= hi as real
  {
    var q, m := x as real / n as real, n as real;
    assert q * m == x as real;
    assert (lo * n) as real == lo as real * m && (hi * n) as real == hi as real * m;
    NonNegativeFactor(q - lo as real, m);
    NonNegativeFactor(hi as real - q, m);
  }

  lemma NonNegativeFactor(a: real, m: real)
    requires m > 0.0 && a * m >= 0.0
    ensures a >= 0.0
  {
    assert a < 0.0 ==> a * m < 0.0;
  }

  // ---------------------------------------------------------------------------
  // Filtering and counting over sequences (defined from the end, the way
  // the source's loops append)

  /** A non-empty sequence is its front followed by its last element. */
  lemma FrontLast<T>(s: seq<T>)
    requires s != []
    ensures s[..|s| - 1] + [s[|s| - 1]] == s
  {
  }

  function Filter<T>(s: seq<T>, keep: T -> bool): (r: seq<T>)
    ensures |r| <= |s|
    ensures forall x :: x in r ==> x in s && keep(x)
  {
    if s == [] then []
    else Filter(s[..|s| - 1], keep) + (if keep(s[|s| - 1]) then [s[|s| - 1]] else [])
  }

  function Count<T>(s: seq<T>, keep: T -> bool): (n: nat)
    ensures n <= |s|
  {
    if s == [] then 0
    else Count(s[..|s| - 1], keep) + (if keep(s[|s| - 1]) then 1 else 0)
  }

  lemma {:induction false} CountAll<T>(s: seq<T>, keep: T -> bool)
    requires forall x :: x in s ==> keep(x)
    ensures Count(s, keep) == |s|
  {
    if s != [] {
      assert forall x :: x in s[..|s| - 1] ==> x in s;
      CountAll(s[..|s| - 1], keep);
    }
  }

  // ---------------------------------------------------------------------------
  // Characters and text

  predicate IsDigit(c: char) { '0' <= c <= '9' }

  predicate AllDigits(s: string) { forall i :: 0 <= i < |s| ==> IsDigit(s[i]) }

  /** Python's `str.isdigit()` on ASCII text: non-empty and every character a digit. */
  predicate IsDigitText(s: string) { |s| > 0 && AllDigits(s) }

  function DigitValue(c: char): (d: nat)
    requires IsDigit(c)
    ensures d <= 9
  {
    (c as int) - ('0' as int)
  }

  /** The value of a string of decimal digits, as `int()` reads it. */
  function DigitsValue(s: string): (n: nat)
    requires AllDigits(s)
  {
    if s == [] then 0 else 10 * DigitsValue(s[..|s| - 1]) + DigitValue(s[|s| - 1])
  }

  /** Python's whitespace in the ASCII range (`str.isspace`, `\s`): tab, line feed,
      vertical tab, form feed, carriage return, the four separators 0x1C-0x1F, space. */
  predicate IsSpace(c: char) { 9 <= c as int <= 13 || 28 <= c as int <= 32 }

  /** JavaScript's `trim` whitespace in the ASCII range. */
  predicate IsJsSpace(c: char) { 9 <= c as int <= 13 || c == ' ' }

  predicate IsUpper(c: char) { 'A' <= c <= 'Z' }

  function LowerChar(c: char): (d: char)
    ensures IsUpper(c) ==> d as int == c as int + 32
    ensures !IsUpper(c) ==> d == c
  {
    if IsUpper(c) then (c as int + 32) as char else c
  }

  /** `str.lower()` / `toLowerCase()` on ASCII letters. */
  function Lower(s: string): (r: string)
    ensures |r| == |s|
    ensures forall i :: 0 <= i < |s| ==> r[i] == LowerChar(s[i])
  {
    seq(|s|, i requires 0 <= i < |s| => LowerChar(s[i]))
  }

  function LeadingCount(s: string, ws: char -> bool): (n: nat)
    ensures n <= |s|
    ensures forall k :: 0 <= k < n ==> ws(s[k])
    ensures n < |s| ==> !ws(s[n])
  {
    if s == [] || !ws(s[0]) then 0 else 1 + LeadingCount(s[1..], ws)
  }

  function TrailingCount(s: string, ws: char -> bool): (n: nat)
    ensures n <= |s|
    ensures forall k :: |s| - n <= k < |s| ==> ws(s[k])
    ensures n < |s| ==> !ws(s[|s| - n - 1])
  {
    if s == [] || !ws(s[|s| - 1]) then 0 else 1 + TrailingCount(s[..|s| - 1], ws)
  }

  /** Removes the leading and trailing characters that satisfy `ws`: Python's
      `strip()` with `IsSpace`, JavaScript's `trim()` with `IsJsSpace`. */
  function StripBy(s: string, ws: char -> bool): (r: string)
    ensures exists a, b :: (0 <= a <= b <= |s| && r == s[a..b] &&
                            (forall k :: 0 <= k < a ==> ws(s[k])) && (forall k :: b <= k < |s| ==> ws(s[k])))
    ensures r != [] ==> !ws(r[0]) && !ws(r[|r| - 1])
  {
    var a := LeadingCount(s, ws);
    var t := s[a..];
    var b := TrailingCount(t, ws);
    assert t[..|t| - b] == s[a..a + |t| - b];
    t[..|t| - b]
  }

  function Strip(s: string): string { StripBy(s, IsSpace) }

  /** Text without blanks at either end is its own `strip()`. */
  lemma StripPlain(s: string, ws: char -> bool)
    requires s != [] && !ws(s[0]) && !ws(s[|s| - 1])
    ensures StripBy(s, ws) == s
  {
    assert LeadingCount(s, ws) == 0;
    assert s[0..] == s;
    assert TrailingCount(s, ws) == 0;
  }

  /** Whether `sub` occurs in `s` at position `i`, and anywhere (Python's `in` on strings). */
  predicate OccursAt(sub: string, s: string, i: nat) {
    i + |sub| <= |s| && s[i..i + |sub|] == sub
  }

  predicate Contains(s: string, sub: string) {
    exists i :: 0 <= i <= |s| && OccursAt(sub, s, i)
  }

  /** Python's `str.split(sep)` with a one-character separator: the pieces between
      separators, empty ones included. */
  function SplitOn(s: string, sep: char): (pieces: seq<string>)
    ensures |pieces| >= 1
    ensures forall k :: 0 <= k < |pieces| ==> sep !in pieces[k]
  {
    if s == [] then [""]
    else
      var rest := SplitOn(s[1..], sep);
      if s[0] == sep then [""] + rest
      else [[s[0]] + rest[0]] + rest[1..]
  }

  /** Text without the separator is a single piece. */
  lemma {:induction false} SplitOnNone(s: string, sep: char)
    requires sep !in s
    ensures SplitOn(s, sep) == [s]
  {
    if s != [] {
      assert s[0] != sep && sep !in s[1..];
      SplitOnNone(s[1..], sep);
      assert [s[0]] + s[1..] == s;
    }
  }

  /** The text before the first separator is the first piece. */
  lemma {:induction false} SplitOnPrefix(a: string, b: string, sep: char)
    requires sep !in a
    ensures SplitOn(a + [sep] + b, sep) == [a] + SplitOn(b, sep)
  {
    if a == [] {
      assert (a + [sep] + b)[1..] == b;
    } else {
      assert (a + [sep] + b)[1..] == a[1..] + [sep] + b;
      assert sep !in a[1..];
      SplitOnPrefix(a[1..], b, sep);
      assert [a[0]] + a[1..] == a;
    }
  }

  /** `sep.join(pieces)`. */
  function JoinWith(pieces: seq<string>, sep: char): string
    requires |pieces| >= 1
  {
    if |pieces| == 1 then pieces[0] else pieces[0] + [sep] + JoinWith(pieces[1..], sep)
  }

  /** Splitting and joining back on the same separator gives the text back. */
  lemma {:induction false} SplitJoin(s: string, sep: char)
    ensures JoinWith(SplitOn(s, sep), sep) == s
  {
    if s != [] {
      var rest := SplitOn(s[1..], sep);
      SplitJoin(s[1..], sep);
      if s[0] != sep && |rest| > 1 {
        assert rest == [rest[0]] + rest[1..];
        assert JoinWith(rest, sep) == rest[0] + [sep] + JoinWith(rest[1..], sep);
      }
    }
  }

  /** Ordinal (code-unit) lexicographic order on text: Python's `<=` on `str`. */
  predicate StrLe(a: string, b: string) {
    a == [] || (b != [] && (a[0] < b[0] || (a[0] == b[0] && StrLe(a[1..], b[1..]))))
  }

  lemma {:induction false} StrLeTotal(a: string, b: string)
    ensures StrLe(a, b) || StrLe(b, a)
    ensures StrLe(a, b) && StrLe(b, a) ==> a == b
  {
    if a != [] && b != [] && a[0] == b[0] {
      StrLeTotal(a[1..], b[1..]);
      assert a == [a[0]] + a[1..] && b == [b[0]] + b[1..];
    }
  }

  lemma {:induction false} StrLeTransitive(a: string, b: string, c: string)
    requires StrLe(a, b) && StrLe(b, c)
    ensures StrLe(a, c)
  {
    if a != [] && b != [] && c != [] && a[0] == b[0] && b[0] == c[0] {
      StrLeTransitive(a[1..], b[1..], c[1..]);
    }
  }

  // ---------------------------------------------------------------------------
  // Python's `float()` on decimal text

  /** An optional leading sign: its factor and the rest of the text. */
  function Signed(t: string): (int, string) {
    if |t| > 0 && t[0] == '-' then (-1, t[1..]) else if |t| > 0 && t[0] == '+' then (1, t[1..]) else (1, t)
  }

  function Pow10(n: nat): (p: nat)
    ensures p >= 1
  {
    if n == 0 then 1 else 10 * Pow10(n - 1)
  }

  /** Digits, optionally a point and more digits, at least one digit in all. */
  function Unsigned(u: string): Option<real> {
    var k := LeadingCount(u, IsDigit);
    if k == |u| && k > 0 then Some(DigitsValue(u) as real)
    else if k < |u| && u[k] == '.' && AllDigits(u[k + 1..]) && |u| > 1 then
      Some(DigitsValue(u[..k]) as real + DigitsValue(u[k + 1..]) as real / Pow10(|u| - k - 1) as real)
    else None
  }

  /** `float(s)` on plain decimal text (surrounding blanks, a sign, digits with at most one
      point), or None where it raises; exponents, `inf`, `nan` and underscores are not read. */
  function PyFloat(s: string): Option<real> {
    var (sign, body) := Signed(Strip(s));
    match Unsigned(body)
    case Some(v) => Some(sign as real * v)
    case None => None
  }
}
