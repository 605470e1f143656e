/** The Python `str` operations the backend uses on request data:
    `find`, `in`, `startswith`, `split` with an explicit separator,
    `rstrip` of one character, and `int()` of a string. */
module Strings {
  import opened Runtime

  // ---------------------------------------------------------------------------
  // Searching

  /** `sep` occurs in `s` starting at index `i`. */
  predicate OccursAt(s: string, sep: string, i: nat) {
    i + |sep| <= |s| && s[i..i + |sep|] == sep
  }

  /** `s.find(sep, from)`: the first index at or after `from` where `sep` occurs. */
  function Find(s: string, sep: string, from: nat): (r: Option<nat>)
    decreases |s| - from
    ensures r.Some? ==> from <= r.value && OccursAt(s, sep, r.value)
    ensures forall k: nat :: from <= k && (r.None? || k < r.value) ==> !OccursAt(s, sep, k)
  {
    if from + |sep| > |s| then None
    else if OccursAt(s, sep, from) then Some(from)
    else Find(s, sep, from + 1)
  }

  /** `sep in s` */
  predicate Contains(s: string, sep: string) {
    Find(s, sep, 0).Some?
  }

  /** `s.startswith(prefix)` */
  predicate StartsWith(s: string, prefix: string) {
    |prefix| <= |s| && s[..|prefix|] == prefix
  }

  /** A string that does not contain `sep` has no occurrence of it at any index. */
  lemma NotContainsNowhere(s: string, sep: string)
    requires !Contains(s, sep)
    ensures forall k: nat :: !OccursAt(s, sep, k)
  {
  }

  /** An occurrence inside a slice is an occurrence in the whole string. */
  lemma OccursInSlice(s: string, sep: string, lo: nat, hi: nat, k: nat)
    requires lo <= hi <= |s|
    ensures OccursAt(s[lo..hi], sep, k) ==> OccursAt(s, sep, lo + k)
  {
    var t := s[lo..hi];
    if OccursAt(t, sep, k) {
      forall j | 0 <= j < |sep| ensures s[lo + k + j] == sep[j] {
        assert t[k..k + |sep|][j] == t[k + j] == s[lo + k + j];
      }
      assert s[lo + k..lo + k + |sep|] == sep;
    }
  }

  // ---------------------------------------------------------------------------
  // Splitting

  /** `s.split(sep)` for a non-empty separator: the pieces between the
      non-overlapping occurrences of `sep`, found scanning left to right. */
  function Split(s: string, sep: string): (parts: seq<string>)
    requires sep != []
    decreases |s|
    ensures |parts| >= 1
  {
    match Find(s, sep, 0)
    case None => [s]
    case Some(i) => [s[..i]] + Split(s[i + |sep|..], sep)
  }

  /** `sep.join(parts)` */
  function Join(parts: seq<string>, sep: string): string
    decreases |parts|
  {
    if parts == [] then ""
    else if |parts| == 1 then parts[0]
    else parts[0] + sep + Join(parts[1..], sep)
  }

  /** Splitting loses nothing: joining the pieces back gives the string. */
  lemma {:induction false} SplitJoin(s: string, sep: string)
    requires sep != []
    ensures Join(Split(s, sep), sep) == s
    decreases |s|
  {
    match Find(s, sep, 0)
    case None =>
    case Some(i) =>
      var head, rest := s[..i], s[i + |sep|..];
      SplitJoin(rest, sep);
      SplitUnfold(s, sep, i);
      JoinCons(head, Split(rest, sep), sep);
      Reassemble(s, sep, i);
      calc {
        Join(Split(s, sep), sep);
        Join([head] + Split(rest, sep), sep);
        head + sep + Join(Split(rest, sep), sep);
        head + sep + rest;
        s;
      }
  }

  /** One step of `split`: the text before the first separator, then the split of the rest. */
  lemma SplitUnfold(s: string, sep: string, i: nat)
    requires sep != [] && Find(s, sep, 0) == Some(i)
    ensures Split(s, sep) == [s[..i]] + Split(s[i + |sep|..], sep)
  {
  }

  lemma JoinCons(head: string, tail: seq<string>, sep: string)
    requires |tail| >= 1
    ensures Join([head] + tail, sep) == head + sep + Join(tail, sep)
  {
    assert ([head] + tail)[1..] == tail;
  }

  lemma Reassemble(s: string, sep: string, i: nat)
    requires OccursAt(s, sep, i)
    ensures s == s[..i] + sep + s[i + |sep|..]
  {
    assert s == s[..i] + s[i..i + |sep|] + s[i + |sep|..];
  }

  /** No piece of a split contains the separator. */
  lemma {:induction false} SplitPiecesFree(s: string, sep: string)
    requires sep != []
    ensures forall p :: p in Split(s, sep) ==> !Contains(p, sep)
    decreases |s|
  {
    match Find(s, sep, 0)
    case None =>
    case Some(i) =>
      var rest := s[i + |sep|..];
      SplitPiecesFree(rest, sep);
      var head := s[..i];
      forall k: nat ensures !OccursAt(head, sep, k) {
        OccursInSlice(s, sep, 0, i, k);
      }
      assert Split(s, sep) == [head] + Split(rest, sep);
  }

  /** The first piece is the text before the first occurrence (or all of `s`). */
  lemma SplitFirst(s: string, sep: string)
    requires sep != []
    ensures Split(s, sep)[0] == match Find(s, sep, 0) case None => s case Some(i) => s[..i]
  {
  }

  /** Splitting on a single character gives one piece more than there are
      occurrences of that character. */
  lemma {:induction false} SplitCharCount(s: string, c: char)
    ensures |Split(s, [c])| == multiset(s)[c] + 1
    decreases |s|
  {
    match Find(s, [c], 0)
    case None =>
      forall k | 0 <= k < |s| ensures s[k] != c {
        assert s[k..k + 1] == [s[k]];
        assert !OccursAt(s, [c], k);
      }
      assert c !in multiset(s);
    case Some(i) =>
      var rest := s[i + 1..];
      SplitCharCount(rest, c);
      assert s[i..i + 1] == [c];
      forall k | 0 <= k < i ensures s[k] != c {
        assert s[k..k + 1] == [s[k]];
        assert !OccursAt(s, [c], k);
      }
      assert c !in multiset(s[..i]);
      assert s == s[..i] + [c] + rest;
      assert multiset(s) == multiset(s[..i]) + multiset([c]) + multiset(rest);
  }

  /** A string without `c` splits into itself alone. */
  lemma SplitCharAbsent(s: string, c: char)
    requires c !in s
    ensures Split(s, [c]) == [s]
  {
    forall k: nat | k + 1 <= |s| ensures !OccursAt(s, [c], k) {
      assert s[k..k + 1] == [s[k]];
    }
  }

  /** `(a + c + b).split(c) == [a, b]` when neither side contains `c`. */
  lemma SplitCharPair(a: string, b: string, c: char)
    requires c !in a && c !in b
    ensures Split(a + [c] + b, [c]) == [a, b]
  {
    var s := a + [c] + b;
    assert OccursAt(s, [c], |a|) by { assert s[|a|..|a| + 1] == [c]; }
    forall k: nat | k < |a| ensures !OccursAt(s, [c], k) {
      assert s[k..k + 1] == [a[k]];
    }
    assert Find(s, [c], 0) == Some(|a|);
    assert s[..|a|] == a;
    assert s[|a| + 1..] == b;
    SplitCharAbsent(b, c);
  }

  // ---------------------------------------------------------------------------
  // Stripping

  /** `s.rstrip(c)` for one character: every trailing `c` is removed. */
  function RStrip(s: string, c: char): (r: string)
    decreases |s|
    ensures |r| <= |s|
    ensures r == [] || r[|r| - 1] != c
  {
    if s != [] && s[|s| - 1] == c then RStrip(s[..|s| - 1], c) else s
  }

  /** `RStrip` keeps a prefix of `s`, that prefix does not end in `c`, and
      everything it removed was `c`. */
  lemma {:induction false} RStripShape(s: string, c: char)
    ensures |RStrip(s, c)| <= |s| && RStrip(s, c) == s[..|RStrip(s, c)|]
    ensures RStrip(s, c) == [] || RStrip(s, c)[|RStrip(s, c)| - 1] != c
    ensures forall k :: |RStrip(s, c)| <= k < |s| ==> s[k] == c
    decreases |s|
  {
    if s != [] && s[|s| - 1] == c {
      var t := s[..|s| - 1];
      RStripShape(t, c);
      assert RStrip(s, c) == RStrip(t, c);
      var n := |RStrip(t, c)|;
      assert t[..n] == s[..n];
    }
  }

  /** The whitespace Python's `str.strip()` removes, restricted to ASCII. */
  predicate IsSpace(ch: char) {
    ch == ' ' || ch == '\t' || ch == '\n' || ch == '\r' || ch == '\U{B}' || ch == '\U{C}'
    || ch == '\U{1C}' || ch == '\U{1D}' || ch == '\U{1E}' || ch == '\U{1F}'
  }

  function TrimLeft(s: string): string
    decreases |s|
  {
    if s != [] && IsSpace(s[0]) then TrimLeft(s[1..]) else s
  }

  function TrimRight(s: string): string
    decreases |s|
  {
    if s != [] && IsSpace(s[|s| - 1]) then TrimRight(s[..|s| - 1]) else s
  }

  /** `s.strip()` */
  function Strip(s: string): string {
    TrimRight(TrimLeft(s))
  }

  // ---------------------------------------------------------------------------
  // int() of a string

  predicate IsDigit(ch: char) {
    '0' <= ch <= '9'
  }

  function DigitValue(ch: char): nat
    requires IsDigit(ch)
  {
    (ch as int) - ('0' as int)
  }

  function DigitChar(d: nat): (ch: char)
    requires d < 10
    ensures IsDigit(ch) && DigitValue(ch) == d
  {
    ('0' as int + d) as char
  }

  /** Decimal digits with single underscores between them, the body `int()`
      accepts after the sign: `7`, `007`, `1_000`, but not `_1`, `1_` or `1__0`. */
  predicate WellFormedDigits(d: string) {
    && |d| > 0
    && IsDigit(d[0])
    && IsDigit(d[|d| - 1])
    && (forall i :: 0 <= i < |d| ==> IsDigit(d[i]) || d[i] == '_')
    && (forall i :: 0 <= i < |d| - 1 ==> IsDigit(d[i]) || IsDigit(d[i + 1]))
  }

  /** The number the digits denote, underscores ignored. */
  function DigitsValue(d: string): nat
    requires forall i :: 0 <= i < |d| ==> IsDigit(d[i]) || d[i] == '_'
    decreases |d|
  {
    if d == [] then 0
    else if d[|d| - 1] == '_' then DigitsValue(d[..|d| - 1])
    else DigitsValue(d[..|d| - 1]) * 10 + DigitValue(d[|d| - 1])
  }

  /** `int(s)` for a str: surrounding whitespace, an optional sign, then
      well-formed decimal digits; None where Python raises ValueError. */
  function ParseInt(s: string): (r: Option<int>)
    ensures Strip(s) == [] ==> r.None?
    ensures r.Some? && r.value < 0 ==> Strip(s)[0] == '-'
  {
    var t := Strip(s);
    if t != [] && (t[0] == '+' || t[0] == '-') then
      var d := t[1..];
      if WellFormedDigits(d) then
        var v: int := DigitsValue(d);
        Some(if t[0] == '-' then -v else v)
      else None
    else if WellFormedDigits(t) then Some(DigitsValue(t))
    else None
  }

  /** `str(n)` for a natural number. */
  function NatToString(n: nat): (s: string)
    decreases n
    ensures |s| > 0 && forall i :: 0 <= i < |s| ==> IsDigit(s[i])
  {
    if n < 10 then [DigitChar(n)] else NatToString(n / 10) + [DigitChar(n % 10)]
  }

  /** `str(n)` */
  function IntToString(n: int): string {
    if n < 0 then "-" + NatToString(-n) else NatToString(n)
  }

  lemma {:induction false} NatToStringValue(n: nat)
    ensures DigitsValue(NatToString(n)) == n
    decreases n
  {
    if n >= 10 {
      NatToStringValue(n / 10);
      var s := NatToString(n);
      assert s[..|s| - 1] == NatToString(n / 10);
    }
  }

  lemma TrimsOfDigitString(t: string)
    requires t != [] && !IsSpace(t[0]) && !IsSpace(t[|t| - 1])
    ensures Strip(t) == t
  {
  }

  lemma DigitRunWellFormed(d: string)
    requires |d| > 0 && forall i :: 0 <= i < |d| ==> IsDigit(d[i])
    ensures WellFormedDigits(d) && !IsSpace(d[0]) && !IsSpace(d[|d| - 1])
  {
    assert IsDigit(d[0]) && IsDigit(d[|d| - 1]);
  }

  /** A non-empty run of digits reads as its value. */
  lemma ParseDigits(d: string)
    requires |d| > 0 && forall i :: 0 <= i < |d| ==> IsDigit(d[i])
    ensures ParseInt(d) == Some(DigitsValue(d))
  {
    DigitRunWellFormed(d);
    TrimsOfDigitString(d);
  }

  lemma ParseNegated(d: string, s: string)
    requires WellFormedDigits(d) && s == "-" + d && s[1..] == d && Strip(s) == s
    ensures ParseInt(s) == Some(-(DigitsValue(d) as int))
  {
  }

  lemma NegatedDigitsStripped(d: string)
    requires |d| > 0 && forall i :: 0 <= i < |d| ==> IsDigit(d[i])
    ensures ("-" + d)[1..] == d && Strip("-" + d) == "-" + d
  {
    var s := "-" + d;
    assert s[0] == '-' && s[|s| - 1] == d[|d| - 1] && s[1..] == d;
    DigitRunWellFormed(d);
    TrimsOfDigitString(s);
  }

  /** A minus sign before a non-empty run of digits reads as the negated value. */
  lemma ParseNegatedDigits(d: string)
    requires |d| > 0 && forall i :: 0 <= i < |d| ==> IsDigit(d[i])
    ensures ParseInt("-" + d) == Some(-(DigitsValue(d) as int))
  {
    NegatedDigitsStripped(d);
    DigitRunWellFormed(d);
    ParseNegated(d, "-" + d);
  }

  /** `int(str(n)) == n`: every integer the backend prints it can read back. */
  lemma ParseIntRoundTrip(n: int)
    ensures ParseInt(IntToString(n)) == Some(n)
  {
    var m: nat := if n < 0 then -n else n;
    var digits := NatToString(m);
    NatToStringValue(m);
    if n < 0 {
      assert IntToString(n) == "-" + digits;
      ParseNegatedDigits(digits);
    } else {
      assert IntToString(n) == digits;
      ParseDigits(digits);
    }
  }
}
