/**
  * Python string operations the data sources rely on, written over
  * `string` (a sequence of Unicode scalar values):
  *   - code-point lexicographic comparison (`str.__lt__`, used by `sorted`
  *     and by `json.dumps(sort_keys=True)`);
  *   - `str.split(sep)` for a non-empty separator, `sep in s`, and its inverse `sep.join`;
  *   - `str.upper()` on ASCII letters;
  *   - `str(n)` and `int(s)` for integers.
  */
module Strings {
  import opened Wrappers

  /** True when every character is in the 7-bit ASCII range. */
  predicate IsAscii(s: string) {
    forall i :: 0 <= i < |s| ==> s[i] as int < 128
  }

  lemma AsciiConcat(a: string, b: string)
    requires IsAscii(a) && IsAscii(b)
    ensures IsAscii(a + b)
  {
    forall i | 0 <= i < |a + b| ensures (a + b)[i] as int < 128 {
      if i >= |a| { assert (a + b)[i] == b[i - |a|]; }
    }
  }

  // ---------------------------------------------------------------------------
  // Ordering: Python compares strings code point by code point, and a proper
  // prefix sorts first.

  predicate Less(a: string, b: string)
    decreases |a|
  {
    if |a| == 0 then |b| > 0
    else if |b| == 0 then false
    else if a[0] != b[0] then a[0] < b[0]
    else Less(a[1..], b[1..])
  }

  predicate LessOrEqual(a: string, b: string) {
    a == b || Less(a, b)
  }

  lemma {:induction false} LessIrreflexive(a: string)
    ensures !Less(a, a)
    decreases |a|
  {
    if |a| > 0 { LessIrreflexive(a[1..]); }
  }

  lemma {:induction false} LessTransitive(a: string, b: string, c: string)
    requires Less(a, b) && Less(b, c)
    ensures Less(a, c)
    decreases |a|
  {
    if |a| > 0 && a[0] == b[0] && b[0] == c[0] {
      LessTransitive(a[1..], b[1..], c[1..]);
    }
  }

  lemma {:induction false} LessTotal(a: string, b: string)
    requires a != b
    ensures Less(a, b) || Less(b, a)
    decreases |a|
  {
    if |a| > 0 && |b| > 0 && a[0] == b[0] {
      assert a == [a[0]] + a[1..] && b == [b[0]] + b[1..];
      LessTotal(a[1..], b[1..]);
    }
  }

  lemma {:induction false} LessAsymmetric(a: string, b: string)
    requires Less(a, b)
    ensures !Less(b, a)
  {
    if Less(b, a) {
      LessTransitive(a, b, a);
      LessIrreflexive(a);
    }
  }

  // ---------------------------------------------------------------------------
  // Searching and splitting

  predicate StartsWith(s: string, prefix: string) {
    |prefix| <= |s| && s[..|prefix|] == prefix
  }

  predicate EndsWith(s: string, suffix: string) {
    |suffix| <= |s| && s[|s| - |suffix|..] == suffix
  }

  /** `sep` occurs in `s` starting at position `k`. */
  predicate OccursAt(s: string, sep: string, k: nat) {
    k + |sep| <= |s| && s[k..k + |sep|] == sep
  }

  /** Index of the first occurrence of `sep` in `s` at or after `k`, if any. */
  function IndexFrom(s: string, sep: string, k: nat): (r: Option<nat>)
    ensures r.Some? ==> k <= r.value && OccursAt(s, sep, r.value)
    decreases |s| - k
  {
    if |s| < k + |sep| then None
    else if OccursAt(s, sep, k) then Some(k)
    else IndexFrom(s, sep, k + 1)
  }

  /** Index of the first occurrence of `sep` in `s` (`str.find`), if any. */
  function IndexOf(s: string, sep: string): (r: Option<nat>)
    requires |sep| > 0
    ensures r.Some? ==> OccursAt(s, sep, r.value)
  {
    IndexFrom(s, sep, 0)
  }

  lemma {:induction false} IndexFromFirst(s: string, sep: string, k: nat)
    ensures IndexFrom(s, sep, k).Some? ==>
      forall j: nat :: k <= j < IndexFrom(s, sep, k).value ==> !OccursAt(s, sep, j)
    ensures IndexFrom(s, sep, k).None? ==> forall j: nat :: k <= j ==> !OccursAt(s, sep, j)
    decreases |s| - k
  {
    if |s| >= k + |sep| && !OccursAt(s, sep, k) {
      IndexFromFirst(s, sep, k + 1);
    }
  }

  /** `IndexOf` finds the first occurrence, and finds nothing only when there is
      no occurrence at all. */
  lemma IndexOfFirst(s: string, sep: string)
    requires |sep| > 0
    ensures IndexOf(s, sep).Some? ==>
      forall k: nat :: k < IndexOf(s, sep).value ==> !OccursAt(s, sep, k)
    ensures IndexOf(s, sep).None? ==> forall k: nat :: !OccursAt(s, sep, k)
  {
    IndexFromFirst(s, sep, 0);
  }

  /** Python's `sep in s`. */
  predicate Contains(s: string, sep: string)
    requires |sep| > 0
  {
    IndexOf(s, sep).Some?
  }

  /** Python's `s.split(sep)` for a non-empty separator: the pieces between
      non-overlapping occurrences of `sep`, scanned from the left. */
  function Split(s: string, sep: string): (parts: seq<string>)
    requires |sep| > 0
    ensures |parts| >= 1
    decreases |s|
  {
    match IndexOf(s, sep)
    case None => [s]
    case Some(i) => [s[..i]] + Split(s[i + |sep|..], sep)
  }

  /** Python's `sep.join(parts)`. */
  function Join(parts: seq<string>, sep: string): string {
    if |parts| == 0 then ""
    else if |parts| == 1 then parts[0]
    else parts[0] + sep + Join(parts[1..], sep)
  }

  /** One step of a split: the piece before the first separator, then the
      split of what follows it. */
  lemma SplitStep(s: string, sep: string)
    requires |sep| > 0 && Contains(s, sep)
    ensures var i := IndexOf(s, sep).value;
      && Split(s, sep) == [s[..i]] + Split(s[i + |sep|..], sep)
      && s == s[..i] + sep + s[i + |sep|..]
  {
    var i := IndexOf(s, sep).value;
    assert s[i..i + |sep|] == sep;
    assert s == s[..i] + s[i..i + |sep|] + s[i + |sep|..];
  }

  lemma JoinCons(a: string, tail: seq<string>, sep: string)
    requires |tail| >= 1
    ensures Join([a] + tail, sep) == a + sep + Join(tail, sep)
  {
    assert ([a] + tail)[1..] == tail;
  }

  /** Splitting and joining again gives back the original text. */
  lemma {:induction false} SplitJoin(s: string, sep: string)
    requires |sep| > 0
    ensures Join(Split(s, sep), sep) == s
    decreases |s|
  {
    if Contains(s, sep) {
      var i := IndexOf(s, sep).value;
      var rest := s[i + |sep|..];
      SplitStep(s, sep);
      SplitJoin(rest, sep);
      JoinCons(s[..i], Split(rest, sep), sep);
    }
  }

  /** The last piece of a split holds no occurrence of the separator. */
  lemma {:induction false} SplitLastHasNoSeparator(s: string, sep: string)
    requires |sep| > 0
    ensures var parts := Split(s, sep); !Contains(parts[|parts| - 1], sep)
    decreases |s|
  {
    var parts := Split(s, sep);
    if Contains(s, sep) {
      var i := IndexOf(s, sep).value;
      var rest := s[i + |sep|..];
      var tail := Split(rest, sep);
      assert parts == [s[..i]] + tail;
      SplitLastHasNoSeparator(rest, sep);
      assert parts[|parts| - 1] == tail[|tail| - 1];
    } else {
      assert parts == [s];
    }
  }

  /** Without an occurrence of the separator the split is the whole text. */
  lemma SplitWithoutSeparator(s: string, sep: string)
    requires |sep| > 0 && !Contains(s, sep)
    ensures Split(s, sep) == [s]
  {
  }

  /** The last piece of a split follows the last separator: the text ends
      with the separator and that piece. */
  lemma {:induction false} SplitLastIsSuffix(s: string, sep: string)
    requires |sep| > 0 && Contains(s, sep)
    ensures var parts := Split(s, sep); EndsWith(s, sep + parts[|parts| - 1])
    decreases |s|
  {
    var parts := Split(s, sep);
    var i := IndexOf(s, sep).value;
    var rest := s[i + |sep|..];
    var tail := Split(rest, sep);
    assert parts == [s[..i]] + tail;
    assert parts[|parts| - 1] == tail[|tail| - 1];
    var last := tail[|tail| - 1];
    if Contains(rest, sep) {
      SplitLastIsSuffix(rest, sep);
      assert EndsWith(rest, sep + last);
      assert s[|s| - |sep + last|..] == rest[|rest| - |sep + last|..];
    } else {
      assert tail == [rest];
      assert s[i..i + |sep|] == sep;
      assert s[i..] == sep + rest;
    }
  }

  /** With a one-character separator, the last piece of `a + sep + b` is `b`
      when `b` holds no separator. */
  lemma {:induction false} SplitLastAfterSeparator(a: string, sep: string, b: string)
    requires |sep| == 1 && !Contains(b, sep)
    ensures var parts := Split(a + sep + b, sep); parts[|parts| - 1] == b
    decreases |a|
  {
    var s := a + sep + b;
    var parts := Split(s, sep);
    assert OccursAt(s, sep, |a|) by { assert s[|a|..|a| + 1] == sep; }
    IndexOfFirst(s, sep);
    var i := IndexOf(s, sep).value;
    assert i <= |a|;
    var rest := s[i + 1..];
    var tail := Split(rest, sep);
    assert parts == [s[..i]] + tail;
    assert parts[|parts| - 1] == tail[|tail| - 1];
    if i == |a| {
      assert rest == b;
      assert tail == [b];
    } else {
      assert rest == a[i + 1..] + sep + b;
      SplitLastAfterSeparator(a[i + 1..], sep, b);
    }
  }

  lemma SplitAtLeastTwo(s: string, sep: string)
    requires |sep| > 0 && Contains(s, sep)
    ensures |Split(s, sep)| >= 2
  {
  }

  // ---------------------------------------------------------------------------
  // Case mapping (ASCII letters only)

  function UpperChar(c: char): char {
    if 'a' <= c <= 'z' then (c as int - 'a' as int + 'A' as int) as char else c
  }

  /** `str.upper()` restricted to ASCII case mapping. */
  function Upper(s: string): (r: string)
    ensures |r| == |s|
    ensures forall i :: 0 <= i < |r| ==> !('a' <= r[i] <= 'z')
    ensures (forall i :: 0 <= i < |s| ==> !('a' <= s[i] <= 'z')) ==> r == s
  {
    seq(|s|, i requires 0 <= i < |s| => UpperChar(s[i]))
  }

  /** Upper-casing twice is upper-casing once, so a symbol given in any case
      and its upper-case form select the same rows. */
  lemma UpperIdempotent(s: string)
    ensures Upper(Upper(s)) == Upper(s)
  {
  }

  // ---------------------------------------------------------------------------
  // Integers as decimal text

  function DigitChar(d: nat): char
    requires d < 10
  {
    ('0' as int + d) as char
  }

  predicate IsDigit(c: char) {
    '0' <= c <= '9'
  }

  /** `str(n)` for a non-negative integer. */
  function NatToString(n: nat): (r: string)
    ensures |r| >= 1
    ensures forall i :: 0 <= i < |r| ==> IsDigit(r[i])
  {
    if n < 10 then [DigitChar(n)] else NatToString(n / 10) + [DigitChar(n % 10)]
  }

  /** `str(n)` for any integer. */
  function IntToString(n: int): (r: string)
    ensures IsAscii(r)
  {
    if n < 0 then "-" + NatToString(-n) else NatToString(n)
  }

  predicate IsDigits(s: string) {
    forall i :: 0 <= i < |s| ==> IsDigit(s[i])
  }

  /** The value of a string of decimal digits. */
  function DigitsValue(s: string): nat
    requires IsDigits(s)
  {
    if |s| == 0 then 0
    else
      assert IsDigit(s[|s| - 1]);
      DigitsValue(s[..|s| - 1]) * 10 + (s[|s| - 1] as int - '0' as int)
  }

  /** `int(s)` for an optional sign followed by at least one decimal digit;
      anything else is the ValueError the source lets propagate (None). */
  function ParseInt(s: string): Option<int> {
    var signed := |s| > 0 && (s[0] == '-' || s[0] == '+');
    var digits := if signed then s[1..] else s;
    if |digits| > 0 && IsDigits(digits) then
      var n: int := DigitsValue(digits);
      Some(if signed && s[0] == '-' then -n else n)
    else None
  }

  lemma {:induction false} NatToStringValue(n: nat)
    ensures DigitsValue(NatToString(n)) == n
  {
    if n >= 10 {
      var s := NatToString(n);
      NatToStringValue(n / 10);
      assert s[..|s| - 1] == NatToString(n / 10);
    }
  }

  lemma ParseDigits(d: string)
    requires |d| > 0 && IsDigits(d)
    ensures ParseInt(d) == Some(DigitsValue(d))
  {
    assert IsDigit(d[0]);
  }

  lemma ParseNegativeDigits(d: string)
    requires |d| > 0 && IsDigits(d)
    ensures ParseInt("-" + d) == Some(-(DigitsValue(d) as int))
  {
    var s := "-" + d;
    assert s[0] == '-' && s[1..] == d;
  }

  /** `int(str(n)) == n`. */
  lemma ParseIntToString(n: int)
    ensures ParseInt(IntToString(n)) == Some(n)
  {
    if n < 0 {
      var m: nat := -n;
      var d := NatToString(m);
      assert IntToString(n) == "-" + d;
      NatToStringValue(m);
      assert DigitsValue(d) == m;
      ParseNegativeDigits(d);
    } else {
      var d := NatToString(n);
      assert IntToString(n) == d;
      NatToStringValue(n);
      ParseDigits(d);
    }
  }

}
