/**
  * JSON values and the text `json.dumps(v, sort_keys=True, separators=(",", ":"))`
  * produces for them: object members in code-point order of their keys, no
  * whitespace, and every character outside printable ASCII escaped (the
  * default `ensure_ascii=True`), so the text is pure ASCII.
  *
  * Python's text for a float (`float.__repr__`) is not modelled; it is the
  * `floatRepr` oracle of a `Codec`, whose output is only known to be ASCII.
  */
module Json {
  import opened Wrappers
  import opened Strings
  import PyDict

  newtype byte = x: int | 0 <= x < 256

  type AsciiText = s: string | IsAscii(s) witness ""

  predicate IsLowerHex(c: char) {
    '0' <= c <= '9' || 'a' <= c <= 'f'
  }

  /** `hashlib.md5(...).hexdigest()`: 128 bits as 32 lowercase hex digits
      (RFC 1321, section 3.5). */
  predicate IsHexDigest(s: string) {
    |s| == 32 && forall i :: 0 <= i < |s| ==> IsLowerHex(s[i])
  }

  type HexDigest = s: string | IsHexDigest(s) witness "00000000000000000000000000000000"

  /** The two computations the model takes as given: the MD5 digest of a byte
      string, and Python's shortest round-trip text of a float. */
  datatype Codec = Codec(md5: seq<byte> -> HexDigest, floatRepr: real -> AsciiText)

  type Members = PyDict.Dict<string, Json>

  datatype Json =
    | Null
    | Bool(b: bool)
    | Int(i: int)
    | Float(f: real)
    | Str(s: string)
    | Arr(items: seq<Json>)
    | Obj(members: Members)

  // ---------------------------------------------------------------------------
  // Sorting object members by key (`sort_keys=True`)

  /** Insert `p` in front of the first member whose key is not smaller. */
  function Insert<V(!new)>(p: (string, V), s: seq<(string, V)>): (r: seq<(string, V)>)
    ensures |r| == |s| + 1
    ensures forall x :: x in r <==> x == p || x in s
  {
    if s == [] || !Less(s[0].0, p.0) then [p] + s
    else [s[0]] + Insert(p, s[1..])
  }

  /** Insertion sort on keys. */
  function SortByKey<V(!new)>(s: seq<(string, V)>): (r: seq<(string, V)>)
    ensures |r| == |s|
    ensures forall x :: x in r <==> x in s
  {
    if s == [] then [] else Insert(s[0], SortByKey(s[1..]))
  }

  ghost predicate StrictlySorted<V>(s: seq<(string, V)>) {
    forall i, j :: 0 <= i < j < |s| ==> Less(s[i].0, s[j].0)
  }

  lemma {:induction false} InsertSorted<V(!new)>(p: (string, V), s: seq<(string, V)>)
    requires StrictlySorted(s)
    requires forall x :: x in s ==> x.0 != p.0
    ensures StrictlySorted(Insert(p, s))
  {
    var r := Insert(p, s);
    if s == [] || !Less(s[0].0, p.0) {
      if s != [] {
        LessTotal(p.0, s[0].0);
        forall j | 1 <= j < |r| ensures Less(p.0, r[j].0) {
          if j > 1 { LessTransitive(p.0, s[0].0, s[j - 1].0); }
        }
      }
    } else {
      InsertSorted(p, s[1..]);
      forall j | 1 <= j < |r| ensures Less(s[0].0, r[j].0) {
        assert r[j] in Insert(p, s[1..]);
      }
    }
  }

  /** Sorting members with distinct keys orders them strictly by key. */
  lemma {:induction false} SortStrictlySorted<V(!new)>(s: seq<(string, V)>)
    requires PyDict.DistinctKeys(s)
    ensures StrictlySorted(SortByKey(s))
  {
    if s != [] {
      assert PyDict.DistinctKeys(s[1..]);
      SortStrictlySorted(s[1..]);
      forall x | x in SortByKey(s[1..]) ensures x.0 != s[0].0 {
        var j :| 1 <= j < |s| && s[j] == x;
      }
      InsertSorted(s[0], SortByKey(s[1..]));
    }
  }

  /** Two sequences strictly sorted by key that hold the same items are equal:
      the sorted order of a dict's items does not depend on insertion order. */
  lemma {:induction false} SortedUnique<V>(a: seq<(string, V)>, b: seq<(string, V)>)
    requires StrictlySorted(a) && StrictlySorted(b)
    requires forall x :: x in a <==> x in b
    ensures a == b
    decreases |a|
  {
    if a == [] {
      assert forall k :: 0 <= k < |b| ==> b[k] in b;
    } else {
      assert a[0] in b;
      assert b != [];
      assert b[0] in a;
      var j :| 0 <= j < |b| && b[j] == a[0];
      var i :| 0 <= i < |a| && a[i] == b[0];
      if j > 0 {
        if i > 0 {
          LessAsymmetric(a[0].0, a[i].0);
        } else {
          LessIrreflexive(b[0].0);
        }
      }
      assert a[0] == b[0];
      forall x ensures x in a[1..] <==> x in b[1..] {
        if x in a[1..] {
          var k :| 1 <= k < |a| && a[k] == x;
          LessIrreflexive(a[0].0);
          assert x in b && x != b[0];
          var m :| 0 <= m < |b| && b[m] == x;
          assert b[1..][m - 1] == x;
        }
        if x in b[1..] {
          var k :| 1 <= k < |b| && b[k] == x;
          LessIrreflexive(b[0].0);
          assert x in a && x != a[0];
          var m :| 0 <= m < |a| && a[m] == x;
          assert a[1..][m - 1] == x;
        }
      }
      SortedUnique(a[1..], b[1..]);
    }
  }

  // ---------------------------------------------------------------------------
  // Canonical form and the written text

  /** The value with every object's members sorted by key, at every depth. */
  function Canon(j: Json): Json {
    match j
    case Arr(items) => Arr(seq(|items|, i requires 0 <= i < |items| => Canon(items[i])))
    case Obj(ms) => Obj(SortByKey(seq(|ms|, i requires 0 <= i < |ms| => (ms[i].0, Canon(ms[i].1)))))
    case _ => j
  }

  /** The members with canonical values, in their original order. */
  function CanonMembers(ms: Members): (r: Members)
    ensures Canon(Obj(ms)) == Obj(SortByKey(r))
    ensures PyDict.Keys(r) == PyDict.Keys(ms)
  {
    seq(|ms|, i requires 0 <= i < |ms| => (ms[i].0, Canon(ms[i].1)))
  }

  /** The text of a value, members in the order they are given. */
  function Write(j: Json, floatRepr: real -> AsciiText): string {
    match j
    case Null => "null"
    case Bool(b) => if b then "true" else "false"
    case Int(n) => IntToString(n)
    case Float(x) => floatRepr(x)
    case Str(s) => Quote(s)
    case Arr(items) =>
      "[" + Join(seq(|items|, i requires 0 <= i < |items| => Write(items[i], floatRepr)), ",") + "]"
    case Obj(ms) =>
      "{" + Join(seq(|ms|, i requires 0 <= i < |ms| => Quote(ms[i].0) + ":" + Write(ms[i].1, floatRepr)), ",") + "}"
  }

  /** The `"key":value` texts of an object's members, in order. */
  function MemberTexts(ms: Members, floatRepr: real -> AsciiText): (parts: seq<string>)
    ensures |parts| == |ms|
    ensures forall i :: 0 <= i < |ms| ==> parts[i] == Quote(ms[i].0) + ":" + Write(ms[i].1, floatRepr)
  {
    seq(|ms|, i requires 0 <= i < |ms| => Quote(ms[i].0) + ":" + Write(ms[i].1, floatRepr))
  }

  lemma WriteObj(ms: Members, floatRepr: real -> AsciiText)
    ensures Write(Obj(ms), floatRepr) == "{" + Join(MemberTexts(ms, floatRepr), ",") + "}"
  {
  }

  /** `json.dumps(j, sort_keys=True, separators=(",", ":"))`. */
  function Dump(j: Json, floatRepr: real -> AsciiText): string {
    Write(Canon(j), floatRepr)
  }

  // ---------------------------------------------------------------------------
  // String escaping (`ensure_ascii=True`)

  /** The number a lowercase hex digit stands for. */
  function HexValue(c: char): nat
    requires IsLowerHex(c)
  {
    if c <= '9' then c as int - '0' as int else c as int - 'a' as int + 10
  }

  function HexDigit(d: nat): (c: char)
    requires d < 16
    ensures IsLowerHex(c) && HexValue(c) == d
  {
    if d < 10 then ('0' as int + d) as char else ('a' as int + d - 10) as char
  }

  /** Four lowercase hex digits, as `'{0:04x}'.format(n)`. */
  function Hex4(n: nat): (r: string)
    requires n < 0x10000
    ensures |r| == 4 && IsAscii(r)
    ensures forall i :: 0 <= i < 4 ==> IsLowerHex(r[i])
    ensures HexValue(r[0]) * 0x1000 + HexValue(r[1]) * 0x100 + HexValue(r[2]) * 0x10 + HexValue(r[3]) == n
  {
    [HexDigit(n / 0x1000), HexDigit(n / 0x100 % 16), HexDigit(n / 0x10 % 16), HexDigit(n % 16)]
  }

  /** The escape for one character: the short forms, printable ASCII as is,
      other code points below U+10000 as `\uXXXX`, the rest as a UTF-16
      surrogate pair. */
  function EscapeChar(c: char): (r: string)
    ensures IsAscii(r)
  {
    var n := c as int;
    if c == '"' then "\\\""
    else if c == '\\' then "\\\\"
    else if c == '\n' then "\\n"
    else if c == '\r' then "\\r"
    else if c == '\t' then "\\t"
    else if n == 8 then "\\b"
    else if n == 12 then "\\f"
    else if ' ' <= c <= '~' then [c]
    else if n < 0x10000 then "\\u" + Hex4(n)
    else
      var v := n - 0x10000;
      "\\u" + Hex4(0xD800 + v / 0x400) + "\\u" + Hex4(0xDC00 + v % 0x400)
  }

  function Escape(s: string): (r: string)
    ensures IsAscii(r)
  {
    if s == [] then ""
    else
      AsciiConcat(EscapeChar(s[0]), Escape(s[1..]));
      EscapeChar(s[0]) + Escape(s[1..])
  }

  /** A JSON string literal. */
  function Quote(s: string): (r: string)
    ensures IsAscii(r)
  {
    AsciiConcat("\"", Escape(s));
    AsciiConcat("\"" + Escape(s), "\"");
    "\"" + Escape(s) + "\""
  }

  // ---------------------------------------------------------------------------
  // Properties

  lemma {:induction false} JoinAscii(parts: seq<string>, sep: string)
    requires IsAscii(sep)
    requires forall i :: 0 <= i < |parts| ==> IsAscii(parts[i])
    ensures IsAscii(Join(parts, sep))
  {
    if |parts| > 1 {
      JoinAscii(parts[1..], sep);
      AsciiConcat(parts[0], sep);
      AsciiConcat(parts[0] + sep, Join(parts[1..], sep));
    }
  }

  /** The written text is pure ASCII, so its UTF-8 encoding has one byte per
      character. */
  lemma {:induction false} WriteIsAscii(j: Json, floatRepr: real -> AsciiText)
    ensures IsAscii(Write(j, floatRepr))
  {
    match j
    case Arr(items) =>
      var parts := seq(|items|, i requires 0 <= i < |items| => Write(items[i], floatRepr));
      forall i | 0 <= i < |items| ensures IsAscii(parts[i]) {
        WriteIsAscii(items[i], floatRepr);
      }
      JoinAscii(parts, ",");
      AsciiConcat("[", Join(parts, ","));
      AsciiConcat("[" + Join(parts, ","), "]");
    case Obj(ms) =>
      var parts := seq(|ms|, i requires 0 <= i < |ms| => Quote(ms[i].0) + ":" + Write(ms[i].1, floatRepr));
      forall i | 0 <= i < |ms| ensures IsAscii(parts[i]) {
        WriteIsAscii(ms[i].1, floatRepr);
        AsciiConcat(Quote(ms[i].0), ":");
        AsciiConcat(Quote(ms[i].0) + ":", Write(ms[i].1, floatRepr));
      }
      JoinAscii(parts, ",");
      AsciiConcat("{", Join(parts, ","));
      AsciiConcat("{" + Join(parts, ","), "}");
    case _ =>
  }

  lemma DumpIsAscii(j: Json, floatRepr: real -> AsciiText)
    ensures IsAscii(Dump(j, floatRepr))
  {
    WriteIsAscii(Canon(j), floatRepr);
  }

  /** `s.encode("utf-8")` for ASCII text. */
  function EncodeAscii(s: string): (bytes: seq<byte>)
    requires IsAscii(s)
    ensures |bytes| == |s| && forall i :: 0 <= i < |s| ==> bytes[i] as int == s[i] as int
  {
    seq(|s|, i requires 0 <= i < |s| => s[i] as int as byte)
  }

  lemma CanonMembersDistinct(ms: Members)
    requires PyDict.DistinctKeys(ms)
    ensures PyDict.DistinctKeys(CanonMembers(ms))
  {
    var c := CanonMembers(ms);
    forall i, j | 0 <= i < j < |c| ensures c[i].0 != c[j].0 {
      assert PyDict.Keys(c)[i] == PyDict.Keys(ms)[i];
    }
  }

  /** A canonical member of `a` is one of `b` when `b` has every key of `a`
      with a value of the same canonical form. */
  lemma CanonMemberShared(a: Members, b: Members, x: (string, Json))
    requires PyDict.DistinctKeys(a) && PyDict.DistinctKeys(b)
    requires forall k :: PyDict.Get(a, k).Some? ==>
               PyDict.Get(b, k).Some? && Canon(PyDict.Get(a, k).value) == Canon(PyDict.Get(b, k).value)
    requires x in CanonMembers(a)
    ensures x in CanonMembers(b)
  {
    var ca, cb := CanonMembers(a), CanonMembers(b);
    var i :| 0 <= i < |ca| && ca[i] == x;
    PyDict.MemberIffGet(a, a[i].0, a[i].1);
    var v := PyDict.Get(b, x.0).value;
    PyDict.MemberIffGet(b, x.0, v);
    var j :| 0 <= j < |b| && b[j] == (x.0, v);
    assert cb[j] == x;
  }

  /** Key order does not matter: two objects with the same keys, whose values
      under each key have the same canonical form, have the same canonical form
      (and so dump to the same text). Applied at every level this is Python's
      order-insensitive dict equality. */
  lemma CanonIgnoresMemberOrder(ms1: Members, ms2: Members)
    requires PyDict.DistinctKeys(ms1) && PyDict.DistinctKeys(ms2)
    requires forall k :: PyDict.Get(ms1, k).Some? <==> PyDict.Get(ms2, k).Some?
    requires forall k :: PyDict.Get(ms1, k).Some? ==>
               Canon(PyDict.Get(ms1, k).value) == Canon(PyDict.Get(ms2, k).value)
    ensures Canon(Obj(ms1)) == Canon(Obj(ms2))
  {
    var c1, c2 := CanonMembers(ms1), CanonMembers(ms2);
    CanonMembersDistinct(ms1);
    CanonMembersDistinct(ms2);
    forall x | x in c1 ensures x in c2 {
      CanonMemberShared(ms1, ms2, x);
    }
    forall x | x in c2 ensures x in c1 {
      CanonMemberShared(ms2, ms1, x);
    }
    SortStrictlySorted(c1);
    SortStrictlySorted(c2);
    SortedUnique(SortByKey(c1), SortByKey(c2));
  }
}
