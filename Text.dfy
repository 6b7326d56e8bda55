/**
 The string primitives the merge pipeline relies on: character classes,
 `str.strip()`, `str.split(',')`, the `in` substring test, `str.startswith`
 and the `{:03}` zero-padded decimal rendering of a count.
 */
module Text {

  datatype Option<T> = None | Some(value: T) {
    function GetOr(default: T): T {
      match this
      case Some(v) => v
      case None => default
    }
  }

  /** `\d`, restricted to the ASCII digits. */
  predicate IsDigit(c: char) {
    '0' <= c <= '9'
  }

  /** `\s` and `str.isspace()`, restricted to the ASCII and Latin-1 whitespace characters. */
  predicate IsSpace(c: char) {
    c == ' ' || c == '\t' || c == '\n' || c == '\r' || c == '\U{000B}' || c == '\U{000C}'
    || ('\U{001C}' <= c <= '\U{001F}') || c == '\U{0085}' || c == '\U{00A0}'
  }

  predicate AllSpace(s: string) {
    forall i :: 0 <= i < |s| ==> IsSpace(s[i])
  }

  predicate AllDigits(s: string) {
    forall i :: 0 <= i < |s| ==> IsDigit(s[i])
  }

  // ---------------------------------------------------------------------------
  // str.strip()
  // ---------------------------------------------------------------------------

  /** Drops leading whitespace. */
  function TrimStart(s: string): string {
    if s != [] && IsSpace(s[0]) then TrimStart(s[1..]) else s
  }

  /** Drops trailing whitespace. */
  function TrimEnd(s: string): string {
    if s != [] && IsSpace(s[|s| - 1]) then TrimEnd(s[..|s| - 1]) else s
  }

  /** Python's `str.strip()` with no argument. */
  function Strip(s: string): string {
    TrimEnd(TrimStart(s))
  }

  /** `TrimStart(s)` is the suffix of `s` that starts at its first non-space. */
  lemma {:induction false} TrimStartSpec(s: string)
    ensures var r := TrimStart(s); |r| <= |s| && r == s[|s| - |r|..]
    ensures var r := TrimStart(s); AllSpace(s[..|s| - |r|])
    ensures var r := TrimStart(s); r == [] || !IsSpace(r[0])
  {
    if s != [] && IsSpace(s[0]) {
      TrimStartSpec(s[1..]);
      var r := TrimStart(s);
      assert s[..|s| - |r|] == [s[0]] + s[1..][..|s| - 1 - |r|];
    }
  }

  /** `TrimEnd(s)` is the prefix of `s` that ends at its last non-space. */
  lemma {:induction false} TrimEndSpec(s: string)
    ensures var r := TrimEnd(s); |r| <= |s| && r == s[..|r|]
    ensures var r := TrimEnd(s); AllSpace(s[|r|..])
    ensures var r := TrimEnd(s); r == [] || !IsSpace(r[|r| - 1])
  {
    if s != [] && IsSpace(s[|s| - 1]) {
      var init := s[..|s| - 1];
      TrimEndSpec(init);
      var r := TrimEnd(s);
      assert s[|r|..] == init[|r|..] + [s[|s| - 1]];
    }
  }

  /** `Strip(s)` is the middle of `s` once the leading and trailing whitespace
      runs are cut off, and neither of its ends is whitespace. */
  lemma StripSpec(s: string)
    ensures var r := Strip(s);
      exists i :: 0 <= i <= |s| - |r| && s[i..i + |r|] == r
                  && AllSpace(s[..i]) && AllSpace(s[i + |r|..])
    ensures var r := Strip(s); r == [] || (!IsSpace(r[0]) && !IsSpace(r[|r| - 1]))
    ensures Strip(s) == [] <==> AllSpace(s)
  {
    var t := TrimStart(s);
    var r := TrimEnd(t);
    var i := |s| - |t|;
    TrimStartSpec(s);
    TrimEndSpec(t);
    assert s[i..i + |r|] == t[..|r|];
    assert s[i + |r|..] == t[|r|..];
    if r != [] {
      assert t[0] == r[0];
    }
  }

  /** Stripping is idempotent. */
  lemma StripIdempotent(s: string)
    ensures Strip(Strip(s)) == Strip(s)
  {
    var r := Strip(s);
    StripSpec(s);
    if r != [] {
      assert TrimStart(r) == r;
      assert TrimEnd(r) == r;
    }
  }

  // ---------------------------------------------------------------------------
  // str.split(sep) and its inverse, sep.join(...)
  // ---------------------------------------------------------------------------

  /** `sep.join(parts)`. */
  function Join(parts: seq<string>, sep: char): string
    requires |parts| >= 1
  {
    if |parts| == 1 then parts[0] else parts[0] + [sep] + Join(parts[1..], sep)
  }

  /** Python's `s.split(sep)` for a one-character separator: always at least
      one piece, empty pieces kept, and the pieces joined back give `s`. */
  function Split(s: string, sep: char): (parts: seq<string>)
    ensures |parts| >= 1
    ensures forall i :: 0 <= i < |parts| ==> sep !in parts[i]
    ensures Join(parts, sep) == s
  {
    if s == [] then [""]
    else
      var rest := Split(s[1..], sep);
      if s[0] == sep then [""] + rest
      else
        assert Join(rest, sep) == s[1..];
        JoinConsFirst(rest, sep, s[0]);
        [[s[0]] + rest[0]] + rest[1..]
  }

  lemma JoinConsFirst(parts: seq<string>, sep: char, c: char)
    requires |parts| >= 1
    ensures Join([[c] + parts[0]] + parts[1..], sep) == [c] + Join(parts, sep)
  {
    var ps := [[c] + parts[0]] + parts[1..];
    if |parts| > 1 {
      assert ps[1..] == parts[1..];
    }
  }

  /** Splitting a joined list of separator-free pieces gives the pieces back. */
  lemma {:induction false} SplitJoin(parts: seq<string>, sep: char)
    requires |parts| >= 1
    requires forall i :: 0 <= i < |parts| ==> sep !in parts[i]
    ensures Split(Join(parts, sep), sep) == parts
  {
    if |parts| == 1 {
      SplitNoSep(parts[0], sep);
    } else {
      SplitJoin(parts[1..], sep);
      SplitPrefix(parts[0], sep, Join(parts[1..], sep));
      assert parts == [parts[0]] + parts[1..];
    }
  }

  lemma {:induction false} SplitNoSep(s: string, sep: char)
    requires sep !in s
    ensures Split(s, sep) == [s]
  {
    if s != [] {
      SplitNoSep(s[1..], sep);
    }
  }

  lemma {:induction false} SplitPrefix(a: string, sep: char, b: string)
    requires sep !in a
    ensures Split(a + [sep] + b, sep) == [a] + Split(b, sep)
  {
    if a == [] {
      assert a + [sep] + b == [sep] + b;
    } else {
      assert (a + [sep] + b)[1..] == a[1..] + [sep] + b;
      SplitPrefix(a[1..], sep, b);
      assert [a[0]] + a[1..] == a;
    }
  }

  /** Splitting distributes over a separator: `(a + sep + b).split(sep) == a.split(sep) + b.split(sep)`. */
  lemma SplitAppend(a: string, sep: char, b: string)
    ensures Split(a + [sep] + b, sep) == Split(a, sep) + Split(b, sep)
  {
    var pa, pb := Split(a, sep), Split(b, sep);
    JoinAppend(pa, pb, sep);
    SplitJoin(pa + pb, sep);
  }

  lemma {:induction false} JoinAppend(p: seq<string>, q: seq<string>, sep: char)
    requires |p| >= 1 && |q| >= 1
    ensures Join(p + q, sep) == Join(p, sep) + [sep] + Join(q, sep)
  {
    if |p| == 1 {
      assert (p + q)[1..] == q;
    } else {
      assert (p + q)[1..] == p[1..] + q;
      JoinAppend(p[1..], q, sep);
    }
  }

  // ---------------------------------------------------------------------------
  // `needle in haystack` and str.startswith
  // ---------------------------------------------------------------------------

  predicate StartsWith(s: string, prefix: string) {
    |prefix| <= |s| && s[..|prefix|] == prefix
  }

  /** Python's `needle in haystack` on strings. */
  function Contains(haystack: string, needle: string): bool
    decreases |haystack|
  {
    StartsWith(haystack, needle) || (haystack != [] && Contains(haystack[1..], needle))
  }

  /** `needle` occurs in `haystack` starting at index `i`. */
  predicate OccursAt(haystack: string, needle: string, i: int) {
    0 <= i && i + |needle| <= |haystack| && haystack[i..i + |needle|] == needle
  }

  /** `Contains` holds exactly when `needle` occurs at some position of `haystack`. */
  lemma {:induction false} ContainsSpec(haystack: string, needle: string)
    ensures Contains(haystack, needle) <==> exists i :: OccursAt(haystack, needle, i)
  {
    if StartsWith(haystack, needle) {
      assert OccursAt(haystack, needle, 0);
    }
    if haystack != [] {
      var tail := haystack[1..];
      ContainsSpec(tail, needle);
      if Contains(tail, needle) {
        var i :| OccursAt(tail, needle, i);
        assert haystack[i + 1..i + 1 + |needle|] == tail[i..i + |needle|];
        assert OccursAt(haystack, needle, i + 1);
      }
      if exists i :: OccursAt(haystack, needle, i) {
        var i :| OccursAt(haystack, needle, i);
        if i > 0 {
          assert tail[i - 1..i - 1 + |needle|] == haystack[i..i + |needle|];
          assert OccursAt(tail, needle, i - 1);
        }
      }
    } else {
      if exists i :: OccursAt(haystack, needle, i) {
        var i :| OccursAt(haystack, needle, i);
        assert needle == [];
      }
    }
  }

  /** The empty string is a substring of every string. */
  lemma EmptyContained(haystack: string)
    ensures Contains(haystack, "")
  {
  }

  // ---------------------------------------------------------------------------
  // f"{n:03}": decimal digits, zero-padded to at least three
  // ---------------------------------------------------------------------------

  function DigitChar(d: nat): (c: char)
    requires d < 10
    ensures IsDigit(c)
  {
    ('0' as int + d) as char
  }

  function DigitValue(c: char): nat
    requires IsDigit(c)
  {
    (c as int - '0' as int)
  }

  /** `str(n)`: the decimal digits of `n`, without leading zeros. */
  function Decimal(n: nat): string {
    if n < 10 then [DigitChar(n)] else Decimal(n / 10) + [DigitChar(n % 10)]
  }

  /** `str(n)` is a non-empty run of digits with no leading zero. */
  lemma {:induction false} DecimalSpec(n: nat)
    ensures var s := Decimal(n); |s| >= 1 && AllDigits(s) && (|s| > 1 ==> s[0] != '0')
  {
    if n >= 10 {
      DecimalSpec(n / 10);
    }
  }

  /** The number a string of decimal digits denotes. */
  function ValueOf(s: string): nat
    requires AllDigits(s)
  {
    if s == [] then 0 else ValueOf(s[..|s| - 1]) * 10 + DigitValue(s[|s| - 1])
  }

  function Zeros(k: nat): (s: string)
    ensures |s| == k
  {
    if k == 0 then [] else Zeros(k - 1) + ['0']
  }

  lemma {:induction false} ZerosAreDigits(k: nat)
    ensures AllDigits(Zeros(k))
  {
    if k > 0 {
      ZerosAreDigits(k - 1);
    }
  }

  /** `f"{n:03}"`: `str(n)` with zeros added in front up to three characters. */
  function ZeroPad3(n: nat): string {
    var d := Decimal(n);
    if |d| < 3 then Zeros(3 - |d|) + d else d
  }

  /** Reading the digits of `n` back gives `n`. */
  lemma {:induction false} DecimalRoundTrip(n: nat)
    ensures AllDigits(Decimal(n)) && ValueOf(Decimal(n)) == n
  {
    DecimalSpec(n);
    if n >= 10 {
      DecimalRoundTrip(n / 10);
      var d := Decimal(n);
      assert d[..|d| - 1] == Decimal(n / 10);
    }
  }

  lemma {:induction false} ZerosValue(z: nat, s: string)
    requires AllDigits(s)
    ensures AllDigits(Zeros(z) + s) && ValueOf(Zeros(z) + s) == ValueOf(s)
  {
    ZerosAreDigits(z);
    if s == [] {
      assert Zeros(z) + s == Zeros(z);
      if z > 0 {
        ZerosValue(z - 1, []);
        assert Zeros(z - 1) + [] == Zeros(z - 1);
      }
    } else {
      var t := s[..|s| - 1];
      ZerosValue(z, t);
      assert (Zeros(z) + s)[..|Zeros(z) + s| - 1] == Zeros(z) + t;
    }
  }

  /** The padded rendering is at least three digits long, is exactly
      `max(3, len(str(n)))` long, and reads back as `n`. */
  lemma ZeroPad3Spec(n: nat)
    ensures var p := ZeroPad3(n);
      AllDigits(p) && |p| >= 3 && (|p| == 3 || p == Decimal(n)) && ValueOf(p) == n
  {
    DecimalRoundTrip(n);
    var d := Decimal(n);
    if |d| < 3 {
      ZerosValue(3 - |d|, d);
    }
  }

  /** Distinct counts render to distinct strings. */
  lemma ZeroPad3Injective(n: nat, m: nat)
    requires ZeroPad3(n) == ZeroPad3(m)
    ensures n == m
  {
    ZeroPad3Spec(n);
    ZeroPad3Spec(m);
  }

  lemma ZeroPad3Examples()
    ensures ZeroPad3(1) == "001"
    ensures ZeroPad3(42) == "042"
    ensures ZeroPad3(1234) == "1234"
  {
    assert Decimal(42) == Decimal(4) + ['2'];
    assert Decimal(1234) == Decimal(123) + ['4'];
    assert Decimal(123) == Decimal(12) + ['3'];
    assert Decimal(12) == Decimal(1) + ['2'];
  }
}
