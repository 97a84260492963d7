/**
 * String operations the programs rely on, stated once: `str.split(sep)` in
 * Python and `str::split(sep)` in Rust for a one-character separator,
 * `str::find`, `str::starts_with`, `os.path.basename`, `str(n)`, Python's
 * `int(s)` and Rust's `s.parse::<u16>()`. Characters are compared as
 * code points; no normalisation happens anywhere in the programs.
 */
module Text {
  import opened Wrappers

  predicate StartsWith(s: string, prefix: string) {
    |prefix| <= |s| && s[..|prefix|] == prefix
  }

  predicate EndsWith(s: string, suffix: string) {
    |suffix| <= |s| && s[|s| - |suffix|..] == suffix
  }

  // ---------------------------------------------------------------------
  // Splitting on a one-character separator

  /**
   * The pieces of `s` between occurrences of `sep`; both Python and Rust
   * give one empty piece for the empty string and keep empty pieces.
   */
  function Split(s: string, sep: char): (r: seq<string>)
    ensures |r| >= 1
    decreases |s|
  {
    if |s| == 0 then [""]
    else
      var rest := Split(s[1..], sep);
      if s[0] == sep then [""] + rest
      else [[s[0]] + rest[0]] + rest[1..]
  }

  /** The inverse of Split: the pieces joined by `sep`. */
  function Join(parts: seq<string>, sep: char): string
    requires |parts| >= 1
    decreases |parts|
  {
    if |parts| == 1 then parts[0] else parts[0] + [sep] + Join(parts[1..], sep)
  }

  lemma {:induction false} SplitPiecesAvoidSep(s: string, sep: char)
    ensures forall i :: 0 <= i < |Split(s, sep)| ==> sep !in Split(s, sep)[i]
    decreases |s|
  {
    if |s| > 0 {
      SplitPiecesAvoidSep(s[1..], sep);
    }
  }

  lemma {:induction false} JoinSplit(s: string, sep: char)
    ensures Join(Split(s, sep), sep) == s
    decreases |s|
  {
    if |s| > 0 {
      var rest := Split(s[1..], sep);
      JoinSplit(s[1..], sep);
      if s[0] == sep {
        assert s == [sep] + s[1..];
      } else {
        var r := Split(s, sep);
        assert r[1..] == rest[1..];
        if |rest| == 1 {
          assert s == [s[0]] + rest[0];
        } else {
          assert Join(rest, sep) == rest[0] + [sep] + Join(rest[1..], sep);
          assert s == [s[0]] + s[1..];
        }
      }
    }
  }

  lemma {:induction false} SplitJoin(parts: seq<string>, sep: char)
    requires |parts| >= 1
    requires forall i :: 0 <= i < |parts| ==> sep !in parts[i]
    ensures Split(Join(parts, sep), sep) == parts
    decreases |parts|, |parts[0]|
  {
    var p := parts[0];
    if |parts| == 1 {
      SplitNoSep(p, sep);
    } else if |p| == 0 {
      var tail := Join(parts[1..], sep);
      SplitJoin(parts[1..], sep);
      assert Join(parts, sep) == [sep] + tail;
      assert Join(parts, sep)[1..] == tail;
    } else {
      var shorter := [p[1..]] + parts[1..];
      assert forall i :: 0 <= i < |shorter| ==> sep !in shorter[i] by {
        assert forall i :: 1 <= i < |shorter| ==> shorter[i] == parts[i];
      }
      SplitJoin(shorter, sep);
      assert shorter[1..] == parts[1..];
      assert Join(shorter, sep) == p[1..] + [sep] + Join(parts[1..], sep);
      assert Join(parts, sep)[1..] == Join(shorter, sep);
      assert p[0] != sep by { assert p[0] in p; }
      assert [p[0]] + p[1..] == p;
    }
  }

  /** Splitting text that starts with a separator-free piece and a separator. */
  lemma {:induction false} SplitCons(a: string, sep: char, b: string)
    requires sep !in a
    ensures Split(a + [sep] + b, sep) == [a] + Split(b, sep)
    decreases |a|
  {
    if |a| > 0 {
      assert sep !in a[1..] by { assert forall i :: 0 <= i < |a| - 1 ==> a[1..][i] == a[i + 1]; }
      SplitCons(a[1..], sep, b);
      assert (a + [sep] + b)[1..] == a[1..] + [sep] + b;
      assert [a[0]] + a[1..] == a;
    } else {
      assert a + [sep] + b == [sep] + b;
    }
  }

  /** A key and a value joined by the separator split back into the two. */
  lemma SplitPair(key: string, sep: char, val: string)
    requires sep !in key && sep !in val
    ensures Split(key + [sep] + val, sep) == [key, val]
  {
    assert Join([key, val], sep) == key + [sep] + val;
    SplitJoin([key, val], sep);
  }

  lemma {:induction false} SplitNoSep(s: string, sep: char)
    requires sep !in s
    ensures Split(s, sep) == [s]
    decreases |s|
  {
    if |s| > 0 {
      assert sep !in s[1..] by { assert forall i :: 0 <= i < |s| - 1 ==> s[1..][i] == s[i + 1]; }
      SplitNoSep(s[1..], sep);
      assert [s[0]] + s[1..] == s;
    }
  }

  // ---------------------------------------------------------------------
  // Searching

  predicate OccursAt(s: string, pat: string, j: nat) {
    j + |pat| <= |s| && s[j..j + |pat|] == pat
  }

  /** Rust's `s.find(pat)`: the first index where `pat` occurs in `s`. */
  function Find(s: string, pat: string): (r: Option<nat>)
    ensures r.Some? ==> OccursAt(s, pat, r.value)
    ensures r.Some? ==> forall j: nat :: j < r.value ==> !OccursAt(s, pat, j)
    ensures r.None? ==> forall j: nat :: !OccursAt(s, pat, j)
    decreases |s|
  {
    if |s| < |pat| then None
    else if s[..|pat|] == pat then Some(0)
    else
      assert forall j: nat :: 1 <= j ==> (OccursAt(s, pat, j) <==> OccursAt(s[1..], pat, j - 1)) by {
        forall j: nat | 1 <= j ensures OccursAt(s, pat, j) <==> OccursAt(s[1..], pat, j - 1) {
          if j + |pat| <= |s| {
            var here, there := s[j..j + |pat|], s[1..][j - 1..j - 1 + |pat|];
            assert forall k :: 0 <= k < |pat| ==> here[k] == there[k];
          }
        }
      }
      match Find(s[1..], pat)
      case None => None
      case Some(i) => Some(i + 1)
  }

  /**
   * `os.path.basename(p)` on POSIX: the text after the last '/', that is
   * the longest suffix of `p` without a '/'.
   */
  function BaseName(p: string): (r: string)
    ensures '/' !in r
    ensures EndsWith(p, r)
    ensures |r| < |p| ==> p[|p| - |r| - 1] == '/'
    decreases |p|
  {
    if |p| == 0 || p[|p| - 1] == '/' then ""
    else
      var r := BaseName(p[..|p| - 1]) + [p[|p| - 1]];
      assert p[|p| - |r|..] == p[..|p| - 1][|p| - |r|..] + [p[|p| - 1]];
      r
  }

  // ---------------------------------------------------------------------
  // Decimal numbers

  predicate IsDigit(c: char) { '0' <= c <= '9' }

  predicate AllDigits(s: string) { forall i :: 0 <= i < |s| ==> IsDigit(s[i]) }

  function DigitValue(c: char): (d: nat)
    requires IsDigit(c)
    ensures d < 10
  {
    (c as int) - ('0' as int)
  }

  function DigitChar(d: nat): (c: char)
    requires d < 10
    ensures IsDigit(c) && DigitValue(c) == d
  {
    (d + '0' as int) as char
  }

  /** The value of a string of decimal digits, most significant first. */
  function DecimalValue(s: string): nat
    requires AllDigits(s)
    decreases |s|
  {
    if |s| == 0 then 0 else 10 * DecimalValue(s[..|s| - 1]) + DigitValue(s[|s| - 1])
  }

  /** `str(n)` for a non-negative integer. */
  function NatToString(n: nat): (r: string)
    ensures |r| >= 1 && AllDigits(r)
    ensures r[0] == '0' ==> n == 0
    decreases n
  {
    if n < 10 then [DigitChar(n)] else NatToString(n / 10) + [DigitChar(n % 10)]
  }

  /** `str(i)` for any integer. */
  function IntToString(i: int): (r: string)
  {
    if i < 0 then "-" + NatToString(-i) else NatToString(i)
  }

  lemma {:induction false} DecimalValueOfNatToString(n: nat)
    ensures DecimalValue(NatToString(n)) == n
    decreases n
  {
    if n >= 10 {
      DecimalValueOfNatToString(n / 10);
      var s := NatToString(n);
      assert s[..|s| - 1] == NatToString(n / 10);
    }
  }

  lemma NatToStringInjective(m: nat, n: nat)
    requires NatToString(m) == NatToString(n)
    ensures m == n
  {
    DecimalValueOfNatToString(m);
    DecimalValueOfNatToString(n);
  }

  /** The bound u16 parsing checks: a u16 has at most this value. */
  const U16_MAX: nat := 0xFFFF

  /**
   * Rust's `s.parse::<u16>()`: an optional '+', then at least one ASCII
   * digit, and a value that fits in 16 bits (leading zeros allowed).
   */
  function ParseU16(s: string): (r: Option<nat>)
    ensures r.Some? ==> r.value <= U16_MAX
  {
    if |s| == 0 then None
    else
      var digits := if s[0] == '+' then s[1..] else s;
      if |digits| == 0 || !AllDigits(digits) then None
      else if DecimalValue(digits) > U16_MAX then None
      else Some(DecimalValue(digits))
  }

  lemma ParseU16OfNatToString(n: nat)
    requires n <= U16_MAX
    ensures ParseU16(NatToString(n)) == Some(n)
  {
    DecimalValueOfNatToString(n);
  }

  // ---------------------------------------------------------------------
  // Python's int(s) in base 10

  /** The characters Python's `int()` strips (the ASCII ones). */
  predicate IsSpace(c: char) {
    c == ' ' || c == '\t' || c == '\n' || c == '\r' || c == '\U{B}' || c == '\U{C}'
    || '\U{1C}' <= c <= '\U{1F}'
  }

  function StripLeft(s: string): (r: string)
    ensures |r| <= |s| && r == s[|s| - |r|..]
    ensures |r| > 0 ==> !IsSpace(r[0])
    decreases |s|
  {
    if |s| > 0 && IsSpace(s[0]) then StripLeft(s[1..]) else s
  }

  function StripRight(s: string): (r: string)
    ensures |r| <= |s| && r == s[..|r|]
    ensures |r| > 0 ==> !IsSpace(r[|r| - 1])
    decreases |s|
  {
    if |s| > 0 && IsSpace(s[|s| - 1]) then StripRight(s[..|s| - 1]) else s
  }

  /** Digits with single underscores allowed between digits, as in `1_000`. */
  predicate UnderscoredDigits(s: string) {
    && |s| > 0 && IsDigit(s[0]) && IsDigit(s[|s| - 1])
    && (forall i :: 0 <= i < |s| ==> IsDigit(s[i]) || s[i] == '_')
    && (forall i :: 0 <= i < |s| - 1 ==> !(s[i] == '_' && s[i + 1] == '_'))
  }

  function RemoveUnderscores(s: string): (r: string)
    ensures (forall i :: 0 <= i < |s| ==> IsDigit(s[i]) || s[i] == '_') ==> AllDigits(r)
    ensures '_' !in s ==> r == s
    decreases |s|
  {
    if |s| == 0 then ""
    else if s[0] == '_' then RemoveUnderscores(s[1..])
    else [s[0]] + RemoveUnderscores(s[1..])
  }

  /** The value of an unsigned digit string as Python's `int()` reads it. */
  function UnderscoredValue(s: string): (r: Option<nat>)
  {
    if UnderscoredDigits(s) then Some(DecimalValue(RemoveUnderscores(s))) else None
  }

  /** Python's `int(s)`; None stands for the ValueError it raises. */
  function PyInt(s: string): (r: Option<int>)
    ensures r.Some? ==> |StripRight(StripLeft(s))| > 0
  {
    var t := StripRight(StripLeft(s));
    if |t| > 0 && t[0] == '-' then
      match UnderscoredValue(t[1..])
      case None => None
      case Some(v) => Some(-(v as int))
    else if |t| > 0 && t[0] == '+' then
      match UnderscoredValue(t[1..])
      case None => None
      case Some(v) => Some(v as int)
    else
      match UnderscoredValue(t)
      case None => None
      case Some(v) => Some(v as int)
  }

  lemma PyIntOfEmpty()
    ensures PyInt("") == None
  {
  }

  lemma {:induction false} PyIntOfIntToString(i: int)
    ensures PyInt(IntToString(i)) == Some(i)
  {
    var n: nat := if i < 0 then -i else i;
    DecimalValueOfNatToString(n);
    if i < 0 {
      PyIntOfNegDigits(NatToString(n));
    } else {
      PyIntOfDigits(NatToString(n));
    }
  }

  lemma {:induction false} PyIntOfDigits(s: string)
    requires |s| > 0 && AllDigits(s)
    ensures PyInt(s) == Some(DecimalValue(s))
  {
    DigitsAreUnderscored(s);
    assert IsDigit(s[0]) && IsDigit(s[|s| - 1]);
    StripNothing(s);
  }

  lemma {:induction false} PyIntOfNegDigits(s: string)
    requires |s| > 0 && AllDigits(s)
    ensures PyInt("-" + s) == Some(-(DecimalValue(s) as int))
  {
    DigitsAreUnderscored(s);
    var t := "-" + s;
    assert t[0] == '-' && t[1..] == s && t[|t| - 1] == s[|s| - 1];
    assert IsDigit(s[|s| - 1]);
    StripNothing(t);
    var stripped := StripRight(StripLeft(t));
    assert stripped == t;
    assert stripped[1..] == s;
    assert UnderscoredValue(stripped[1..]) == Some(DecimalValue(s));
    assert |stripped| > 0 && stripped[0] == '-';
  }

  lemma StripNothing(s: string)
    requires |s| > 0 && !IsSpace(s[0]) && !IsSpace(s[|s| - 1])
    ensures StripRight(StripLeft(s)) == s
  {
  }

  lemma DigitsAreUnderscored(s: string)
    requires |s| > 0 && AllDigits(s)
    ensures UnderscoredDigits(s) && RemoveUnderscores(s) == s
  {
    assert '_' !in s;
  }
}
