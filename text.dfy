/**
 * String operations the program takes from the Kotlin library: comparison of
 * TEXT values (SQLite's binary collation), `trim`, `isBlank`, `split` and
 * `contains`. Strings are sequences of Unicode scalar values.
 */
module Text {

  /** Lexicographic order by code point, the order SQLite applies to TEXT. */
  predicate LexLe(a: string, b: string)
  {
    if |a| == 0 then true
    else if |b| == 0 then false
    else if a[0] != b[0] then a[0] < b[0]
    else LexLe(a[1..], b[1..])
  }

  lemma {:induction false} LexLeReflexive(a: string)
    ensures LexLe(a, a)
  {
    if |a| > 0 { LexLeReflexive(a[1..]); }
  }

  lemma {:induction false} LexLeTotal(a: string, b: string)
    ensures LexLe(a, b) || LexLe(b, a)
  {
    if |a| > 0 && |b| > 0 && a[0] == b[0] { LexLeTotal(a[1..], b[1..]); }
  }

  lemma {:induction false} LexLeTransitive(a: string, b: string, c: string)
    requires LexLe(a, b) && LexLe(b, c)
    ensures LexLe(a, c)
  {
    if |a| > 0 && |b| > 0 && |c| > 0 && a[0] == b[0] == c[0] {
      LexLeTransitive(a[1..], b[1..], c[1..]);
    }
  }

  lemma {:induction false} LexLeAntisymmetric(a: string, b: string)
    requires LexLe(a, b) && LexLe(b, a)
    ensures a == b
  {
    if |a| > 0 && |b| > 0 {
      LexLeAntisymmetric(a[1..], b[1..]);
      assert a == [a[0]] + a[1..] && b == [b[0]] + b[1..];
    }
  }

  /** A string is ordered before each of its extensions... */
  lemma {:induction false} LexLeExtension(a: string, suffix: string)
    ensures LexLe(a, a + suffix)
  {
    if |a| > 0 {
      assert (a + suffix)[1..] == a[1..] + suffix;
      LexLeExtension(a[1..], suffix);
    }
  }

  /** ...and a proper extension is never ordered before or with it. */
  lemma {:induction false} ProperExtensionAbove(a: string, suffix: string)
    requires |suffix| > 0
    ensures !LexLe(a + suffix, a)
  {
    if |a| > 0 {
      assert (a + suffix)[1..] == a[1..] + suffix;
      ProperExtensionAbove(a[1..], suffix);
    }
  }

  /** When `a` is strictly before `b` and both have the same length, any extensions keep that order. */
  lemma {:induction false} LexLeSameLengthExtend(a: string, b: string, x: string, y: string)
    requires |a| == |b| && LexLe(a, b) && a != b
    ensures LexLe(a + x, b + y) && !LexLe(b + y, a + x)
  {
    assert (a + x)[1..] == a[1..] + x && (b + y)[1..] == b[1..] + y;
    if a[0] == b[0] {
      assert a[1..] != b[1..] by { assert a == [a[0]] + a[1..] && b == [b[0]] + b[1..]; }
      LexLeSameLengthExtend(a[1..], b[1..], x, y);
    }
  }

  /** Extending two equal-length strings keeps the order the extensions have. */
  lemma {:induction false} LexLeCommonPrefix(p: string, x: string, y: string)
    ensures LexLe(p + x, p + y) == LexLe(x, y)
  {
    if |p| > 0 {
      assert (p + x)[1..] == p[1..] + x && (p + y)[1..] == p[1..] + y;
      LexLeCommonPrefix(p[1..], x, y);
    } else {
      assert p + x == x && p + y == y;
    }
  }

  /** Extending the right-hand side of a comparison of equal-length strings changes nothing. */
  lemma ExtendRight(a: string, b: string, x: string)
    requires |a| == |b|
    ensures LexLe(a, b + x) <==> LexLe(a, b)
  {
    assert a + [] == a;
    if a == b {
      LexLeExtension(a, x);
      LexLeReflexive(a);
    } else if LexLe(a, b) {
      LexLeSameLengthExtend(a, b, [], x);
    } else {
      LexLeTotal(a, b);
      LexLeSameLengthExtend(b, a, x, []);
    }
  }

  /** A proper extension of `b` is ordered before an equal-length `a` only when `b` is strictly before `a`. */
  lemma ExtendLeft(a: string, b: string, x: string)
    requires |a| == |b| && |x| > 0
    ensures LexLe(b + x, a) <==> LexLe(b, a) && b != a
  {
    assert a + [] == a;
    if a == b {
      ProperExtensionAbove(a, x);
    } else if LexLe(b, a) {
      LexLeSameLengthExtend(b, a, x, []);
    } else {
      LexLeTotal(a, b);
      LexLeSameLengthExtend(a, b, [], x);
    }
  }

  predicate IsDigit(c: char)
  {
    '0' <= c <= '9'
  }

  /** Kotlin's `Char.isWhitespace`: Java's whitespace characters and Unicode space separators. */
  predicate IsWhitespace(c: char)
  {
    || c == ' ' || c == '\t' || c == '\n' || c == '\U{B}' || c == '\U{C}' || c == '\r'
    || ('\U{1C}' <= c <= '\U{1F}')
    || c == '\U{A0}' || c == '\U{1680}' || ('\U{2000}' <= c <= '\U{200A}')
    || c == '\U{2028}' || c == '\U{2029}' || c == '\U{202F}' || c == '\U{205F}' || c == '\U{3000}'
  }

  /** Kotlin's `isBlank`: empty or whitespace only. */
  predicate IsBlank(s: string)
  {
    forall i :: 0 <= i < |s| ==> IsWhitespace(s[i])
  }

  function TrimStart(s: string): (r: string)
    ensures |r| <= |s| && r == s[|s| - |r|..]
    ensures IsBlank(s[..|s| - |r|])
    ensures |r| > 0 ==> !IsWhitespace(r[0])
  {
    if |s| > 0 && IsWhitespace(s[0]) then
      var r := TrimStart(s[1..]);
      assert s[..|s| - |r|] == [s[0]] + s[1..][..|s[1..]| - |r|];
      r
    else s
  }

  function TrimEnd(s: string): (r: string)
    ensures |r| <= |s| && r == s[..|r|]
    ensures IsBlank(s[|r|..])
    ensures |r| > 0 ==> !IsWhitespace(r[|r| - 1])
  {
    if |s| > 0 && IsWhitespace(s[|s| - 1]) then
      var r := TrimEnd(s[..|s| - 1]);
      assert s[|r|..] == s[..|s| - 1][|r|..] + [s[|s| - 1]];
      r
    else s
  }

  /** Kotlin's `trim`: drops leading and trailing whitespace. */
  function Trim(s: string): string
  {
    TrimEnd(TrimStart(s))
  }

  /** `trim` leaves the empty string exactly when there was nothing but whitespace. */
  lemma TrimEmptyIffBlank(s: string)
    ensures Trim(s) == "" <==> IsBlank(s)
  {
    var t := TrimStart(s);
    assert s == s[..|s| - |t|] + t;
    if Trim(s) == "" {
      assert t[0..] == t;
      assert s[..|s| - |t|] == s;
    } else if |t| > 0 {
      assert !IsWhitespace(s[|s| - |t|]);
    }
  }

  /** Every result of `trim` begins and ends with a non-whitespace character. */
  lemma TrimEnds(s: string)
    ensures var r := Trim(s); |r| > 0 ==> !IsWhitespace(r[0]) && !IsWhitespace(r[|r| - 1])
  {
    var t := TrimStart(s);
    var r := TrimEnd(t);
    if |r| > 0 { assert r[0] == t[0]; }
  }

  /** The number of times `c` occurs in `s`. */
  function Occurrences(s: string, c: char): nat
  {
    if s == [] then 0 else (if s[0] == c then 1 else 0) + Occurrences(s[1..], c)
  }

  /** Kotlin's `split(c)`: the pieces between occurrences of `c`, empty pieces kept. */
  function Split(s: string, sep: char): (parts: seq<string>)
    ensures |parts| == Occurrences(s, sep) + 1
    ensures forall i :: 0 <= i < |parts| ==> sep !in parts[i]
  {
    if s == [] then [""]
    else
      var rest := Split(s[1..], sep);
      if s[0] == sep then [""] + rest
      else [[s[0]] + rest[0]] + rest[1..]
  }

  /** Kotlin's `joinToString(c)`: the inverse of `Split`. */
  function Join(parts: seq<string>, sep: char): string
    requires |parts| >= 1
  {
    if |parts| == 1 then parts[0] else parts[0] + [sep] + Join(parts[1..], sep)
  }

  lemma {:induction false} SplitThenJoin(s: string, sep: char)
    ensures Join(Split(s, sep), sep) == s
  {
    if s != [] {
      SplitThenJoin(s[1..], sep);
      var rest := Split(s[1..], sep);
      if s[0] != sep {
        var parts := [[s[0]] + rest[0]] + rest[1..];
        if |rest| > 1 {
          assert parts[1..] == rest[1..];
          assert Join(rest, sep) == rest[0] + [sep] + Join(rest[1..], sep);
        }
      } else {
        assert ([""] + rest)[1..] == rest;
      }
    }
  }

  /** Moving the first character of the first part out of a join. */
  lemma {:induction false} JoinFirstChar(parts: seq<string>, sep: char)
    requires |parts| >= 1 && |parts[0]| > 0
    ensures var j := Join(parts, sep);
      |j| > 0 && j[0] == parts[0][0] && j[1..] == Join([parts[0][1..]] + parts[1..], sep)
  {
    var head := parts[0];
    var tail := [head[1..]] + parts[1..];
    assert |tail| == |parts| && tail[0] == head[1..] && tail[1..] == parts[1..];
    if |parts| == 1 {
      assert Join(parts, sep) == head;
      assert Join(tail, sep) == head[1..];
    } else {
      var rest := Join(parts[1..], sep);
      assert Join(parts, sep) == head + [sep] + rest;
      assert Join(tail, sep) == head[1..] + [sep] + rest;
      assert (head + [sep] + rest)[1..] == head[1..] + [sep] + rest;
    }
  }

  lemma {:induction false} JoinThenSplit(parts: seq<string>, sep: char)
    requires |parts| >= 1
    requires forall i :: 0 <= i < |parts| ==> sep !in parts[i]
    ensures Split(Join(parts, sep), sep) == parts
    decreases |parts|, |parts[0]|
  {
    var j := Join(parts, sep);
    if |parts[0]| > 0 {
      var head := parts[0];
      var tail := [head[1..]] + parts[1..];
      assert sep !in tail[0] by {
        assert sep !in head;
        assert forall k :: 0 <= k < |head[1..]| ==> head[1..][k] == head[k + 1];
      }
      assert forall i :: 1 <= i < |tail| ==> tail[i] == parts[i];
      JoinFirstChar(parts, sep);
      JoinThenSplit(tail, sep);
      assert j[0] != sep by { assert head[0] in head; }
      assert Split(j, sep) == [[j[0]] + tail[0]] + tail[1..];
      assert [head[0]] + head[1..] == head;
      assert tail[1..] == parts[1..];
      assert parts == [head] + parts[1..];
    } else if |parts| > 1 {
      assert j == [sep] + Join(parts[1..], sep);
      assert j[1..] == Join(parts[1..], sep);
      assert forall i :: 0 <= i < |parts[1..]| ==> parts[1..][i] == parts[i + 1];
      JoinThenSplit(parts[1..], sep);
      assert parts == [""] + parts[1..];
    }
  }

  /** Kotlin's `contains` for a substring. */
  predicate Contains(s: string, sub: string)
  {
    exists i | 0 <= i <= |s| - |sub| :: OccursAt(s, sub, i)
  }

  predicate OccursAt(s: string, sub: string, i: int)
  {
    0 <= i && i + |sub| <= |s| && s[i..i + |sub|] == sub
  }

  function Pow10(n: nat): (p: nat)
    ensures p >= 1
  {
    if n == 0 then 1 else 10 * Pow10(n - 1)
  }

  function Digit(n: int): char
    requires 0 <= n < 10
  {
    ('0' as int + n) as char
  }

  /** The last `width` decimal digits of `n`, zero-padded. */
  function Padded(n: nat, width: nat): (s: string)
    ensures |s| == width
  {
    if width == 0 then [] else Padded(n / 10, width - 1) + [Digit(n % 10)]
  }

  /** The decimal digits of `n`, without leading zeros. */
  function NatText(n: nat): string
  {
    if n < 10 then [Digit(n)] else NatText(n / 10) + [Digit(n % 10)]
  }
}
