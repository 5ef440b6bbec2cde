/**
 * String helpers used by the scripts' key, path and URL construction:
 * prefix and substring tests, ASCII lower-casing, Python's code-point
 * ordering of strings, and the decimal rendering of an `int` in an f-string.
 */
module Text {

  /** `s.startswith(p)` */
  predicate StartsWith(s: string, p: string) {
    |p| <= |s| && s[..|p|] == p
  }

  /** `needle in hay` for two Python strings: a substring test (the empty needle is in every string). */
  predicate Contains(hay: string, needle: string)
    decreases |hay|
  {
    StartsWith(hay, needle) || (|hay| > 0 && Contains(hay[1..], needle))
  }

  /** Lower-cases the ASCII letters A-Z and leaves every other character alone. */
  function LowerChar(c: char): (r: char)
    ensures 'A' <= c <= 'Z' ==> 'a' <= r <= 'z' && r as int - c as int == 32
    ensures !('A' <= c <= 'Z') ==> r == c
  {
    if 'A' <= c <= 'Z' then (c as int + 32) as char else c
  }

  /** `s.lower()`, restricted to ASCII letters. */
  function Lower(s: string): (r: string)
    ensures |r| == |s|
    ensures forall i :: 0 <= i < |s| ==> r[i] == LowerChar(s[i])
  {
    seq(|s|, i requires 0 <= i < |s| => LowerChar(s[i]))
  }

  /** Python's `a <= b` on strings: lexicographic by code point, a prefix sorting first. */
  predicate LexLe(a: string, b: string)
    decreases |a|
  {
    if a == [] then true
    else if b == [] then false
    else if a[0] != b[0] then a[0] < b[0]
    else LexLe(a[1..], b[1..])
  }

  lemma {:induction false} LexLeTotal(a: string, b: string)
    ensures LexLe(a, b) || LexLe(b, a)
    decreases |a|
  {
    if a != [] && b != [] && a[0] == b[0] {
      LexLeTotal(a[1..], b[1..]);
    }
  }

  lemma {:induction false} LexLeTransitive(a: string, b: string, c: string)
    requires LexLe(a, b) && LexLe(b, c)
    ensures LexLe(a, c)
    decreases |a|
  {
    if a != [] && b != [] && c != [] && a[0] == b[0] && b[0] == c[0] {
      LexLeTransitive(a[1..], b[1..], c[1..]);
    }
  }

  predicate IsDigit(c: char) {
    '0' <= c <= '9'
  }

  function DigitChar(d: nat): (c: char)
    requires d < 10
    ensures IsDigit(c)
  {
    ('0' as int + d) as char
  }

  /** Decimal rendering of a natural number, as Python's `str(n)`. */
  function NatToDecimal(n: nat): (r: string)
    ensures |r| >= 1
    ensures forall i :: 0 <= i < |r| ==> IsDigit(r[i])
    ensures (n < 10) == (|r| == 1)
    decreases n
  {
    if n < 10 then [DigitChar(n)] else NatToDecimal(n / 10) + [DigitChar(n % 10)]
  }

  /** Decimal rendering of an integer in an f-string: a minus sign before the digits of a negative number. */
  function IntToDecimal(n: int): (r: string)
    ensures n >= 0 ==> r == NatToDecimal(n)
    ensures n < 0 ==> |r| >= 2 && r[0] == '-' && r[1..] == NatToDecimal(-n)
  {
    if n < 0 then "-" + NatToDecimal(-n) else NatToDecimal(n)
  }

  /** Distinct natural numbers render as distinct strings. */
  lemma {:induction false} NatToDecimalInjective(a: nat, b: nat)
    requires NatToDecimal(a) == NatToDecimal(b)
    ensures a == b
    decreases a
  {
    var ra, rb := NatToDecimal(a), NatToDecimal(b);
    if a >= 10 && b >= 10 {
      assert ra[..|ra| - 1] == NatToDecimal(a / 10);
      assert rb[..|rb| - 1] == NatToDecimal(b / 10);
      NatToDecimalInjective(a / 10, b / 10);
      assert DigitChar(a % 10) == ra[|ra| - 1] == rb[|rb| - 1] == DigitChar(b % 10);
    }
  }

  predicate NoChar(s: string, c: char) {
    forall i :: 0 <= i < |s| ==> s[i] != c
  }

  /** Position of the first `c` in `s`, or `|s|` when there is none. */
  function FirstIndexOf(s: string, c: char): (k: nat)
    ensures k <= |s|
    decreases |s|
  {
    if s == [] then 0 else if s[0] == c then 0 else 1 + FirstIndexOf(s[1..], c)
  }

  /** Number of characters after the last `c` in `s`, or `|s|` when there is none. */
  function CharsAfterLast(s: string, c: char): (k: nat)
    ensures k <= |s|
    decreases |s|
  {
    if s == [] then 0 else if s[|s| - 1] == c then 0 else 1 + CharsAfterLast(s[..|s| - 1], c)
  }

  lemma {:induction false} FirstIndexOfJoin(a: string, x: string, c: char)
    requires NoChar(a, c)
    ensures FirstIndexOf(a + [c] + x, c) == |a|
    decreases |a|
  {
    if a != [] {
      assert (a + [c] + x)[1..] == a[1..] + [c] + x;
      FirstIndexOfJoin(a[1..], x, c);
    }
  }

  lemma {:induction false} CharsAfterLastJoin(a: string, x: string, c: char)
    requires NoChar(x, c)
    ensures CharsAfterLast(a + [c] + x, c) == |x|
    decreases |x|
  {
    if x != [] {
      assert (a + [c] + x)[..|a + [c] + x| - 1] == a + [c] + x[..|x| - 1];
      CharsAfterLastJoin(a, x[..|x| - 1], c);
    }
  }

  /** A separator that occurs in neither left part splits a joined string uniquely. */
  lemma SplitAtFirst(a: string, x: string, b: string, y: string, c: char)
    requires NoChar(a, c) && NoChar(b, c)
    requires a + [c] + x == b + [c] + y
    ensures a == b && x == y
  {
    var s := a + [c] + x;
    FirstIndexOfJoin(a, x, c);
    FirstIndexOfJoin(b, y, c);
    assert a == s[..|a|] == b;
    assert x == s[|a| + 1..] == y;
  }

  /** A separator that occurs in neither right part splits a joined string uniquely. */
  lemma SplitAtLast(a: string, x: string, b: string, y: string, c: char)
    requires NoChar(x, c) && NoChar(y, c)
    requires a + [c] + x == b + [c] + y
    ensures a == b && x == y
  {
    var s := a + [c] + x;
    CharsAfterLastJoin(a, x, c);
    CharsAfterLastJoin(b, y, c);
    assert a == s[..|a|] == b;
    assert x == s[|a| + 1..] == y;
  }

  /** `os.path.join(dir, name)` on POSIX: an absolute `name` replaces `dir`, otherwise one `/` joins them. */
  function PathJoin(dir: string, name: string): (path: string)
    ensures name != [] && name[0] == '/' ==> path == name
    ensures (name == [] || name[0] != '/') && dir != [] && dir[|dir| - 1] != '/' ==> path == dir + "/" + name
  {
    if name != [] && name[0] == '/' then name
    else if dir == [] || dir[|dir| - 1] == '/' then dir + name
    else dir + "/" + name
  }
}
